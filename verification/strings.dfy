/** The handful of Python `str` operations the components use: prefix and
    substring tests, `strip`, `rstrip(c)`, `join`, `split` and `str(int)`. */
module Strings {

  /** Python's `str.isspace` restricted to the ASCII whitespace characters. */
  predicate IsSpace(c: char) {
    c == ' ' || c == '\t' || c == '\n' || c == '\r' || c == '\U{000B}' || c == '\U{000C}'
  }

  predicate AllSpace(s: string) {
    forall i :: 0 <= i < |s| ==> IsSpace(s[i])
  }

  /** `s` is non-empty and neither starts nor ends with whitespace. */
  predicate NonSpaceEnds(s: string) {
    |s| > 0 && !IsSpace(s[0]) && !IsSpace(s[|s| - 1])
  }

  predicate StartsWith(s: string, prefix: string) {
    |prefix| <= |s| && s[..|prefix|] == prefix
  }

  predicate EndsWith(s: string, suffix: string) {
    |suffix| <= |s| && s[|s| - |suffix|..] == suffix
  }

  /** Python's `sub in s`. */
  predicate Contains(s: string, sub: string)
    decreases |s|
  {
    StartsWith(s, sub) || (|s| > 0 && Contains(s[1..], sub))
  }

  /** A string contains every piece of a concatenation it is made of. */
  lemma {:induction false} ContainsMiddle(a: string, b: string, c: string)
    ensures Contains(a + b + c, b)
    decreases |a|
  {
    if a == [] {
      assert a + b + c == b + c;
      assert (b + c)[..|b|] == b;
    } else {
      assert (a + b + c)[1..] == a[1..] + b + c;
      ContainsMiddle(a[1..], b, c);
    }
  }

  /** Two concatenations with the same outer pieces are equal only when
      their middle pieces are. */
  lemma MiddleCancel(a: string, b1: string, b2: string, c: string)
    requires a + b1 + c == a + b2 + c
    ensures b1 == b2
  {
    assert (a + b1 + c)[|a|..|a| + |b1|] == b1;
    assert (a + b2 + c)[|a|..|a| + |b2|] == b2;
  }

  /** Python's `s.lstrip()`. */
  function LStrip(s: string): (r: string)
    ensures |r| <= |s| && r == s[|s| - |r|..]
    ensures AllSpace(s[..|s| - |r|])
    ensures |r| > 0 ==> !IsSpace(r[0])
    decreases |s|
  {
    if |s| > 0 && IsSpace(s[0]) then LStrip(s[1..]) else s
  }

  /** Python's `s.rstrip()`. */
  function RStrip(s: string): (r: string)
    ensures |r| <= |s| && r == s[..|r|]
    ensures AllSpace(s[|r|..])
    ensures |r| > 0 ==> !IsSpace(r[|r| - 1])
    decreases |s|
  {
    if |s| > 0 && IsSpace(s[|s| - 1]) then RStrip(s[..|s| - 1]) else s
  }

  /** Python's `s.strip()`. */
  function Strip(s: string): string {
    RStrip(LStrip(s))
  }

  /** Python's `s.rstrip(c)` for a one-character argument. */
  function RStripChar(s: string, c: char): (r: string)
    ensures |r| <= |s| && r == s[..|r|]
    ensures forall i :: |r| <= i < |s| ==> s[i] == c
    ensures |r| > 0 ==> r[|r| - 1] != c
    decreases |s|
  {
    if |s| > 0 && s[|s| - 1] == c then RStripChar(s[..|s| - 1], c) else s
  }

  lemma {:induction false} RStripAfterNonSpace(p: string, t: string)
    requires |p| > 0 && !IsSpace(p[|p| - 1])
    ensures RStrip(p + t) == p + RStrip(t)
    decreases |t|
  {
    if |t| > 0 && IsSpace(t[|t| - 1]) {
      assert (p + t)[..|p + t| - 1] == p + t[..|t| - 1];
      RStripAfterNonSpace(p, t[..|t| - 1]);
    }
  }

  /** A declaration list that opens with a non-space and closes with `;`
      is a well-formed base for `JoinStyle`. */
  lemma DeclNonSpaceEnds(prefix: string, value: string)
    requires |prefix| > 0 && !IsSpace(prefix[0])
    ensures NonSpaceEnds(prefix + value + ";")
  {
    var s := prefix + value + ";";
    assert s[0] == prefix[0];
  }

  /** The inline-style idiom `f"{base} {user}".strip()` used by most
      components: a well-formed base is kept verbatim at the front, an empty
      (or blank) caller style adds nothing, and any other caller style
      follows after one space. */
  function JoinStyle(base: string, user: string): (r: string)
    ensures NonSpaceEnds(base) ==> StartsWith(r, base)
    ensures NonSpaceEnds(base) && AllSpace(user) ==> r == base
    ensures NonSpaceEnds(base) && |user| > 0 && !IsSpace(user[|user| - 1]) ==> r == base + " " + user
  {
    var s := base + " " + user;
    if NonSpaceEnds(base) then
      assert LStrip(s) == s;
      assert s == base + (" " + user);
      RStripAfterNonSpace(base, " " + user);
      if AllSpace(user) then
        assert AllSpace(" " + user);
        RStripOfBlank(" " + user);
        Strip(s)
      else
        Strip(s)
    else
      Strip(s)
  }

  lemma {:induction false} RStripOfBlank(s: string)
    requires AllSpace(s)
    ensures RStrip(s) == ""
    decreases |s|
  {
    if |s| > 0 {
      RStripOfBlank(s[..|s| - 1]);
    }
  }

  /** Python's `sep.join(parts)`. */
  function Join(sep: string, parts: seq<string>): string
    decreases |parts|
  {
    if |parts| == 0 then ""
    else if |parts| == 1 then parts[0]
    else parts[0] + sep + Join(sep, parts[1..])
  }

  /** Python's `s.split(c)` for a one-character separator: the pieces of `s`
      between separators, always at least one. */
  function Split(s: string, c: char): (r: seq<string>)
    ensures |r| >= 1
    ensures forall i :: 0 <= i < |r| ==> c !in r[i]
    decreases |s|
  {
    if |s| == 0 then [""]
    else
      var rest := Split(s[1..], c);
      if s[0] == c then [""] + rest
      else [[s[0]] + rest[0]] + rest[1..]
  }

  lemma {:induction false} SplitAfterPiece(a: string, c: char, b: string)
    requires c !in a
    ensures Split(a + [c] + b, c) == [a] + Split(b, c)
    decreases |a|
  {
    if |a| == 0 {
      assert a + [c] + b == [c] + b;
      assert ([c] + b)[1..] == b;
    } else {
      assert (a + [c] + b)[1..] == a[1..] + [c] + b;
      SplitAfterPiece(a[1..], c, b);
      assert [a[0]] + a[1..] == a;
    }
  }

  lemma {:induction false} SplitOfPiece(a: string, c: char)
    requires c !in a
    ensures Split(a, c) == [a]
    decreases |a|
  {
    if |a| > 0 {
      SplitOfPiece(a[1..], c);
      assert [a[0]] + a[1..] == a;
    }
  }

  /** Splitting a join on the same one-character separator gives the parts
      back, provided no part contains the separator; Python joins the empty
      list to `""`, which splits to `[""]`. */
  lemma {:induction false} SplitJoin(parts: seq<string>, c: char)
    requires forall i :: 0 <= i < |parts| ==> c !in parts[i]
    ensures Split(Join([c], parts), c) == (if parts == [] then [""] else parts)
    decreases |parts|
  {
    if |parts| == 1 {
      SplitOfPiece(parts[0], c);
    } else if |parts| > 1 {
      SplitJoin(parts[1..], c);
      SplitAfterPiece(parts[0], c, Join([c], parts[1..]));
      assert [parts[0]] + parts[1..] == parts;
    }
  }

  /** Joining the pieces of a split on the same separator rebuilds the string. */
  lemma {:induction false} JoinSplit(s: string, c: char)
    ensures Join([c], Split(s, c)) == s
    decreases |s|
  {
    if |s| > 0 {
      var rest := Split(s[1..], c);
      JoinSplit(s[1..], c);
      if s[0] == c {
        assert [""] + rest == [""] + rest;
        assert ([""] + rest)[1..] == rest;
      } else {
        var r := [[s[0]] + rest[0]] + rest[1..];
        assert r[1..] == rest[1..];
        if |rest| == 1 {
          assert Join([c], rest) == rest[0];
        } else {
          assert Join([c], rest) == rest[0] + [c] + Join([c], rest[1..]);
        }
      }
    }
  }

  function DigitChar(d: nat): char
    requires d < 10
  {
    "0123456789"[d]
  }

  /** Python's `str(n)` for a non-negative integer. */
  function NatToString(n: nat): (r: string)
    ensures |r| >= 1
    ensures forall i :: 0 <= i < |r| ==> '0' <= r[i] <= '9'
    ensures |r| > 1 ==> r[0] != '0'
    decreases n
  {
    if n < 10 then [DigitChar(n)] else NatToString(n / 10) + [DigitChar(n % 10)]
  }

  /** Python's `str(i)`. */
  function IntToString(i: int): string {
    if i < 0 then "-" + NatToString(-i) else NatToString(i)
  }
}
