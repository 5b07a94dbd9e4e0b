/** The abstract markup tree the components build. An element keeps its
    class attribute as the list of fragments whose space-join is the
    attribute, and its inline style as one string. `None` children are
    dropped by the markup library, so optional children are either present
    or absent in `children`. */
module Markup {

  datatype Node =
    | Elem(tag: string, classes: seq<string>, style: string, attrs: map<string, string>, children: seq<Node>)
    | Text(text: string)     // a string child, escaped on output
    | Raw(html: string)      // a `NotStr` child, inserted verbatim
    | Script                 // an inline client-side script (its code is not modelled)

  /** `merge_classes` of the core library, taken as: keep the non-empty
      fragments, in order. */
  function MergeClasses(parts: seq<string>): (r: seq<string>)
    ensures |r| <= |parts|
    decreases |parts|
  {
    if parts == [] then []
    else if parts[0] == "" then MergeClasses(parts[1..])
    else [parts[0]] + MergeClasses(parts[1..])
  }

  /** The merged fragments are exactly the non-empty given ones. */
  lemma {:induction false} MergeClassesMembers(parts: seq<string>)
    ensures forall c :: c in MergeClasses(parts) <==> c in parts && c != ""
    decreases |parts|
  {
    if parts != [] {
      MergeClassesMembers(parts[1..]);
      assert parts == [parts[0]] + parts[1..];
      assert forall c :: c in parts <==> c == parts[0] || c in parts[1..];
    }
  }

  /** The fragments of a literal `cls=` argument (none when it is empty). */
  function Cls(c: string): seq<string> {
    if c == "" then [] else [c]
  }

  /** Non-empty leading fragments are kept as they are, in front of
      whatever the rest merges to. */
  lemma {:induction false} MergeClassesKeepsLeading(base: seq<string>, rest: seq<string>)
    requires forall i :: 0 <= i < |base| ==> base[i] != ""
    ensures MergeClasses(base + rest) == base + MergeClasses(rest)
    decreases |base|
  {
    if base != [] {
      assert (base + rest)[0] == base[0] && (base + rest)[1..] == base[1..] + rest;
      assert MergeClasses(base + rest) == [base[0]] + MergeClasses(base[1..] + rest);
      MergeClassesKeepsLeading(base[1..], rest);
      assert [base[0]] + (base[1..] + MergeClasses(rest)) == base + MergeClasses(rest);
    } else {
      assert base + rest == rest;
    }
  }

  /** The optional user class goes last, after fixed non-empty fragments. */
  lemma {:induction false} MergeClassesUserLast(base: seq<string>, user: string)
    requires forall i :: 0 <= i < |base| ==> base[i] != ""
    ensures MergeClasses(base + [user]) == base + Cls(user)
  {
    MergeClassesKeepsLeading(base, [user]);
  }

  /** Two possibly empty fragments merge to those of them that are not
      empty. */
  lemma {:induction false} MergeClassesPair(a: string, b: string)
    ensures MergeClasses([a, b]) == Cls(a) + Cls(b)
  {
    assert [a, b][1..] == [b];
    assert MergeClasses([b]) == Cls(b) by {
      assert [b][1..] == [];
    }
  }

  /** Two optional fragments after a fixed non-empty prefix each appear
      exactly when they are non-empty. */
  lemma {:induction false} MergeClassesTwoLast(base: seq<string>, a: string, b: string)
    requires forall i :: 0 <= i < |base| ==> base[i] != ""
    ensures MergeClasses(base + [a, b]) == base + Cls(a) + Cls(b)
  {
    MergeClassesKeepsLeading(base, [a, b]);
    MergeClassesPair(a, b);
    assert base + (Cls(a) + Cls(b)) == base + Cls(a) + Cls(b);
  }

  /** `merge_classes(*base, user)` for fixed non-empty fragments: the
      fragments, then the caller's class when it is non-empty. */
  function ClassesWith(base: seq<string>, user: string): (r: seq<string>)
    requires forall i :: 0 <= i < |base| ==> base[i] != ""
    ensures r == base + Cls(user)
  {
    MergeClassesUserLast(base, user);
    MergeClasses(base + [user])
  }

  /** `merge_classes(*base, a, b)` for fixed non-empty fragments and two
      optional ones. */
  function ClassesWith2(base: seq<string>, a: string, b: string): (r: seq<string>)
    requires forall i :: 0 <= i < |base| ==> base[i] != ""
    ensures r == base + Cls(a) + Cls(b)
  {
    MergeClassesTwoLast(base, a, b);
    MergeClasses(base + [a, b])
  }

  /** An element without style or attributes. */
  function El(tag: string, cls: string, children: seq<Node>): Node {
    Elem(tag, Cls(cls), "", map[], children)
  }

  /** An element whose only child is a string. */
  function TextEl(tag: string, cls: string, text: string): Node {
    Elem(tag, Cls(cls), "", map[], [Text(text)])
  }

  /** The child list of an optional child: the child, or nothing. */
  function Opt(present: bool, n: Node): seq<Node> {
    if present then [n] else []
  }
}
