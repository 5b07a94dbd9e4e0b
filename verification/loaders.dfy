/** The loading indicators. `SkeletonLoader`, `PulseLoader` and
    `WaveLoader` read the community defaults table; `DotsLoader` and
    `RingLoader` read a configuration resolved by the core library. */
module Loaders {
  import opened Wrappers
  import opened Values
  import opened Markup
  import Strings
  import CommunityDefaults
  import Dicts

  /** The one failure a loader can raise: `range()` of a line count that is
      not an integer. */
  datatype LoaderError = TypeError

  // ---------------------------------------------------------- SkeletonLoader

  /** The integer `range(num_lines)` iterates over, where `num_lines` is the
      explicit count when it is non-zero, else the table's `lines` entry,
      else 3. A boolean counts as 0 or 1; any other value has no count. */
  function LineCount(st: CommunityDefaults.State, lines: Option<int>): (n: Option<int>)
    ensures lines.Some? && lines.value != 0 ==> n == Some(lines.value)
    ensures (lines.None? || lines.value == 0) && "lines" !in CommunityDefaults.Get(st, "SkeletonLoader") ==> n == Some(3)
    ensures (lines.None? || lines.value == 0) && "lines" in CommunityDefaults.Get(st, "SkeletonLoader") ==>
      match CommunityDefaults.Get(st, "SkeletonLoader")["lines"]
      case VInt(k) => n == Some(k)
      case VBool(b) => n == Some(if b then 1 else 0)
      case _ => n.None?
  {
    var num := if lines.Some? && lines.value != 0 then VInt(lines.value)
               else GetOr(CommunityDefaults.Get(st, "SkeletonLoader"), "lines", VInt(3));
    match num
    case VInt(k) => Some(k)
    case VBool(b) => Some(if b then 1 else 0)
    case _ => None
  }

  /** The avatar placeholder. */
  function SkeletonAvatar(): Node {
    El("div", "skeleton-avatar rounded-circle mb-3", [])
  }

  /** One placeholder text line of the given width. */
  function SkeletonLine(width: string): Node {
    Elem("div", ["skeleton-line mb-2"], "width: " + width + ";", map[], [])
  }

  /** `range(n)` of text lines: every line but the last is full width, the
      last is 60%. A non-positive count gives no lines. */
  function SkeletonLines(n: int): (r: seq<Node>)
    ensures |r| == if n > 0 then n else 0
    ensures forall i :: 0 <= i < |r| - 1 ==> r[i] == SkeletonLine("100%")
    ensures |r| > 0 ==> r[|r| - 1] == SkeletonLine("60%")
  {
    var count := if n > 0 then n else 0;
    seq(count, i requires 0 <= i < count => SkeletonLine(if i < n - 1 then "100%" else "60%"))
  }

  /** `SkeletonLoader`: the avatar placeholder first when asked for, then
      the text lines; the width follows the three-tier precedence over the
      `SkeletonLoader` entry (fallback 100%). Fails when the line count is
      not an integer, and when the caller passes a `style`, which collides
      with the loader's own `style` keyword. */
  function SkeletonLoader(st: CommunityDefaults.State, lines: Option<int> := None, avatar: bool := false, width: Option<string> := None,
                          userCls: string := "", userStyle: Option<string> := None): (r: Result<Node, LoaderError>)
    ensures userStyle.None? ==> (r.Failure? <==> LineCount(st, lines).None?)
    ensures userStyle.Some? ==> r == Failure(TypeError)
    ensures r.Success? ==>
      && r.value.Elem? && r.value.tag == "div"
      && r.value.classes == ["fs-comm-skeleton-loader"] + Cls(userCls)
      && r.value.style == "width: " + Show(Resolve(width, CommunityDefaults.Get(st, "SkeletonLoader"), "width", VStr("100%"))) + ";"
      && r.value.children == Opt(avatar, SkeletonAvatar()) + SkeletonLines(LineCount(st, lines).value)
  {
    if LineCount(st, lines).None? || userStyle.Some? then Failure(TypeError) else
    var n := LineCount(st, lines).value;
    var w := Resolve(width, CommunityDefaults.Get(st, "SkeletonLoader"), "width", VStr("100%"));
    Success(Elem("div", ClassesWith(["fs-comm-skeleton-loader"], userCls), "width: " + Show(w) + ";", map[],
                 Opt(avatar, SkeletonAvatar()) + SkeletonLines(n)))
  }

  /** An explicit count of zero is falsy and falls through to the table,
      exactly as if no count were given. */
  lemma SkeletonZeroFallsThrough(st: CommunityDefaults.State, avatar: bool, width: Option<string>, userCls: string)
    ensures SkeletonLoader(st, Some(0), avatar, width, userCls) == SkeletonLoader(st, None, avatar, width, userCls)
  {
  }

  /** With a positive count `n` the loader holds exactly `n` line
      placeholders after the optional avatar, the last one at 60%. */
  lemma {:induction false} SkeletonLineCount(st: CommunityDefaults.State, n: int, avatar: bool, width: Option<string>, userCls: string)
    requires n > 0
    ensures var r := SkeletonLoader(st, Some(n), avatar, width, userCls);
      && r.Success?
      && |r.value.children| == n + (if avatar then 1 else 0)
      && (avatar ==> r.value.children[0] == SkeletonAvatar())
      && r.value.children[|r.value.children| - 1] == SkeletonLine("60%")
  {
    var lines := SkeletonLines(n);
    var kids := Opt(avatar, SkeletonAvatar()) + lines;
    assert kids[|kids| - 1] == lines[|lines| - 1];
  }

  /** A line count stored with `set_community_defaults("SkeletonLoader",
      ...)` is used when the caller gives none. */
  lemma SkeletonFollowsTable(st: CommunityDefaults.State, n: int, avatar: bool, width: Option<string>, userCls: string)
    ensures var st' := CommunityDefaults.Set(st, "SkeletonLoader", map["lines" := VInt(n)]);
      var r := SkeletonLoader(st', None, avatar, width, userCls);
      r.Success? && |r.value.children| == (if n > 0 then n else 0) + (if avatar then 1 else 0)
  {
    CommunityDefaults.SetReadsBack(st, "SkeletonLoader", "lines", VInt(n));
  }

  // -------------------------------------------------------------- DotsLoader

  /** The inline colour of a loader part for a non-primary variant. */
  function VariantColor(v: Value): string {
    "background-color: var(--bs-" + Show(v) + ");"
  }

  /** `DotsLoader`: three dots, which carry an inline colour exactly when
      the variant (configuration value, else `primary`) is not `primary`. */
  function DotsLoader(cfg: OptionMap, userCls: string := ""): (r: Node)
    ensures r.Elem? && r.tag == "div" && r.classes == ["fs-comm-dots-loader"] + Cls(userCls)
    ensures |r.children| == 3
    ensures forall i :: 0 <= i < 3 ==> r.children[i].Elem? && r.children[i].children == [] && r.children[i].classes == []
    ensures var v := ResolveCfg(cfg, "variant", "primary");
      forall i :: 0 <= i < 3 ==>
        (r.children[i].style != "" <==> v != VStr("primary"))
        && (v != VStr("primary") ==> r.children[i].style == VariantColor(v))
  {
    var v := ResolveCfg(cfg, "variant", "primary");
    var dot := if v != VStr("primary") then Elem("div", [], VariantColor(v), map[], []) else El("div", "", []);
    Elem("div", ClassesWith(["fs-comm-dots-loader"], userCls), "", map[], [dot, dot, dot])
  }

  /** A configured `primary` and a falsy (empty) variant both give the
      plain dots of an unconfigured loader. */
  lemma DotsLoaderPrimaryIsPlain(userCls: string)
    ensures DotsLoader(map["variant" := VStr("primary")], userCls) == DotsLoader(map[], userCls)
    ensures DotsLoader(map["variant" := VStr("")], userCls) == DotsLoader(map[], userCls)
  {
  }

  // -------------------------------------------------------------- RingLoader

  /** The size part of the ring's inline style. */
  function RingSizeStyle(cfg: OptionMap): (r: string)
    ensures Strings.NonSpaceEnds(r)
  {
    var s := Show(ResolveCfg(cfg, "size", "64px"));
    Strings.DeclNonSpaceEnds("width: " + s + "; height: ", s);
    "width: " + s + "; height: " + s + ";"
  }

  /** One ring segment: it overrides the border colour exactly when the
      variant is not `primary`. */
  function RingSegment(v: Value): (seg: Node)
    ensures seg.Elem? && seg.children == []
    ensures seg.style != "" <==> v != VStr("primary")
    ensures v != VStr("primary") ==> seg.style == "border-color: var(--bs-" + Show(v) + ") transparent transparent transparent;"
  {
    if v != VStr("primary") then Elem("div", [], "border-color: var(--bs-" + Show(v) + ") transparent transparent transparent;", map[], [])
    else El("div", "", [])
  }

  /** `RingLoader`: four segments coloured with the variant (configuration
      value, else `primary`); the size (configuration value, else 64px)
      sets width and height, followed by the caller's style. */
  function RingLoader(cfg: OptionMap, userCls: string := "", userStyle: string := ""): (r: Node)
    ensures r.Elem? && r.tag == "div" && r.classes == ["fs-comm-ring-loader"] + Cls(userCls)
    ensures Strings.StartsWith(r.style, RingSizeStyle(cfg))
    ensures Strings.AllSpace(userStyle) ==> r.style == RingSizeStyle(cfg)
    ensures |userStyle| > 0 && !Strings.IsSpace(userStyle[|userStyle| - 1]) ==> r.style == RingSizeStyle(cfg) + " " + userStyle
    ensures var seg := RingSegment(ResolveCfg(cfg, "variant", "primary"));
      r.children == [seg, seg, seg, seg]
  {
    var seg := RingSegment(ResolveCfg(cfg, "variant", "primary"));
    Elem("div", ClassesWith(["fs-comm-ring-loader"], userCls), Strings.JoinStyle(RingSizeStyle(cfg), userStyle), map[],
         [seg, seg, seg, seg])
  }

  /** Without a configured size or variant and with no caller style, the
      ring is 64px square and its segments keep the stylesheet's colour. */
  lemma RingLoaderDefaults(cfg: OptionMap, userCls: string)
    requires "size" !in cfg && "variant" !in cfg
    ensures var r := RingLoader(cfg, userCls, "");
      && r.style == "width: " + "64px" + "; height: " + "64px" + ";"
      && r.children == [El("div", "", []), El("div", "", []), El("div", "", []), El("div", "", [])]
  {
    assert Strings.AllSpace("");
    assert ResolveCfg(cfg, "size", "64px") == VStr("64px");
    assert ResolveCfg(cfg, "variant", "primary") == VStr("primary");
  }

  // ------------------------------------------------------------- PulseLoader

  /** `PulseLoader`: one circle coloured with the variant, in a container
      sized with the size class; both follow the three-tier precedence over
      the `PulseLoader` entry (fallbacks `primary` and `md`), and the
      caller's class goes after the component's. */
  function PulseLoader(st: CommunityDefaults.State, variant: Option<string> := None, size: Option<string> := None, userCls: string := ""): (r: Node)
    ensures var table := CommunityDefaults.Get(st, "PulseLoader");
      var s := Resolve(size, table, "size", VStr("md"));
      r.Elem? && r.classes == ["fs-comm-pulse-loader", "pulse-" + Show(s)] + Cls(userCls)
    ensures var v := Resolve(variant, CommunityDefaults.Get(st, "PulseLoader"), "variant", VStr("primary"));
      r.Elem? && r.children == [Elem("div", ["pulse-circle bg-" + Show(v)], VariantColor(v), map[], [])]
  {
    var table := CommunityDefaults.Get(st, "PulseLoader");
    var v := Resolve(variant, table, "variant", VStr("primary"));
    var s := Resolve(size, table, "size", VStr("md"));
    Elem("div", ClassesWith(["fs-comm-pulse-loader", "pulse-" + Show(s)], userCls), "", map[],
         [Elem("div", ["pulse-circle bg-" + Show(v)], VariantColor(v), map[], [])])
  }

  /** A table without a `PulseLoader` entry (as at import time) gives a
      medium primary pulse. */
  lemma PulseLoaderFallbacks(st: CommunityDefaults.State, userCls: string)
    requires Dicts.Valid(st.live) && "PulseLoader" !in CommunityDefaults.List(st)
    ensures PulseLoader(st, None, None, userCls).classes[1] == "pulse-md"
    ensures PulseLoader(st, None, None, userCls).children[0].classes == ["pulse-circle bg-primary"]
  {
    assert CommunityDefaults.Get(st, "PulseLoader") == map[];
    assert "pulse-" + "md" == "pulse-md";
    assert "pulse-circle bg-" + "primary" == "pulse-circle bg-primary";
  }

  // -------------------------------------------------------------- WaveLoader

  /** Python's `str(i * 0.1)` for the five bar indices. */
  function WaveDelays(): seq<string> {
    ["0.0", "0.1", "0.2", "0.30000000000000004", "0.4"]
  }

  /** One bar of the wave: the colour, then its animation delay. */
  function WaveBar(color: string, delay: string): (bar: Node)
    ensures bar.Elem? && bar.classes == ["wave-bar"] && bar.children == []
    ensures Strings.StartsWith(bar.style, color)
    ensures Strings.EndsWith(bar.style, " animation-delay: " + delay + "s;")
  {
    var tail := " animation-delay: " + delay + "s;";
    assert (color + tail)[..|color|] == color;
    assert (color + tail)[|color|..] == tail;
    Elem("div", ["wave-bar"], color + tail, map[], [])
  }

  /** `WaveLoader`: five bars, each coloured with the variant (three-tier
      over the `WaveLoader` entry, fallback `primary`) and delayed by a
      tenth of a second more than the one before. */
  function WaveLoader(st: CommunityDefaults.State, variant: Option<string> := None, userCls: string := ""): (r: Node)
    ensures r.Elem? && r.classes == ["fs-comm-wave-loader"] + Cls(userCls)
    ensures |r.children| == 5
    ensures var v := Resolve(variant, CommunityDefaults.Get(st, "WaveLoader"), "variant", VStr("primary"));
      forall i :: 0 <= i < 5 ==> r.children[i] == WaveBar(VariantColor(v), WaveDelays()[i])
  {
    var v := Resolve(variant, CommunityDefaults.Get(st, "WaveLoader"), "variant", VStr("primary"));
    Elem("div", ClassesWith(["fs-comm-wave-loader"], userCls), "", map[],
         seq(5, i requires 0 <= i < 5 => WaveBar(VariantColor(v), WaveDelays()[i])))
  }

  /** A variant stored with `set_community_defaults("WaveLoader", ...)`
      colours every bar of a later loader that passes none. */
  lemma WaveLoaderFollowsTable(st: CommunityDefaults.State, v: string, userCls: string)
    ensures var st' := CommunityDefaults.Set(st, "WaveLoader", map["variant" := VStr(v)]);
      forall i :: 0 <= i < 5 ==>
        Strings.StartsWith(WaveLoader(st', None, userCls).children[i].style, "background-color: var(--bs-" + v + ");")
  {
    CommunityDefaults.SetReadsBack(st, "WaveLoader", "variant", VStr(v));
  }
}
