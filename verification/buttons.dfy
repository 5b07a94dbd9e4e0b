/** The button components. All three read the community defaults table;
    each renders a plain HTML `button` element. */
module Buttons {
  import opened Wrappers
  import opened Values
  import opened Markup
  import Strings
  import CommunityDefaults

  // ---------------------------------------------------- FloatingActionButton

  /** The four named corners a floating action button can sit in. */
  function NamedPositions(): seq<string> {
    ["bottom-right", "bottom-left", "top-right", "top-left"]
  }

  /** The offsets of the named corners other than the default one. */
  function CornerOffsets(): map<string, string> {
    map["bottom-left" := "bottom: 2rem; left: 2rem;",
        "top-right" := "top: 2rem; right: 2rem;",
        "top-left" := "top: 2rem; left: 2rem;"]
  }

  /** The bottom-right offsets, used for every unnamed position too. */
  const DefaultOffsets := "bottom: 2rem; right: 2rem;"

  /** The placement of a position value: a named corner's offsets, and the
      bottom-right offsets for anything else. */
  function PositionStyle(pos: Value): (r: string)
    ensures pos.VStr? && pos.s in CornerOffsets() ==> r == CornerOffsets()[pos.s]
    ensures !(pos.VStr? && pos.s in CornerOffsets()) ==> r == DefaultOffsets
    ensures r == DefaultOffsets || r in CornerOffsets().Values
  {
    if pos.VStr? && pos.s in CornerOffsets() then CornerOffsets()[pos.s] else DefaultOffsets
  }

  /** Every named corner has its own placement, distinct from the others,
      and only `bottom-right` shares the fallback's. */
  lemma PositionStyleNamedCorners()
    ensures forall i :: 0 <= i < |NamedPositions()| ==> (PositionStyle(VStr(NamedPositions()[i])) == DefaultOffsets <==> i == 0)
    ensures forall i, j :: 0 <= i < j < |NamedPositions()| ==>
      PositionStyle(VStr(NamedPositions()[i])) != PositionStyle(VStr(NamedPositions()[j]))
  {
    var lengths := [26, 25, 23, 22];
    forall i | 0 <= i < 4 ensures |PositionStyle(VStr(NamedPositions()[i]))| == lengths[i] {
    }
  }

  /** The component part of the button's inline style. */
  function FabBaseStyle(pos: Value): (r: string)
    ensures Strings.NonSpaceEnds(r)
  {
    Strings.DeclNonSpaceEnds("position: fixed; " + PositionStyle(pos), FabSize);
    "position: fixed; " + PositionStyle(pos) + FabSize + ";"
  }

  /** The fixed size, shadow and stacking of the button. */
  const FabSize := " width: 56px; height: 56px; box-shadow: 0 4px 8px rgba(0,0,0,0.3); z-index: 1000"

  /** `FloatingActionButton`: the icon in a fixed round button. The variant
      and the position follow the three-tier precedence over the
      `FloatingActionButton` entry (fallbacks `primary`, `bottom-right`);
      since `position` itself defaults to `Some("bottom-right")`, the
      table's position is consulted only when a falsy one is passed. */
  function FloatingActionButton(st: CommunityDefaults.State, icon: string, variant: Option<string> := None,
                                position: Option<string> := Some("bottom-right"), userCls: string := "",
                                userStyle: string := ""): (r: Node)
    ensures var table := CommunityDefaults.Get(st, "FloatingActionButton");
      var v := Resolve(variant, table, "variant", VStr("primary"));
      && r.Elem? && r.tag == "button"
      && r.classes == ["fs-comm-fab", "btn btn-" + Show(v), "rounded-circle"] + Cls(userCls)
      && r.children == [TextEl("span", "fs-4", icon)]
    ensures var pos := Resolve(position, CommunityDefaults.Get(st, "FloatingActionButton"), "position", VStr("bottom-right"));
      && r.Elem?
      && Strings.StartsWith(r.style, FabBaseStyle(pos))
      && (Strings.AllSpace(userStyle) ==> r.style == FabBaseStyle(pos))
      && (|userStyle| > 0 && !Strings.IsSpace(userStyle[|userStyle| - 1]) ==> r.style == FabBaseStyle(pos) + " " + userStyle)
  {
    var table := CommunityDefaults.Get(st, "FloatingActionButton");
    var v := Resolve(variant, table, "variant", VStr("primary"));
    var pos := Resolve(position, table, "position", VStr("bottom-right"));
    Elem("button", ClassesWith(["fs-comm-fab", "btn btn-" + Show(v), "rounded-circle"], userCls),
         Strings.JoinStyle(FabBaseStyle(pos), userStyle), map[], [TextEl("span", "fs-4", icon)])
  }

  /** With the default `position`, the table's position is never used:
      the placement is bottom-right whatever the table holds. */
  lemma FabDefaultPositionIgnoresTable(st: CommunityDefaults.State, icon: string, variant: Option<string>, userCls: string)
    ensures FloatingActionButton(st, icon, variant, Some("bottom-right"), userCls, "").style
         == FabBaseStyle(VStr("bottom-right"))
  {
    assert Strings.AllSpace("");
    assert Resolve(Some("bottom-right"), CommunityDefaults.Get(st, "FloatingActionButton"), "position", VStr("bottom-right")) == VStr("bottom-right");
  }

  /** A falsy `position` lets a position stored in the table take effect. */
  lemma FabFalsyPositionReadsTable(st: CommunityDefaults.State, icon: string, userCls: string)
    ensures var st' := CommunityDefaults.Set(st, "FloatingActionButton", map["position" := VStr("top-left")]);
      FloatingActionButton(st', icon, None, Some(""), userCls, "").style == FabBaseStyle(VStr("top-left"))
  {
    CommunityDefaults.SetReadsBack(st, "FloatingActionButton", "position", VStr("top-left"));
    assert Strings.AllSpace("");
  }

  // ---------------------------------------------------------- GradientButton

  /** The five preset gradients by name. */
  /** A linear gradient with the given angle and colour stops. */
  function Linear(stops: string): (r: string)
    ensures Strings.StartsWith(r, "linear-gradient(") && |r| > |"linear-gradient("|
  {
    var r := "linear-gradient(" + stops + ")";
    assert r[..|"linear-gradient("|] == "linear-gradient(";
    r
  }

  function Presets(): map<string, string> {
    map["purple" := Linear("135deg, #667eea 0%, #764ba2 100%"),
        "blue" := Linear("135deg, #4facfe 0%, #00f2fe 100%"),
        "green" := Linear("135deg, #43e97b 0%, #38f9d7 100%"),
        "orange" := Linear("135deg, #fa709a 0%, #fee140 100%"),
        "pink" := Linear("135deg, #f093fb 0%, #f5576c 100%")]
  }

  /** The background of a gradient value: a preset name's gradient, and
      the value itself (as text) for anything else, so a CSS gradient
      passes through unchanged. */
  function GradientStyle(grad: Value): (r: string)
    ensures grad.VStr? && grad.s in Presets() ==> r == Presets()[grad.s]
    ensures !(grad.VStr? && grad.s in Presets()) ==> r == Show(grad)
  {
    if grad.VStr? && grad.s in Presets() then Presets()[grad.s] else Show(grad)
  }

  /** Every preset is a linear gradient, so no preset name is its own
      gradient. */
  lemma PresetsAreGradients()
    ensures forall name :: name in Presets() ==> Strings.StartsWith(Presets()[name], "linear-gradient(")
    ensures forall name :: name in Presets() ==> Presets()[name] != name
  {
    forall name | name in Presets()
      ensures Presets()[name] != name
    {
      assert |name| <= 6;
    }
  }

  /** A string is used verbatim as the background exactly when it names no
      preset. */
  lemma GradientCustomPassesThrough(css: string)
    ensures GradientStyle(VStr(css)) == css <==> css !in Presets()
  {
    PresetsAreGradients();
  }

  /** A gradient set in the table reaches every later button that passes
      none, preset names and custom CSS alike. */
  lemma GradientButtonFollowsTable(st: CommunityDefaults.State, grad: string, text: string, size: Option<string>, userCls: string)
    requires grad != ""
    ensures var st' := CommunityDefaults.Set(st, "GradientButton", map["gradient" := VStr(grad)]);
      Strings.StartsWith(GradientButton(st', text, None, size, userCls, "").style, "background: " + GradientStyle(VStr(grad)))
  {
    CommunityDefaults.SetReadsBack(st, "GradientButton", "gradient", VStr(grad));
  }

  /** The size fragment: `btn-{size}` when a size is given. */
  function SizeClass(size: Option<string>): (c: string)
    ensures c == "" <==> !IsSet(size)
    ensures IsSet(size) ==> c == "btn-" + size.value
  {
    if IsSet(size) then "btn-" + size.value else ""
  }

  /** The component part of the button's inline style: the background,
      then no border and white text. */
  function GradientBaseStyle(g: Value): (r: string)
    ensures Strings.NonSpaceEnds(r)
    ensures Strings.StartsWith(r, "background: " + GradientStyle(g))
  {
    Strings.DeclNonSpaceEnds("background: " + GradientStyle(g), "; border: none; color: white");
    "background: " + GradientStyle(g) + "; border: none; color: white" + ";"
  }

  /** `GradientButton`: the text as the only child of a borderless white
      button whose background is the gradient (three-tier over the
      `GradientButton` entry, fallback `purple`); the size class is present
      exactly when a size is given. */
  function GradientButton(st: CommunityDefaults.State, text: string, gradient: Option<string> := None, size: Option<string> := None,
                          userCls: string := "", userStyle: string := ""): (r: Node)
    ensures r.Elem? && r.tag == "button" && r.children == [Text(text)]
    ensures r.classes == ["fs-comm-gradient-button", "btn"] + Cls(SizeClass(size)) + Cls(userCls)
    ensures var base := GradientBaseStyle(Resolve(gradient, CommunityDefaults.Get(st, "GradientButton"), "gradient", VStr("purple")));
      && Strings.StartsWith(r.style, base)
      && (Strings.AllSpace(userStyle) ==> r.style == base)
      && (|userStyle| > 0 && !Strings.IsSpace(userStyle[|userStyle| - 1]) ==> r.style == base + " " + userStyle)
  {
    var base := GradientBaseStyle(Resolve(gradient, CommunityDefaults.Get(st, "GradientButton"), "gradient", VStr("purple")));
    Elem("button", ClassesWith2(["fs-comm-gradient-button", "btn"], SizeClass(size), userCls), Strings.JoinStyle(base, userStyle), map[], [Text(text)])
  }

  // -------------------------------------------------------------- IconButton

  /** `IconButton`: the icon before the text when the position is `left`,
      after it otherwise, and alone when there is no text; the icon's margin
      faces the text. The variant follows the three-tier precedence over
      the `IconButton` entry (fallback `primary`). */
  function IconButton(st: CommunityDefaults.State, icon: string, text: Option<string> := None, variant: Option<string> := None,
                      size: Option<string> := None, iconPosition: string := "left", userCls: string := ""): (r: Node)
    ensures var v := Resolve(variant, CommunityDefaults.Get(st, "IconButton"), "variant", VStr("primary"));
      && r.Elem? && r.tag == "button"
      && r.classes == ["fs-comm-icon-button", "btn btn-" + Show(v)] + Cls(SizeClass(size)) + Cls(userCls)
    ensures r.Elem?
    ensures IsSet(text) && iconPosition == "left" ==> r.children == [TextEl("span", "me-2", icon), Text(text.value)]
    ensures IsSet(text) && iconPosition != "left" ==> r.children == [Text(text.value), TextEl("span", "ms-2", icon)]
    ensures !IsSet(text) ==> r.children == [Elem("span", [], "", map[], [Text(icon)])]
  {
    var v := Resolve(variant, CommunityDefaults.Get(st, "IconButton"), "variant", VStr("primary"));
    var margin := if IsSet(text) && iconPosition == "left" then "me-2" else if IsSet(text) then "ms-2" else "";
    var iconEl := TextEl("span", margin, icon);
    var content :=
      if IsSet(text) then (if iconPosition == "left" then [iconEl, Text(text.value)] else [Text(text.value), iconEl])
      else [iconEl];
    Elem("button", ClassesWith2(["fs-comm-icon-button", "btn btn-" + Show(v)], SizeClass(size), userCls), "", map[], content)
  }

  /** Without a position the icon comes before the text. */
  lemma IconButtonIconFirstByDefault(st: CommunityDefaults.State, icon: string, text: string)
    requires text != ""
    ensures IconButton(st, icon, Some(text)).children == [TextEl("span", "me-2", icon), Text(text)]
  {
  }

  /** The icon and the text swap places with the position, and nothing
      else changes. */
  lemma IconButtonPositionSwaps(st: CommunityDefaults.State, icon: string, text: string, variant: Option<string>,
                                size: Option<string>, other: string, userCls: string)
    requires text != "" && other != "left"
    ensures var left := IconButton(st, icon, Some(text), variant, size, "left", userCls);
      var right := IconButton(st, icon, Some(text), variant, size, other, userCls);
      && left.classes == right.classes
      && left.children[0].children == right.children[1].children
      && left.children[1] == right.children[0]
  {
  }
}
