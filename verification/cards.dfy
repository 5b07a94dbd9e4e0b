/** The card components. Those that read the community defaults table take
    the table's state `st`; those that read a configuration resolved by the
    core library take that configuration `cfg`. Caller-supplied `cls` and
    `style` keyword arguments are `userCls` and `userStyle` (empty when
    absent). */
module Cards {
  import opened Wrappers
  import opened Values
  import opened Markup
  import Strings
  import CommunityDefaults

  // ---------------------------------------------------------------- FlipCard

  /** The size part of the flip card's inline style. */
  function FlipSizeStyle(cfg: OptionMap): string {
    "height: " + Show(ResolveCfg(cfg, "height", "300px")) + "; width: " + Show(ResolveCfg(cfg, "width", "100%")) + ";"
  }

  /** The component part of the flip card's inline style: the size, then
      the duration variable only when the duration is not the stylesheet's
      own 0.6s. */
  function FlipBaseStyle(cfg: OptionMap): (r: string)
    ensures Strings.NonSpaceEnds(r)
    ensures Strings.StartsWith(r, FlipSizeStyle(cfg))
    ensures r == FlipSizeStyle(cfg) <==> ResolveCfg(cfg, "duration", "0.6s") == VStr("0.6s")
    ensures ResolveCfg(cfg, "duration", "0.6s") != VStr("0.6s") ==>
      r[|FlipSizeStyle(cfg)|..] == " --fs-comm-flip-duration: " + Show(ResolveCfg(cfg, "duration", "0.6s")) + ";"
  {
    var d := ResolveCfg(cfg, "duration", "0.6s");
    var size := FlipSizeStyle(cfg);
    Strings.DeclNonSpaceEnds("height: " + Show(ResolveCfg(cfg, "height", "300px")) + "; width: ", Show(ResolveCfg(cfg, "width", "100%")));
    if d != VStr("0.6s") then
      var r := size + (" --fs-comm-flip-duration: " + Show(d) + ";");
      assert r[..|size|] == size && r[|size|..] == " --fs-comm-flip-duration: " + Show(d) + ";";
      assert r[0] == size[0];
      r
    else size
  }

  /** `FlipCard`: a container holding an inner wrapper with the front face
      and then the back face. Height, width and duration come from the
      resolved configuration or the fallbacks 300px, 100% and 0.6s; the
      caller's style follows the component's. */
  function FlipCard(cfg: OptionMap, front: Node, back: Node, userCls: string := "", userStyle: string := ""): (r: Node)
    ensures r.Elem? && r.tag == "div"
    ensures r.classes == ["fs-comm-flip-card"] + Cls(userCls)
    ensures Strings.StartsWith(r.style, FlipBaseStyle(cfg))
    ensures Strings.AllSpace(userStyle) ==> r.style == FlipBaseStyle(cfg)
    ensures |userStyle| > 0 && !Strings.IsSpace(userStyle[|userStyle| - 1]) ==> r.style == FlipBaseStyle(cfg) + " " + userStyle
    ensures |r.children| == 1 && r.children[0].Elem? && r.children[0].classes == ["fs-comm-flip-card-inner"]
    ensures r.children[0].children == [El("div", "fs-comm-flip-card-front card", [front]), El("div", "fs-comm-flip-card-back card", [back])]
  {
    var inner := El("div", "fs-comm-flip-card-inner", [El("div", "fs-comm-flip-card-front card", [front]), El("div", "fs-comm-flip-card-back card", [back])]);
    Elem("div", ClassesWith(["fs-comm-flip-card"], userCls), Strings.JoinStyle(FlipBaseStyle(cfg), userStyle), map[], [inner])
  }

  /** With nothing configured and no caller style, the flip card is sized
      300px by 100% and relies on the stylesheet's duration. */
  lemma FlipCardDefaults(front: Node, back: Node)
    ensures FlipCard(map[], front, back, "", "").style == "height: " + "300px" + "; width: " + "100%" + ";"
  {
    assert Strings.AllSpace("");
    assert ResolveCfg(map[], "duration", "0.6s") == VStr("0.6s");
  }

  // ---------------------------------------------------------------- GlowCard

  /** The component part of the glow card's inline style. */
  function GlowStyle(color: Value): (r: string)
    ensures Strings.NonSpaceEnds(r)
  {
    Strings.DeclNonSpaceEnds("--glow-color: ", Show(color));
    "--glow-color: " + Show(color) + ";"
  }

  /** `GlowCard`: the children inside a card whose glow colour and
      intensity follow the three-tier precedence over the `GlowCard` entry
      of the defaults table (fallbacks `var(--bs-primary)` and `medium`). */
  function GlowCard(st: CommunityDefaults.State, children: seq<Node>, glowColor: Option<string> := None, intensity: Option<string> := None,
                    userCls: string := "", userStyle: string := ""): (r: Node)
    ensures r.Elem? && r.tag == "div" && r.children == children
    ensures var level := Resolve(intensity, CommunityDefaults.Get(st, "GlowCard"), "intensity", VStr("medium"));
      r.classes == ["fs-comm-glow-card", "card", "glow-" + Show(level)] + Cls(userCls)
    ensures var color := Resolve(glowColor, CommunityDefaults.Get(st, "GlowCard"), "glow_color", VStr("var(--bs-primary)"));
      && Strings.StartsWith(r.style, GlowStyle(color))
      && (Strings.AllSpace(userStyle) ==> r.style == GlowStyle(color))
      && (|userStyle| > 0 && !Strings.IsSpace(userStyle[|userStyle| - 1]) ==> r.style == GlowStyle(color) + " " + userStyle)
  {
    var table := CommunityDefaults.Get(st, "GlowCard");
    var color := Resolve(glowColor, table, "glow_color", VStr("var(--bs-primary)"));
    var level := Resolve(intensity, table, "intensity", VStr("medium"));
    var base := GlowStyle(color);
    Elem("div", ClassesWith(["fs-comm-glow-card", "card", "glow-" + Show(level)], userCls), Strings.JoinStyle(base, userStyle), map[], children)
  }

  /** An intensity stored with `set_component_defaults("GlowCard", ...)`
      reaches every later glow card that does not pass its own. */
  lemma GlowCardFollowsTable(st: CommunityDefaults.State, level: string, children: seq<Node>, userCls: string)
    ensures var st' := CommunityDefaults.Set(st, "GlowCard", map["intensity" := VStr(level)]);
      GlowCard(st', children, None, None, userCls, "").classes == ["fs-comm-glow-card", "card", "glow-" + level] + Cls(userCls)
  {
    CommunityDefaults.SetReadsBack(st, "GlowCard", "intensity", VStr(level));
  }

  // ------------------------------------------------------------- PricingCard

  /** The badge a highlighted pricing card shows above its title. */
  function RecommendedBadge(): Node {
    El("div", "text-center mb-2", [TextEl("span", "badge bg-primary", "RECOMMENDED")])
  }

  /** One row of the feature list: a check mark, then the feature. */
  function FeatureItem(feature: string): Node {
    El("li", "mb-2", [TextEl("span", "text-success me-2", "✓ "), Text(feature)])
  }

  /** The call-to-action button, built by the core library's `Button`. */
  function CtaButton(text: string, href: string, variant: string): Node {
    Elem("Button", [], "", map["href" := href, "variant" := variant, "full_width" := "True"], [Text(text)])
  }

  /** The feature list: one row per feature, in the given order. */
  function FeatureList(features: seq<string>): (r: Node)
    ensures r.Elem? && r.tag == "ul" && |r.children| == |features|
    ensures forall i :: 0 <= i < |features| ==>
      r.children[i].Elem? && |r.children[i].children| == 2 && r.children[i].children[1] == Text(features[i])
  {
    El("ul", "list-unstyled mb-4", seq(|features|, i requires 0 <= i < |features| => FeatureItem(features[i])))
  }

  /** The button variant of a pricing card: the caller's unless it is
      `None` (so an empty variant is kept), else `primary` for a
      highlighted plan and `outline-primary` otherwise. The button loses
      its variant only when the caller passes an empty one. */
  function CtaVariant(ctaVariant: Option<string>, highlighted: bool): (v: string)
    ensures ctaVariant.Some? ==> v == ctaVariant.value
    ensures ctaVariant.None? && highlighted ==> v == "primary"
    ensures ctaVariant.None? && !highlighted ==> v == "outline-primary"
    ensures v == "" <==> ctaVariant == Some("")
    ensures ctaVariant.None? ==> (v == "primary" <==> highlighted)
  {
    if ctaVariant.None? then (if highlighted then "primary" else "outline-primary") else ctaVariant.value
  }

  /** The head of a pricing card: the badge only on a highlighted card,
      then the title, then the price with its period. */
  function PricingHeader(title: string, price: string, period: string, highlighted: bool): (head: seq<Node>)
    ensures |head| == (if highlighted then 3 else 2)
    ensures head[0] == RecommendedBadge() <==> highlighted
    ensures head[|head| - 2] == TextEl("h3", "card-title text-center mb-3", title)
    ensures head[|head| - 1] == El("div", "text-center mb-4", [TextEl("h2", "display-4 mb-0", price), TextEl("span", "text-muted", "/ " + period)])
  {
    var rows := [TextEl("h3", "card-title text-center mb-3", title),
                 El("div", "text-center mb-4", [TextEl("h2", "display-4 mb-0", price), TextEl("span", "text-muted", "/ " + period)])];
    if highlighted then [RecommendedBadge()] + rows else rows
  }

  /** The body of a pricing card: the head, the feature list only when
      there are features, then the call-to-action button. */
  function PricingBody(title: string, price: string, period: string, features: Option<seq<string>>, ctaText: string,
                       ctaHref: string, ctaVariant: Option<string>, highlighted: bool): (body: seq<Node>)
    ensures var head := PricingHeader(title, price, period, highlighted);
      var fs := features.GetOr([]);
      && |body| == |head| + (if |fs| > 0 then 1 else 0) + 1
      && body[..|head|] == head
      && body[|body| - 1] == CtaButton(ctaText, ctaHref, CtaVariant(ctaVariant, highlighted))
      && (|fs| > 0 ==> body[|body| - 2] == FeatureList(fs))
  {
    var head := PricingHeader(title, price, period, highlighted);
    var fs := features.GetOr([]);
    var body := head + Opt(|fs| > 0, FeatureList(fs)) + [CtaButton(ctaText, ctaHref, CtaVariant(ctaVariant, highlighted))];
    assert body[..|head|] == head;
    body
  }

  /** `PricingCard`: the body inside a card that carries the primary border
      exactly when the plan is highlighted (or the caller asks for it). The
      `PricingCard` table entry is read but never used. */
  function PricingCard(title: string, price: string, period: string := "month", features: Option<seq<string>> := None,
                       ctaText: string := "Get Started", ctaHref: string := "#", ctaVariant: Option<string> := None,
                       highlighted: bool := false, userCls: string := ""): (r: Node)
    ensures r.Elem? && r.tag == "div"
    ensures "border-primary" in r.classes <==> highlighted || userCls == "border-primary"
    ensures r.classes == ["fs-comm-pricing-card", "card", "h-100"] + Cls(if highlighted then "border-primary" else "") + Cls(userCls)
    ensures r.children == [El("div", "card-body d-flex flex-column",
                              PricingBody(title, price, period, features, ctaText, ctaHref, ctaVariant, highlighted))]
  {
    var cls := ClassesWith2(["fs-comm-pricing-card", "card", "h-100"], if highlighted then "border-primary" else "", userCls);
    Elem("div", cls, "", map[],
         [El("div", "card-body d-flex flex-column", PricingBody(title, price, period, features, ctaText, ctaHref, ctaVariant, highlighted))])
  }

  /** An empty feature list is falsy and gives no list at all, as if none
      were passed; an empty variant, by contrast, is not `None` and is kept
      for the button instead of the highlight-dependent one. */
  lemma PricingCardFalsyArguments(title: string, price: string, period: string, ctaText: string, ctaHref: string,
                                  ctaVariant: Option<string>, highlighted: bool, userCls: string)
    ensures PricingCard(title, price, period, Some([]), ctaText, ctaHref, ctaVariant, highlighted, userCls)
         == PricingCard(title, price, period, None, ctaText, ctaHref, ctaVariant, highlighted, userCls)
    ensures var body := PricingCard(title, price, period, None, ctaText, ctaHref, Some(""), highlighted, userCls).children[0].children;
      body[|body| - 1] == CtaButton(ctaText, ctaHref, "")
  {
  }

  /** A pricing card given only a title and a price is a plain monthly
      plan: no badge, no border, the price shown `/ month`, no feature
      list, and a `Get Started` outline button to `#`. */
  lemma PricingCardDefaults(title: string, price: string)
    ensures var r := PricingCard(title, price);
      var body := r.children[0].children;
      && r.classes == ["fs-comm-pricing-card", "card", "h-100"]
      && body == [TextEl("h3", "card-title text-center mb-3", title),
                  El("div", "text-center mb-4", [TextEl("h2", "display-4 mb-0", price), TextEl("span", "text-muted", "/ month")]),
                  CtaButton("Get Started", "#", "outline-primary")]
  {
    var body := PricingCard(title, price).children[0].children;
    var head := PricingHeader(title, price, "month", false);
    assert body[..2] == head && |body| == 3;
    assert body == head + [body[2]];
    assert body[2] == CtaButton("Get Started", "#", CtaVariant(None, false));
    assert CtaVariant(None, false) == "outline-primary";
    assert "/ " + "month" == "/ month";
  }

  // ---------------------------------------------------------------- StatCard

  /** The classes of a rising and of a falling trend badge. */
  const TrendUpClass := "badge bg-success-subtle " + "text-success" + " ms-2"
  const TrendDownClass := "badge bg-danger-subtle " + "text-danger" + " ms-2"

  /** The trend badge: green with an up arrow when the trend is positive,
      red with a down arrow otherwise. Its one text is the arrow, a space
      and the trend itself; the arrow points up exactly when the trend is
      positive. */
  function TrendBadge(trend: string, positive: bool): (r: Node)
    ensures positive ==> r == TextEl("span", TrendUpClass, "↑ " + trend)
    ensures !positive ==> r == TextEl("span", TrendDownClass, "↓ " + trend)
    ensures r.Elem? && r.tag == "span" && |r.classes| == 1 && |r.children| == 1 && r.children[0].Text?
    ensures |r.children[0].text| == |trend| + 2 && r.children[0].text[2..] == trend
    ensures r.children[0].text[0] == '↑' <==> positive
    ensures Strings.Contains(r.classes[0], if positive then "text-success" else "text-danger")
  {
    var shown := (if positive then "↑ " else "↓ ") + trend;
    assert shown[2..] == trend;
    if positive then
      Strings.ContainsMiddle("badge bg-success-subtle ", "text-success", " ms-2");
      TextEl("span", TrendUpClass, shown)
    else
      Strings.ContainsMiddle("badge bg-danger-subtle ", "text-danger", " ms-2");
      TextEl("span", TrendDownClass, shown)
  }

  /** Flipping the direction changes only the arrow and the colour: both
      badges show the same trend after their arrow, and the two differ. */
  lemma TrendBadgeDirection(trend: string)
    ensures TrendBadge(trend, true).children[0].text[2..] == TrendBadge(trend, false).children[0].text[2..] == trend
    ensures TrendBadge(trend, true) != TrendBadge(trend, false)
  {
    assert TrendBadge(trend, true).children[0].text[0] != TrendBadge(trend, false).children[0].text[0];
  }

  /** The value row of a stat card: the value, then the trend badge when a
      trend is given. */
  function StatRow(value: string, trend: Option<string>, trendPositive: bool): (row: Node)
    ensures row.Elem? && |row.children| == (if IsSet(trend) then 2 else 1)
    ensures row.children[0] == TextEl("h2", "mb-0 d-inline", value)
    ensures IsSet(trend) ==> row.children[1] == TrendBadge(trend.value, trendPositive)
  {
    El("div", "d-flex align-items-center", [TextEl("h2", "mb-0 d-inline", value)] + Opt(IsSet(trend), TrendBadge(trend.GetOr(""), trendPositive)))
  }

  /** `StatCard`: an optional icon tinted with the variant (three-tier over
      the `StatCard` entry, fallback `primary`), the title, and the value
      row. */
  function StatCard(st: CommunityDefaults.State, title: string, value: string, trend: Option<string> := None, trendPositive: bool := true,
                    icon: Option<string> := None, variant: Option<string> := None, userCls: string := ""): (r: Node)
    ensures r.Elem? && r.classes == ["fs-comm-stat-card", "card"] + Cls(userCls)
    ensures |r.children| == 1 && r.children[0].Elem?
    ensures var body := r.children[0].children;
      var v := Resolve(variant, CommunityDefaults.Get(st, "StatCard"), "variant", VStr("primary"));
      && |body| == (if IsSet(icon) then 3 else 2)
      && (IsSet(icon) ==> body[0] == El("div", "text-" + Show(v) + " mb-2", [TextEl("span", "fs-4", icon.value)]))
      && body[|body| - 2] == TextEl("h6", "text-muted mb-2", title)
      && body[|body| - 1] == StatRow(value, trend, trendPositive)
  {
    var v := Resolve(variant, CommunityDefaults.Get(st, "StatCard"), "variant", VStr("primary"));
    var iconEl := El("div", "text-" + Show(v) + " mb-2", [TextEl("span", "fs-4", icon.GetOr(""))]);
    var body := El("div", "card-body", Opt(IsSet(icon), iconEl) + [TextEl("h6", "text-muted mb-2", title), StatRow(value, trend, trendPositive)]);
    Elem("div", ClassesWith(["fs-comm-stat-card", "card"], userCls), "", map[], [body])
  }

  /** A trend given without a direction is shown as rising. */
  lemma StatCardTrendDefaultsRising(st: CommunityDefaults.State, title: string, value: string, trend: string)
    requires trend != ""
    ensures var body := StatCard(st, title, value, Some(trend)).children[0].children;
      body[|body| - 1].children[1] == TextEl("span", TrendUpClass, "↑ " + trend)
  {
  }

  /** An explicit variant makes the stat card independent of the defaults
      table. */
  lemma StatCardExplicitVariantWins(st1: CommunityDefaults.State, st2: CommunityDefaults.State, title: string, value: string,
                                    trend: Option<string>, trendPositive: bool, icon: Option<string>, variant: string, userCls: string)
    requires variant != ""
    ensures StatCard(st1, title, value, trend, trendPositive, icon, Some(variant), userCls)
         == StatCard(st2, title, value, trend, trendPositive, icon, Some(variant), userCls)
  {
  }

  // -------------------------------------------------------------- RevealCard

  /** The reveal card's inline style: its height. */
  function RevealHeightStyle(cfg: OptionMap): (r: string)
    ensures Strings.NonSpaceEnds(r)
    ensures r == "height: " + Show(ResolveCfg(cfg, "height", "300px")) + ";"
  {
    Strings.DeclNonSpaceEnds("height: ", Show(ResolveCfg(cfg, "height", "300px")));
    "height: " + Show(ResolveCfg(cfg, "height", "300px")) + ";"
  }

  /** The reveal card's overlay: the title, the description when it is
      non-empty, and the button when one is given. */
  function RevealOverlay(title: string, description: string, button: Option<Node>): (r: Node)
    ensures r.Elem? && r.classes == ["fs-comm-reveal-overlay"]
    ensures |r.children| == 1 + (if description != "" then 1 else 0) + (if button.Some? then 1 else 0)
    ensures r.children[0] == TextEl("h4", "mb-2", title)
    ensures description != "" ==> r.children[1] == TextEl("p", "mb-3", description)
    ensures button.Some? ==> r.children[|r.children| - 1] == button.value
  {
    El("div", "fs-comm-reveal-overlay",
       [TextEl("h4", "mb-2", title)] + Opt(description != "", TextEl("p", "mb-3", description))
       + (if button.Some? then [button.value] else []))
  }

  /** `RevealCard`: the image, then the overlay. The height comes from the
      resolved configuration or 300px. */
  function RevealCard(cfg: OptionMap, imgSrc: string, title: string, description: string := "", button: Option<Node> := None,
                      userCls: string := "", userStyle: string := ""): (r: Node)
    ensures r.Elem? && r.classes == ["fs-comm-reveal-card card"] + Cls(userCls)
    ensures Strings.StartsWith(r.style, RevealHeightStyle(cfg))
    ensures Strings.AllSpace(userStyle) ==> r.style == RevealHeightStyle(cfg)
    ensures |userStyle| > 0 && !Strings.IsSpace(userStyle[|userStyle| - 1]) ==> r.style == RevealHeightStyle(cfg) + " " + userStyle
    ensures r.children == [Elem("img", ["fs-comm-reveal-image"], "", map["src" := imgSrc, "alt" := title], []),
                           RevealOverlay(title, description, button)]
  {
    Elem("div", ClassesWith(["fs-comm-reveal-card card"], userCls), Strings.JoinStyle(RevealHeightStyle(cfg), userStyle), map[],
         [Elem("img", ["fs-comm-reveal-image"], "", map["src" := imgSrc, "alt" := title], []),
          RevealOverlay(title, description, button)])
  }

  /** With nothing configured and no caller style, the reveal card is
      300px high; with no description and no button its overlay holds only
      the title. */
  lemma RevealCardDefaults(imgSrc: string, title: string)
    ensures var r := RevealCard(map[], imgSrc, title, "", None, "", "");
      && r.style == "height: " + "300px" + ";"
      && r.children[1].children == [TextEl("h4", "mb-2", title)]
  {
    assert Strings.AllSpace("");
  }

  // ------------------------------------------------------------ TimelineCard

  /** The fixed inline style of a timeline card's container. */
  const TimelineStyle := "position: relative; margin-left: 20px; border-left: 2px solid var(--bs-border-color);"

  /** The classes of the timeline icon badge in a variant colour. */
  function TimelineIconClass(v: string): string {
    "fs-comm-timeline-icon " + ("bg-" + v) + TimelineIconSuffix
  }

  /** The classes after the colour of the timeline icon. */
  const TimelineIconSuffix := " text-white rounded-circle d-flex align-items-center justify-content-center"

  /** The fixed placement of the timeline icon badge. */
  const TimelineIconStyle := "width: 40px; height: 40px; position: absolute; left: -20px; top: 20px;"

  /** The body of a timeline entry: the title, with the timestamp beside
      it when one is given, then the description when one is given. */
  function TimelineBody(title: string, description: Option<string>, timestamp: Option<string>): (body: Node)
    ensures body.Elem? && body.classes == ["card-body"] && body.style == "margin-left: 20px;"
    ensures |body.children| == (if IsSet(description) then 2 else 1)
    ensures body.children[0] == El("div", "mb-2", [TextEl("h5", "card-title mb-1", title)] + Opt(IsSet(timestamp), TextEl("small", "text-muted", timestamp.GetOr(""))))
    ensures IsSet(description) ==> body.children[1] == TextEl("p", "card-text mb-0", description.value)
  {
    var header := El("div", "mb-2", [TextEl("h5", "card-title mb-1", title)] + Opt(IsSet(timestamp), TextEl("small", "text-muted", timestamp.GetOr(""))));
    if IsSet(description) then Elem("div", ["card-body"], "margin-left: 20px;", map[], [header, TextEl("p", "card-text mb-0", description.value)])
    else Elem("div", ["card-body"], "margin-left: 20px;", map[], [header])
  }

  /** The icon badge of a timeline entry, coloured with a variant: its
      class carries `bg-{v}`, its placement does not depend on the variant,
      and the icon is its only text. */
  function TimelineBadge(v: string, icon: string): (badge: Node)
    ensures badge.Elem? && badge.classes == [TimelineIconClass(v)] && badge.style == TimelineIconStyle
    ensures badge.children == [TextEl("span", "fs-5", icon)]
    ensures Strings.Contains(badge.classes[0], "bg-" + v)
    ensures |badge.children| == 1 && badge.children[0].children == [Text(icon)]
  {
    Strings.ContainsMiddle("fs-comm-timeline-icon ", "bg-" + v, TimelineIconSuffix);
    Elem("div", [TimelineIconClass(v)], TimelineIconStyle, map[], [TextEl("span", "fs-5", icon)])
  }

  /** Distinct variants or icons give distinct badges: the badge determines
      both the variant and the icon. */
  lemma TimelineBadgeInjective(v1: string, icon1: string, v2: string, icon2: string)
    requires TimelineBadge(v1, icon1) == TimelineBadge(v2, icon2)
    ensures v1 == v2 && icon1 == icon2
  {
    assert TimelineIconClass(v1) == TimelineIconClass(v2);
    Strings.MiddleCancel("fs-comm-timeline-icon ", "bg-" + v1, "bg-" + v2, TimelineIconSuffix);
    Strings.MiddleCancel("bg-", v1, v2, "");
    assert TimelineBadge(v1, icon1).children[0].children[0] == Text(icon1);
  }

  /** `TimelineCard`: an optional icon badge coloured with the variant
      (three-tier over the `TimelineCard` entry, fallback `primary`), then
      the body with the title, the optional timestamp and the optional
      description. */
  function TimelineCard(st: CommunityDefaults.State, title: string, description: Option<string> := None, timestamp: Option<string> := None,
                        icon: Option<string> := None, variant: Option<string> := None, userCls: string := ""): (r: Node)
    ensures r.Elem? && r.classes == ["fs-comm-timeline-card", "card"] + Cls(userCls) && r.style == TimelineStyle
    ensures |r.children| == (if IsSet(icon) then 2 else 1)
    ensures IsSet(icon) ==> r.children[0] == TimelineBadge(Show(Resolve(variant, CommunityDefaults.Get(st, "TimelineCard"), "variant", VStr("primary"))), icon.value)
    ensures r.children[|r.children| - 1] == TimelineBody(title, description, timestamp)
  {
    var body := TimelineBody(title, description, timestamp);
    var classes := ClassesWith(["fs-comm-timeline-card", "card"], userCls);
    if IsSet(icon) then
      var v := Resolve(variant, CommunityDefaults.Get(st, "TimelineCard"), "variant", VStr("primary"));
      Elem("div", classes, TimelineStyle, map[], [TimelineBadge(Show(v), icon.value), body])
    else Elem("div", classes, TimelineStyle, map[], [body])
  }

  /** Without an icon the timeline card does not depend on the defaults
      table: the variant colours nothing but the icon badge. */
  lemma TimelineCardWithoutIconIgnoresTable(st1: CommunityDefaults.State, st2: CommunityDefaults.State, title: string,
                                            description: Option<string>, timestamp: Option<string>, icon: Option<string>,
                                            variant: Option<string>, userCls: string)
    requires !IsSet(icon)
    ensures TimelineCard(st1, title, description, timestamp, icon, variant, userCls)
         == TimelineCard(st2, title, description, timestamp, icon, variant, userCls)
  {
  }

  /** A variant stored with `set_community_defaults("TimelineCard", ...)`
      colours the icon badge of every later card that passes none. */
  lemma TimelineCardFollowsTable(st: CommunityDefaults.State, v: string, title: string, description: Option<string>,
                                 timestamp: Option<string>, icon: string, userCls: string)
    requires icon != ""
    ensures var st' := CommunityDefaults.Set(st, "TimelineCard", map["variant" := VStr(v)]);
      TimelineCard(st', title, description, timestamp, Some(icon), None, userCls).children[0] == TimelineBadge(v, icon)
  {
    CommunityDefaults.SetReadsBack(st, "TimelineCard", "variant", VStr(v));
  }


  // ------------------------------------------------------------- ProfileCard

  /** The avatar shown when none is given. */
  const PlaceholderAvatar := "https://via.placeholder.com/150"

  /** The body of a profile card: the avatar (or the placeholder) with the
      name as its alternative text, the name, then the title, the bio and
      the action row, each only when given. */
  function ProfileBody(name: string, title: Option<string>, avatar: Option<string>, bio: Option<string>, actions: seq<Node>): (body: seq<Node>)
    ensures |body| == 2 + (if IsSet(title) then 1 else 0) + (if IsSet(bio) then 1 else 0) + (if |actions| > 0 then 1 else 0)
    ensures body[0].Elem? && body[0].tag == "img"
    ensures body[0].attrs == map["src" := if IsSet(avatar) then avatar.value else PlaceholderAvatar, "alt" := name]
    ensures body[1] == TextEl("h5", "card-title mb-1", name)
    ensures IsSet(title) ==> body[2] == TextEl("p", "text-muted mb-2", title.value)
    ensures IsSet(bio) ==> body[if IsSet(title) then 3 else 2] == TextEl("p", "card-text small", bio.value)
    ensures |actions| > 0 ==> body[|body| - 1].Elem? && body[|body| - 1].children == actions
  {
    var url := if IsSet(avatar) then avatar.value else PlaceholderAvatar;
    var img := Elem("img", ["rounded-circle mb-3"], AvatarStyle, map["src" := url, "alt" := name], []);
    [img, TextEl("h5", "card-title mb-1", name)]
    + Opt(IsSet(title), TextEl("p", "text-muted mb-2", title.GetOr("")))
    + Opt(IsSet(bio), TextEl("p", "card-text small", bio.GetOr("")))
    + Opt(|actions| > 0, El("div", "mt-3 d-flex gap-2 justify-content-center", actions))
  }

  /** The fixed size and fit of the avatar. */
  const AvatarStyle := "width: 100px; height: 100px; object-fit: cover;"

  /** `ProfileCard`: the profile body in a centred card. The `ProfileCard`
      table entry is read but never used. */
  function ProfileCard(name: string, title: Option<string> := None, avatar: Option<string> := None, bio: Option<string> := None,
                       actions: seq<Node> := [], userCls: string := ""): (r: Node)
    ensures r.Elem? && r.classes == ["fs-comm-profile-card", "card", "text-center"] + Cls(userCls)
    ensures r.children == [El("div", "card-body", ProfileBody(name, title, avatar, bio, actions))]
  {
    Elem("div", ClassesWith(["fs-comm-profile-card", "card", "text-center"], userCls), "", map[],
         [El("div", "card-body", ProfileBody(name, title, avatar, bio, actions))])
  }

  /** An empty title, avatar or bio is falsy and renders exactly as an
      absent one: no title or bio paragraph, and the placeholder avatar. */
  lemma ProfileCardEmptyIsAbsent(name: string, actions: seq<Node>, userCls: string)
    ensures ProfileCard(name, Some(""), Some(""), Some(""), actions, userCls) == ProfileCard(name, None, None, None, actions, userCls)
    ensures ProfileCard(name, None, None, None, actions, userCls).children[0].children[0].attrs["src"] == PlaceholderAvatar
  {
  }
}
