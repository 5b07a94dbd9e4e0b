/** The effect wrappers. Both read a configuration resolved by the core
    library. */
module Effects {
  import opened Values
  import opened Markup
  import Strings

  // --------------------------------------------------------- ParallaxSection

  /** The overlay opacity: the configured value unless it is `None` (so a
      configured 0 is kept), else 0.5. */
  function Opacity(cfg: OptionMap): (o: Value)
    ensures "overlay_opacity" in cfg && cfg["overlay_opacity"] != VNone ==> o == cfg["overlay_opacity"]
    ensures ("overlay_opacity" !in cfg || cfg["overlay_opacity"] == VNone) ==> o == VFloat("0.5")
  {
    if Get(cfg, "overlay_opacity") != VNone then Get(cfg, "overlay_opacity") else VFloat("0.5")
  }

  /** The component part of the section's inline style. */
  function ParallaxBaseStyle(cfg: OptionMap, imgSrc: string): (r: string)
    ensures Strings.NonSpaceEnds(r)
  {
    Strings.DeclNonSpaceEnds("background-image: url('" + imgSrc + "'); height: ", Show(ResolveCfg(cfg, "height", "500px")));
    "background-image: url('" + imgSrc + "'); height: " + Show(ResolveCfg(cfg, "height", "500px")) + ";"
  }

  /** The inline style of the darkening overlay. */
  function OverlayStyle(o: Value): string {
    "background: rgba(0,0,0," + Show(o) + "); width: 100%; height: 100%; display: flex; align-items: center; justify-content: center;"
  }

  /** `ParallaxSection`: the content inside a darkening overlay, inside a
      section with the background image and the height (configuration value,
      else 500px), followed by the caller's style. */
  function ParallaxSection(cfg: OptionMap, content: seq<Node>, imgSrc: string, userCls: string := "", userStyle: string := ""): (r: Node)
    ensures r.Elem? && r.classes == ["fs-comm-parallax-section"] + Cls(userCls)
    ensures Strings.StartsWith(r.style, ParallaxBaseStyle(cfg, imgSrc))
    ensures Strings.AllSpace(userStyle) ==> r.style == ParallaxBaseStyle(cfg, imgSrc)
    ensures |userStyle| > 0 && !Strings.IsSpace(userStyle[|userStyle| - 1]) ==> r.style == ParallaxBaseStyle(cfg, imgSrc) + " " + userStyle
    ensures r.children == [Elem("div", [], OverlayStyle(Opacity(cfg)), map[], content)]
  {
    Elem("div", ClassesWith(["fs-comm-parallax-section"], userCls), Strings.JoinStyle(ParallaxBaseStyle(cfg, imgSrc), userStyle), map[],
         [Elem("div", [], OverlayStyle(Opacity(cfg)), map[], content)])
  }

  /** A configured opacity of zero is kept, not replaced by the default. */
  lemma ParallaxKeepsZeroOpacity(content: seq<Node>, imgSrc: string)
    ensures ParallaxSection(map["overlay_opacity" := VInt(0)], content, imgSrc, "", "").children == [Elem("div", [], OverlayStyle(VInt(0)), map[], content)]
  {
    assert Opacity(map["overlay_opacity" := VInt(0)]) == VInt(0);
  }

  /** A missing opacity becomes 0.5. */
  lemma ParallaxDefaultOpacity(content: seq<Node>, imgSrc: string)
    ensures ParallaxSection(map[], content, imgSrc, "", "").children == [Elem("div", [], OverlayStyle(VFloat("0.5")), map[], content)]
  {
    assert Opacity(map[]) == VFloat("0.5");
  }

  // ------------------------------------------------------------ ScrollReveal

  /** The component part of the wrapper's inline style: the delay (else
      0s) and the duration (else 0.6s) as custom properties. */
  function RevealBaseStyle(cfg: OptionMap): (r: string)
    ensures Strings.NonSpaceEnds(r)
  {
    var prefix := "--fs-comm-reveal-delay: " + Show(ResolveCfg(cfg, "delay", "0s")) + "; --fs-comm-reveal-duration: ";
    Strings.DeclNonSpaceEnds(prefix, Show(ResolveCfg(cfg, "duration", "0.6s")));
    prefix + Show(ResolveCfg(cfg, "duration", "0.6s")) + ";"
  }

  /** `ScrollReveal`: the content, then the reveal script, in a wrapper
      classed with the direction (configuration value, else `up`). */
  function ScrollReveal(cfg: OptionMap, content: Node, userCls: string := "", userStyle: string := ""): (r: Node)
    ensures r.Elem? && r.children == [content, Script]
    ensures r.classes == ["fs-comm-reveal"] + Cls(Show(ResolveCfg(cfg, "direction", "up"))) + Cls(userCls)
    ensures Strings.StartsWith(r.style, RevealBaseStyle(cfg))
    ensures Strings.AllSpace(userStyle) ==> r.style == RevealBaseStyle(cfg)
    ensures |userStyle| > 0 && !Strings.IsSpace(userStyle[|userStyle| - 1]) ==> r.style == RevealBaseStyle(cfg) + " " + userStyle
  {
    var dir := Show(ResolveCfg(cfg, "direction", "up"));
    var classes := ClassesWith2(["fs-comm-reveal"], dir, userCls);
    assert classes == ["fs-comm-reveal"] + Cls(dir) + Cls(userCls);
    Elem("div", classes, Strings.JoinStyle(RevealBaseStyle(cfg), userStyle), map[], [content, Script])
  }

  /** With nothing configured the content slides up, after no delay, over
      0.6 seconds. */
  lemma ScrollRevealDefaults(content: Node)
    ensures ScrollReveal(map[], content, "", "").classes == ["fs-comm-reveal", "up"]
    ensures ScrollReveal(map[], content, "", "").style == "--fs-comm-reveal-delay: " + "0s" + "; --fs-comm-reveal-duration: " + "0.6s" + ";"
  {
    assert Strings.AllSpace("");
  }
}
