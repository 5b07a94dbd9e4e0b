/** The navigation components: the recursive vertical mega menu and the
    off-canvas slide menu with its toggle button. */
module Navbars {
  import opened Wrappers
  import opened Values
  import opened Markup
  import Strings

  // -------------------------------------------------------- VerticalMegaMenu

  /** One entry of the mega menu's item dictionaries. A key the dictionary
      lacks is `None` here; a missing `children` or `active` key is the
      empty list or `False`, which the renderer treats the same way. */
  datatype MenuItem = MenuItem(
    labelText: Option<string>,
    icon: Option<string>,
    subtitle: Option<string>,
    href: Option<string>,
    children: seq<MenuItem>,
    active: bool
  )

  /** The number of entries in a menu tree. */
  function ItemCount(item: MenuItem): nat
    decreases item
  {
    1 + ItemCountAll(item.children)
  }

  /** The number of entries in a forest of menu trees. */
  function ItemCountAll(items: seq<MenuItem>): nat
    decreases items
  {
    if items == [] then 0 else ItemCount(items[0]) + ItemCountAll(items[1..])
  }

  /** The number of list-item elements in a markup tree. */
  function LiCount(n: Node): nat
    decreases n
  {
    match n
    case Elem(tag, _, _, _, kids) => (if tag == "li" then 1 else 0) + LiCountAll(kids)
    case _ => 0
  }

  /** The number of list-item elements in a sequence of markup trees. */
  function LiCountAll(ns: seq<Node>): nat
    decreases ns
  {
    if ns == [] then 0 else LiCount(ns[0]) + LiCountAll(ns[1..])
  }

  /** The text column of a menu link: the bold label, then the subtitle
      when there is one (an empty string otherwise). */
  function MenuText(item: MenuItem): Node {
    var labelText := item.labelText.GetOr("");
    var subtitle := item.subtitle.GetOr("");
    El("div", "menu-text", [Raw("<strong>" + labelText + "</strong>"), if subtitle != "" then TextEl("small", "", subtitle) else Text("")])
  }

  /** The link of a menu entry: its icon (or an empty string), then its
      text column; it points at `href` (default `#`) and is marked active
      when the entry is. */
  function MenuLink(item: MenuItem): (r: Node)
    ensures r.Elem? && r.tag == "a"
    ensures r.attrs == map["href" := item.href.GetOr("#")]
    ensures "active" in r.classes <==> item.active
    ensures |r.children| == 2 && r.children[1] == MenuText(item)
    ensures r.children[0] == Text("") <==> !IsSet(item.icon)
  {
    var iconName := item.icon.GetOr("");
    var icon := if iconName != "" then Elem("Icon", [], "", map["name" := iconName], []) else Text("");
    Elem("a", Cls(if item.active then "active" else ""), "", map["href" := item.href.GetOr("#")], [icon, MenuText(item)])
  }

  /** `_render_menu_item`: a list item holding the entry's link, then a
      nested list of its children rendered the same way (or an empty string
      when it has none). */
  function RenderItem(item: MenuItem): (r: Node)
    ensures r.Elem? && r.tag == "li" && |r.children| == 2
    ensures r.children[0] == MenuLink(item)
    ensures item.children == [] ==> r.children[1] == Text("")
    ensures item.children != [] ==> r.children[1] == El("ul", "", RenderAll(item.children))
    decreases item, 1
  {
    var submenu := if item.children != [] then El("ul", "", RenderAll(item.children)) else Text("");
    El("li", "", [MenuLink(item), submenu])
  }

  /** The list items of a sequence of entries, one per entry, in order. */
  function RenderAll(items: seq<MenuItem>): (r: seq<Node>)
    ensures |r| == |items|
    ensures forall i :: 0 <= i < |items| ==> r[i] == RenderItem(items[i])
    decreases items, 0
  {
    if items == [] then [] else [RenderItem(items[0])] + RenderAll(items[1..])
  }

  /** Two sibling trees hold the list items of both. */
  lemma LiCountPair(a: Node, b: Node)
    ensures LiCountAll([a, b]) == LiCount(a) + LiCount(b)
  {
    assert [a, b][1..] == [b];
    assert LiCountAll([b]) == LiCount(b) + LiCountAll([]) by {
      assert [b][1..] == [];
    }
    assert LiCountAll([a, b]) == LiCount(a) + LiCountAll([b]);
  }

  /** A menu link holds no list items. */
  lemma LinkHoldsNoItems(item: MenuItem)
    ensures LiCount(MenuLink(item)) == 0
  {
    var t := MenuText(item);
    var sub := t.children[1];
    if sub.Elem? {
      assert LiCountAll(sub.children) == LiCount(sub.children[0]) + LiCountAll(sub.children[1..]);
      assert sub.children[1..] == [];
    }
    assert t.children == [t.children[0], t.children[1]];
    LiCountPair(t.children[0], t.children[1]);
    var link := MenuLink(item);
    var icon := link.children[0];
    if icon.Elem? {
      assert icon.children == [];
    }
    assert link.children == [icon, t];
    LiCountPair(icon, t);
  }

  /** Every entry of a menu tree, at any depth, becomes exactly one list
      item of the markup. */
  lemma {:induction false} RenderItemCount(item: MenuItem)
    ensures LiCount(RenderItem(item)) == ItemCount(item)
    decreases item, 1
  {
    var r := RenderItem(item);
    LinkHoldsNoItems(item);
    LiCountPair(r.children[0], r.children[1]);
    if item.children != [] {
      RenderAllCount(item.children);
      assert LiCount(r.children[1]) == LiCountAll(RenderAll(item.children));
    } else {
      assert ItemCountAll(item.children) == 0;
    }
  }

  /** Every entry of a forest becomes exactly one list item. */
  lemma {:induction false} RenderAllCount(items: seq<MenuItem>)
    ensures LiCountAll(RenderAll(items)) == ItemCountAll(items)
    decreases items, 0
  {
    if items != [] {
      RenderItemCount(items[0]);
      RenderAllCount(items[1..]);
      assert RenderAll(items)[1..] == RenderAll(items[1..]);
    }
  }

  /** `VerticalMegaMenu`: one top-level list item per entry, in order,
      in a list whose style is the width followed by the caller's style
      (not stripped). */
  function VerticalMegaMenu(items: seq<MenuItem>, width: string := "250px", userCls: string := "", userStyle: string := ""): (r: Node)
    ensures r.Elem? && r.tag == "ul" && r.classes == ["fs-comm-vertical-mega"] + Cls(userCls)
    ensures r.style == "width: " + width + "; " + userStyle
    ensures |r.children| == |items|
    ensures forall i :: 0 <= i < |items| ==> r.children[i] == RenderItem(items[i])
    ensures LiCountAll(r.children) == ItemCountAll(items)
  {
    RenderAllCount(items);
    Elem("ul", ClassesWith(["fs-comm-vertical-mega"], userCls), "width: " + width + "; " + userStyle, map[], RenderAll(items))
  }

  /** Without a width the menu is 250 pixels wide. */
  lemma VerticalMegaMenuDefaultWidth(items: seq<MenuItem>)
    ensures Strings.StartsWith(VerticalMegaMenu(items).style, "width: 250px;")
  {
    var style := VerticalMegaMenu(items).style;
    assert style == "width: 250px;" + " ";
    assert style[..|"width: 250px;"|] == "width: 250px;";
  }

  /** An entry without any keys renders as an inactive link to `#` with an
      empty label and no icon, subtitle or submenu. */
  lemma EmptyItemDefaults()
    ensures var r := RenderItem(MenuItem(None, None, None, None, [], false));
      && r.children[0].attrs["href"] == "#"
      && r.children[0].classes == []
      && r.children[0].children[0] == Text("")
      && r.children[0].children[1].children == [Raw("<strong></strong>"), Text("")]
      && r.children[1] == Text("")
  {
    assert "<strong>" + "" + "</strong>" == "<strong></strong>";
  }

  // --------------------------------------------------------- SlideMenuNavbar

  /** An entry of the slide menu: a `(label, href)` pair, or any element. */
  datatype SlideItem = Link(labelText: string, href: string) | Element(node: Node)

  /** The list item of one slide-menu entry. */
  function SlideListItem(item: SlideItem): (r: Node)
    ensures r.Elem? && r.tag == "li" && r.classes == ["nav-item"] && |r.children| == 1
    ensures item.Link? ==> r.children[0] == Elem("a", ["nav-link"], "", map["href" := item.href], [Text(item.labelText)])
    ensures item.Element? ==> r.children[0] == item.node
  {
    match item
    case Link(text, href) => El("li", "nav-item", [Elem("a", ["nav-link"], "", map["href" := href], [Text(text)])])
    case Element(node) => El("li", "nav-item", [node])
  }

  /** Reads a plain slide-menu link back: its text and target, when the
      node is exactly the anchor a `(label, href)` entry renders. */
  function LinkOf(n: Node): (r: Option<(string, string)>)
    ensures r.Some? ==> n == Elem("a", ["nav-link"], "", map["href" := r.value.1], [Text(r.value.0)])
  {
    if n.Elem? && n.tag == "a" && n.classes == ["nav-link"] && n.style == ""
      && "href" in n.attrs && n.attrs == map["href" := n.attrs["href"]]
      && |n.children| == 1 && n.children[0].Text?
    then Some((n.children[0].text, n.attrs["href"]))
    else None
  }

  /** A `(label, href)` entry reads back from its list item, and any other
      element is wrapped unchanged. */
  lemma SlideListItemRoundTrip(item: SlideItem)
    ensures item.Link? ==> LinkOf(SlideListItem(item).children[0]) == Some((item.labelText, item.href))
    ensures item.Element? ==>
      SlideListItem(item).children[0] == item.node && LinkOf(SlideListItem(item).children[0]) == LinkOf(item.node)
  {
  }

  /** Two entries render the same list item only when they are the same
      entry, or when one is an element that is exactly the other's link. */
  lemma SlideListItemInjective(a: SlideItem, b: SlideItem)
    requires SlideListItem(a) == SlideListItem(b)
    ensures a == b
      || (a.Element? && b.Link? && LinkOf(a.node) == Some((b.labelText, b.href)))
      || (b.Element? && a.Link? && LinkOf(b.node) == Some((a.labelText, a.href)))
  {
    var n := SlideListItem(a).children[0];
    assert n == SlideListItem(b).children[0];
    if a.Link? && b.Link? {
      assert LinkOf(n) == Some((a.labelText, a.href)) == Some((b.labelText, b.href));
    }
  }

  /** The menu id: the configured `menu_id`, else `slide-menu`. */
  function MenuId(cfg: OptionMap): string {
    Show(ResolveCfg(cfg, "menu_id", "slide-menu"))
  }

  /** `SlideMenuNavbar`: an overlay whose id is the menu id plus
      `-overlay`, then the menu panel with that id, holding the brand
      heading when a brand is given and a list with one item per entry. */
  function SlideMenuNavbar(cfg: OptionMap, items: seq<SlideItem>, brand: Option<string> := None): (r: Node)
    ensures r.Elem? && |r.children| == 2
    ensures r.children[0] == Elem("div", ["fs-comm-slide-overlay"], "", map["id" := MenuId(cfg) + "-overlay"], [])
    ensures var menu := r.children[1];
      && menu.Elem? && menu.classes == ["fs-comm-slide-menu"] && menu.attrs == map["id" := MenuId(cfg)]
      && |menu.children| == (if IsSet(brand) then 2 else 1)
      && (IsSet(brand) ==> menu.children[0] == El("div", "mb-4 text-center", [TextEl("h4", "", brand.value)]))
      && var list := menu.children[|menu.children| - 1];
         && list.Elem? && list.tag == "ul" && |list.children| == |items|
         && forall i :: 0 <= i < |items| ==> list.children[i] == SlideListItem(items[i])
  {
    var mid := MenuId(cfg);
    var overlay := Elem("div", ["fs-comm-slide-overlay"], "", map["id" := mid + "-overlay"], []);
    var list := El("ul", "navbar-nav flex-column", seq(|items|, i requires 0 <= i < |items| => SlideListItem(items[i])));
    var head := Opt(IsSet(brand), El("div", "mb-4 text-center", [TextEl("h4", "", brand.GetOr(""))]));
    var menu := Elem("div", ["fs-comm-slide-menu"], "", map["id" := mid], head + [list]);
    El("div", "", [overlay, menu])
  }

  /** The toggle script for a menu id: it toggles the `show` class of the
      element with that id and of the one with the id plus `-overlay`. */
  function ToggleScript(targetId: string): (js: string)
    ensures Strings.Contains(js, "document.getElementById('" + targetId + "')")
    ensures Strings.Contains(js, "document.getElementById('" + targetId + "-overlay')")
  {
    var first := "document.getElementById('" + targetId + "')";
    var second := "document.getElementById('" + targetId + "-overlay')";
    var js := first + ".classList.toggle('show'); " + second + ".classList.toggle('show');";
    Strings.ContainsMiddle("", first, ".classList.toggle('show'); " + second + ".classList.toggle('show');");
    assert js == "" + first + (".classList.toggle('show'); " + second + ".classList.toggle('show');");
    Strings.ContainsMiddle(first + ".classList.toggle('show'); ", second, ".classList.toggle('show');");
    assert js == (first + ".classList.toggle('show'); ") + second + ".classList.toggle('show');";
    js
  }

  /** `SlideToggler`: an "Open Menu" button running the toggle script. */
  function SlideToggler(targetId: string): (r: Node)
    ensures r.Elem? && r.tag == "button" && r.children == [Text("Open Menu")]
    ensures r.classes == ["btn btn-outline-primary"]
    ensures "onclick" in r.attrs && r.attrs["onclick"] == ToggleScript(targetId)
  {
    Elem("button", ["btn btn-outline-primary"], "", map["onclick" := ToggleScript(targetId)], [Text("Open Menu")])
  }

  /** A toggler aimed at a slide menu's id addresses both the menu panel
      and its overlay by their ids. */
  lemma TogglerTargetsMenu(cfg: OptionMap, items: seq<SlideItem>, brand: Option<string>)
    ensures var nav := SlideMenuNavbar(cfg, items, brand);
      var js := SlideToggler(nav.children[1].attrs["id"]).attrs["onclick"];
      && Strings.Contains(js, "document.getElementById('" + nav.children[1].attrs["id"] + "')")
      && Strings.Contains(js, "document.getElementById('" + nav.children[0].attrs["id"] + "')")
  {
    var nav := SlideMenuNavbar(cfg, items, brand);
    var mid := MenuId(cfg);
    assert nav.children[1].attrs["id"] == mid;
    assert nav.children[0].attrs["id"] == mid + "-overlay";
    var js := ToggleScript(mid);
    assert "document.getElementById('" + (mid + "-overlay") + "')" == "document.getElementById('" + mid + "-overlay')";
  }
}
