/** The form components. Both read (and ignore) their entry of the
    community defaults table, so neither takes the table. Attributes whose
    value is `None` or `False` are left out, as the markup library omits
    them. */
module Forms {
  import opened Wrappers
  import opened Values
  import opened Markup
  import Strings

  // ---------------------------------------------------------------- TagInput

  /** The badge of one initial tag: the tag, then its close button; the
      badge carries the tag in `data-tag`. */
  function TagBadge(tag: string): Node {
    Elem("span", ["badge bg-primary me-2 mb-2 d-inline-flex align-items-center"], "", map["data-tag" := tag],
         [Text(tag), Elem("button", ["btn-close btn-close-white ms-2"], "font-size: 0.7rem;", map["type" := "button"], [Text("×")])])
  }

  /** The badge row: one badge per tag, in order. */
  function TagBadges(tags: seq<string>): (r: Node)
    ensures r.Elem? && r.classes == ["tags-container mb-2"] && |r.children| == |tags|
    ensures forall i :: 0 <= i < |tags| ==>
      && r.children[i].Elem?
      && r.children[i].attrs == map["data-tag" := tags[i]]
      && |r.children[i].children| == 2 && r.children[i].children[0] == Text(tags[i])
  {
    El("div", "tags-container mb-2", seq(|tags|, i requires 0 <= i < |tags| => TagBadge(tags[i])))
  }

  /** The visible text field of a tag input. */
  function TagField(name: string, placeholder: string): (r: Node)
    ensures r.Elem? && r.tag == "input" && r.classes == ["form-control"] && r.children == []
    ensures r.attrs == map["type" := "text", "name" := name, "placeholder" := placeholder]
    ensures "name" in r.attrs && r.attrs["name"] == name && "type" in r.attrs && r.attrs["type"] == "text"
  {
    Elem("input", ["form-control"], "", map["type" := "text", "name" := name, "placeholder" := placeholder], [])
  }

  /** The hidden field of a tag input: named `{name}_tags`, holding the
      tags joined with commas. */
  function HiddenTags(name: string, tags: seq<string>): (r: Node)
    ensures r.Elem? && r.tag == "input" && r.children == []
    ensures r.attrs == map["type" := "hidden", "name" := name + "_tags", "value" := Strings.Join(",", tags)]
    ensures "name" in r.attrs && r.attrs["name"] == name + "_tags" && "type" in r.attrs && r.attrs["type"] == "hidden"
    ensures "value" in r.attrs && r.attrs["value"] == Strings.Join(",", tags)
  {
    Elem("input", [], "", map["type" := "hidden", "name" := name + "_tags", "value" := Strings.Join(",", tags)], [])
  }

  /** `TagInput`: a row with one badge per initial tag (none when there are
      no tags), the visible text field, the hidden field, and the tag
      script. */
  function TagInput(name: string, tags: Option<seq<string>> := None, placeholder: string := "Add tag...", userCls: string := ""): (r: Node)
    ensures r.Elem? && r.tag == "div" && r.classes == ["fs-comm-tag-input"] + Cls(userCls)
    ensures r.children == [TagBadges(tags.GetOr([])), TagField(name, placeholder), HiddenTags(name, tags.GetOr([])), Script]
  {
    var initial := tags.GetOr([]);
    Elem("div", ClassesWith(["fs-comm-tag-input"], userCls), "", map[], [TagBadges(initial), TagField(name, placeholder), HiddenTags(name, initial), Script])
  }

  /** The form posts the typed text under the input's own name and the
      tag list under that name plus `_tags`, so the two never collide. */
  lemma TagInputFieldNames(name: string, tags: Option<seq<string>>, placeholder: string, userCls: string)
    ensures var r := TagInput(name, tags, placeholder, userCls);
      && r.children[1].attrs["name"] == name && r.children[1].attrs["type"] == "text"
      && r.children[2].attrs["name"] == name + "_tags" && r.children[2].attrs["type"] == "hidden"
      && r.children[1].attrs["name"] != r.children[2].attrs["name"]
  {
    var r := TagInput(name, tags, placeholder, userCls);
    var field := TagField(name, placeholder);
    var hidden := HiddenTags(name, tags.GetOr([]));
    assert r.children[1] == field && r.children[2] == hidden;
    assert |hidden.attrs["name"]| == |field.attrs["name"]| + 5;
  }

  /** A tag input given only a name starts empty, with the `Add tag...`
      prompt and an empty hidden value. */
  lemma TagInputDefaults(name: string)
    ensures var r := TagInput(name);
      && r.children[0].children == []
      && r.children[1].attrs["placeholder"] == "Add tag..."
      && r.children[2].attrs["value"] == ""
      && r.classes == ["fs-comm-tag-input"]
  {
  }

  /** The hidden value splits back into the initial tags when at least one
      tag is given and none contains a comma. */
  lemma TagInputHiddenRoundTrip(name: string, tags: seq<string>, placeholder: string, userCls: string)
    requires tags != []
    requires forall i :: 0 <= i < |tags| ==> ',' !in tags[i]
    ensures var hidden := TagInput(name, Some(tags), placeholder, userCls).children[2];
      "value" in hidden.attrs && Strings.Split(hidden.attrs["value"], ',') == tags
  {
    Strings.SplitJoin(tags, ',');
    assert TagInput(name, Some(tags), placeholder, userCls).children[2] == HiddenTags(name, tags);
  }

  /** A tag holding a comma does not survive the hidden value: splitting
      yields two tags where one was given. */
  lemma TagWithCommaSplits()
    ensures Strings.Split(TagInput("skills", Some(["a,b"]), "Add tag...", "").children[2].attrs["value"], ',') == ["a", "b"]
  {
    Strings.SplitAfterPiece("a", ',', "b");
    Strings.SplitOfPiece("b", ',');
    assert "a,b" == "a" + [','] + "b";
  }

  // ----------------------------------------------------------- AnimatedInput

  /** The attributes of the animated input's field. */
  function FieldAttrs(inputType: string, name: string, id: string, placeholder: string, value: Option<string>, required: bool): map<string, string> {
    var base := map["type" := inputType, "name" := name, "id" := id, "placeholder" := placeholder];
    var withValue := if value.Some? then base["value" := value.value] else base;
    if required then withValue["required" := "True"] else withValue
  }

  /** `AnimatedInput`: the field, then its floating label. The field id is
      the caller's `id` if one is passed, else `input-{name}`; the label
      points at that id; the placeholder is the caller's when non-empty,
      else the label text. */
  function AnimatedInput(labelText: string, name: string, inputType: string := "text", placeholder: string := "", value: Option<string> := None,
                         required: bool := false, id: Option<string> := None, userCls: string := ""): (r: Node)
    ensures r.Elem? && r.classes == ["fs-comm-animated-input", "form-floating"] + Cls(userCls)
    ensures |r.children| == 2 && r.children[0].Elem? && r.children[1].Elem?
    ensures var field := r.children[0].attrs;
      && {"type", "name", "id", "placeholder"} <= field.Keys
      && field["id"] == (if id.Some? then id.value else "input-" + name)
      && field["name"] == name && field["type"] == inputType
      && field["placeholder"] == (if placeholder != "" then placeholder else labelText)
      && ("value" in field <==> value.Some?)
      && ("required" in field <==> required)
    ensures r.children[1] == Elem("label", [], "", map["for" := r.children[0].attrs["id"]], [Text(labelText)])
  {
    var inputId := if id.Some? then id.value else "input-" + name;
    var attrs := FieldAttrs(inputType, name, inputId, if placeholder != "" then placeholder else labelText, value, required);
    Elem("div", ClassesWith(["fs-comm-animated-input", "form-floating"], userCls), "", map[],
         [Elem("input", ["form-control"], "", attrs, []), Elem("label", [], "", map["for" := inputId], [Text(labelText)])])
  }

  /** Given only a label and a name, the field is a text field prompting
      with the label, with no value, not required, and its id derived from
      the name. */
  lemma AnimatedInputDefaults(labelText: string, name: string)
    ensures var field := AnimatedInput(labelText, name).children[0].attrs;
      && field == map["type" := "text", "name" := name, "id" := "input-" + name, "placeholder" := labelText]
  {
  }
}
