/** The form elements a dimension is read from, and the three helpers that
    read them: `get_elem_type`, `get_option_value` and `get_option_text`.
    An element is abstracted to its tag name, its attributes, its text
    content, its child elements and its markup (`str(elem)`). */
module Elements {
  import opened Results
  import opened PyStr

  datatype Elem = Elem(
    name: string,
    attrs: map<string, string>,
    text: string,
    children: seq<Elem>,
    markup: string)

  /** What a dimension holds in `elem`: one element (a select or a
      checkbox), the list of radio inputs sharing a name, or nothing (the
      `measure` and `unit_id` dimensions). */
  datatype DimElem = Single(elem: Elem) | Group(elems: seq<Elem>) | NoElem

  /** `elem.get(key)`. */
  function Attr(e: Elem, key: string): Option<string> {
    if key in e.attrs then Some(e.attrs[key]) else None
  }

  /** All elements below those of `cs`, in document order. */
  function DescendantsOf(cs: seq<Elem>): seq<Elem>
    decreases cs
  {
    if cs == [] then []
    else
      assert cs[0] in cs;
      [cs[0]] + DescendantsOf(cs[0].children) + DescendantsOf(cs[1..])
  }

  /** What a CSS selection without combinators tests of one element:
      `[attr]`, `tag` or `[attr=value]`. */
  datatype Selector = HasAttribute(attr: string) | TagName(tag: string) | AttrIs(key: string, value: string)

  predicate Matches(e: Elem, sel: Selector) {
    match sel
    case HasAttribute(a) => a in e.attrs
    case TagName(t) => e.name == t
    case AttrIs(a, v) => a in e.attrs && e.attrs[a] == v
  }

  /** The first element of `es` that the selector matches. */
  function FirstMatch(es: seq<Elem>, sel: Selector): Option<Elem>
    decreases |es|
  {
    if es == [] then None
    else if Matches(es[0], sel) then Some(es[0])
    else FirstMatch(es[1..], sel)
  }

  /** The search finds the first matching element, and nothing exactly
      when none matches. */
  lemma {:induction false} FirstMatchSpec(es: seq<Elem>, sel: Selector)
    ensures var r := FirstMatch(es, sel);
      (r.None? <==> forall i :: 0 <= i < |es| ==> !Matches(es[i], sel))
      && (r.Some? ==> exists i :: (0 <= i < |es| && es[i] == r.value
           && Matches(es[i], sel) && forall j :: 0 <= j < i ==> !Matches(es[j], sel)))
    decreases |es|
  {
    if es != [] && !Matches(es[0], sel) {
      var tail := es[1..];
      FirstMatchSpec(tail, sel);
      assert forall i :: 0 <= i < |tail| ==> tail[i] == es[i + 1];
      var r := FirstMatch(tail, sel);
      if r.Some? {
        var i :| 0 <= i < |tail| && tail[i] == r.value && Matches(tail[i], sel)
          && forall j :: 0 <= j < i ==> !Matches(tail[j], sel);
        assert es[i + 1] == r.value && forall j :: 0 <= j < i + 1 ==> !Matches(es[j], sel);
      } else {
        assert forall i :: 0 <= i < |es| ==> !Matches(es[i], sel) by {
          forall i | 0 <= i < |es| ensures !Matches(es[i], sel) {
            if i > 0 { assert es[i] == tail[i - 1]; }
          }
        }
      }
    }
  }

  /** `elem.select_one(sel)`, and `elem.select(sel)[0]` when it exists:
      the first matching descendant, or `None`. */
  function SelectOne(e: Elem, sel: Selector): Option<Elem> {
    FirstMatch(DescendantsOf(e.children), sel)
  }

  /** `get_elem_type(elem)`. */
  function ElemType(d: DimElem): Result<string> {
    match d
    case Group(es) =>
      if es == [] then Err(IndexError("list index out of range"))
      else if Attr(es[0], "type") == Some("radio") then Ok("radio")
      else Err(ValueError("Unknown element type"))
    case Single(e) =>
      if e.name == "select" then Ok("select")
      else if e.name == "input" then
        match Attr(e, "type")
        case Some(t) => Ok(t)
        case None => Err(AssertionError("elem_type is not None"))
      else Err(ValueError("Unknown element type"))
    // A dimension without an element has no `elem` attribute to read.
    case NoElem => Err(AttributeError("elem"))
  }

  /** `get_option_value(elem)`: the `value` attribute, or the stripped text
      when there is none; an empty result raises ValueError, and a missing
      element (a selection that found nothing) raises AttributeError. */
  function OptionValue(o: Option<Elem>): Result<string> {
    match o
    case None => Err(AttributeError("'NoneType' object has no attribute 'get'"))
    case Some(e) =>
      var value := match Attr(e, "value") case Some(v) => v case None => Strip(e.text);
      if value == "" then Err(ValueError("Error parsing value")) else Ok(value)
  }

  /** `get_option_text(elem)`. */
  function OptionText(o: Option<Elem>): Result<string> {
    match o
    case None => Err(AttributeError("'NoneType' object has no attribute 'text'"))
    case Some(e) => Ok(Strip(e.text))
  }

  // ---------------------------------------------------------------- lemmas

  /** The element types `get_elem_type` reports, case by case: a non-empty
      list whose first input is a radio, a select, or an input with a
      `type` attribute; anything else raises. */
  lemma ElemTypeSpec(d: DimElem)
    ensures ElemType(d) == Ok("radio") <==>
      (d.Group? && |d.elems| > 0 && Attr(d.elems[0], "type") == Some("radio"))
      || (d.Single? && d.elem.name == "input" && Attr(d.elem, "type") == Some("radio"))
    ensures ElemType(d) == Ok("select") <==>
      (d.Single? && (d.elem.name == "select" || (d.elem.name == "input" && Attr(d.elem, "type") == Some("select"))))
    ensures ElemType(d).Ok? <==>
      (d.Group? && |d.elems| > 0 && Attr(d.elems[0], "type") == Some("radio"))
      || (d.Single? && (d.elem.name == "select" || (d.elem.name == "input" && "type" in d.elem.attrs)))
    ensures d.Group? && ElemType(d).Ok? ==> ElemType(d) == Ok("radio")
  {
  }

  /** Only the first input of a group is looked at. */
  lemma ElemTypeOfGroup(e: Elem, rest: seq<Elem>)
    ensures ElemType(Group([e] + rest)) == ElemType(Group([e]))
  {
  }

  /** What `get_option_value` returns: never empty; the `value` attribute
      when the option has one (even when the text differs), and otherwise
      the stripped text. */
  lemma OptionValueSpec(o: Option<Elem>)
    ensures OptionValue(o).Ok? ==> OptionValue(o).value != ""
    ensures OptionValue(o).Ok? <==>
      o.Some? && (if "value" in o.value.attrs then o.value.attrs["value"] != "" else Strip(o.value.text) != "")
    ensures o.Some? && "value" in o.value.attrs && o.value.attrs["value"] != "" ==>
      OptionValue(o) == Ok(o.value.attrs["value"])
    ensures o.Some? && "value" !in o.value.attrs && OptionValue(o).Ok? ==>
      OptionValue(o) == OptionText(o)
    ensures o.None? ==> OptionValue(o).error.AttributeError?
  {
  }

  /** `get_option_text` is stripped text and fails only on a missing
      element. */
  lemma OptionTextSpec(o: Option<Elem>)
    ensures OptionText(o).Ok? <==> o.Some?
    ensures OptionText(o).Ok? ==> Trimmed(OptionText(o).value)
  {
    if o.Some? {
      StripShape(o.value.text);
    }
  }
}
