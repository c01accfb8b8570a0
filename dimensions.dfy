/** `VantetiderDimension` with its memoised `elem_type` and `default_value`,
    and `_get_current_selection`, which reads the selected category of every
    dimension from a result page. */
module Dimensions {
  import opened Results
  import opened Elements
  import opened RadioInputs
  import opened DictRecords
  import opened PyStr

  /** A dimension of a dataset: its id, the name of the form field it is
      read from, and its form elements. */
  datatype DimensionInfo = DimensionInfo(id: string, elemId: string, elem: DimElem)

  /** Dimensions that have no form field. */
  const NoQueryDims: seq<string> := ["measure", "unit_id"]

  /** The items iterated by `for x in self.elem`: the inputs of a radio
      group, or the child elements of a single element. */
  function Items(d: DimElem): seq<Elem> {
    match d
    case Group(es) => es
    case Single(e) => e.children
    case NoElem => []
  }

  /** The default before the `def_value is not None` assertion: for a
      select the value of the first `[selected]` option, or of the first
      option when there is none; for a checkbox its `value` attribute; for a
      radio group the `value` of its first checked input. Another element
      type leaves `def_value` unbound. */
  function RawDefault(d: DimElem): Result<Option<string>> {
    var t :- ElemType(d);
    if t == "select" then
      var selected := OptionValue(SelectOne(d.elem, HasAttribute("selected")));
      if selected.Err? && selected.error.AttributeError? then
        var v :- OptionValue(SelectOne(d.elem, TagName("option")));
        Ok(Some(v))
      else
        var v :- selected;
        Ok(Some(v))
    else if t == "checkbox" then Ok(Attr(d.elem, "value"))
    else if t == "radio" then
      match FirstMatch(Items(d), HasAttribute("checked"))
      case None => Err(IndexError("list index out of range"))
      case Some(x) => Ok(Attr(x, "value"))
    else Err(UnboundLocalError("def_value"))
  }

  /** `default_value` on its first read. */
  function DefaultValue(d: DimElem): Result<string> {
    var v :- RawDefault(d);
    if v.None? then Err(AssertionError("def_value is not None")) else Ok(v.value)
  }

  /** A dimension with its two memoised properties. */
  class Dimension {
    const info: DimensionInfo
    var elemTypeCache: Option<string>
    var defaultCache: Option<Option<string>>

    /** What the caches hold once set. */
    ghost predicate Valid()
      reads this
    {
      (elemTypeCache.Some? ==> ElemType(info.elem) == Ok(elemTypeCache.value))
      && (defaultCache.Some? ==> RawDefault(info.elem) == Ok(defaultCache.value))
    }

    constructor (info: DimensionInfo)
      ensures this.info == info && elemTypeCache.None? && defaultCache.None? && Valid()
    {
      this.info := info;
      elemTypeCache := None;
      defaultCache := None;
    }

    /** `elem_type`: computed on first use; a failure is not cached. */
    method ElementType() returns (r: Result<string>)
      requires Valid()
      modifies this
      ensures Valid() && defaultCache == old(defaultCache)
      ensures r == ElemType(info.elem)
      ensures r.Ok? ==> elemTypeCache == Some(r.value)
      ensures r.Err? ==> elemTypeCache == old(elemTypeCache)
    {
      if elemTypeCache.Some? {
        return Ok(elemTypeCache.value);
      }
      r := ElemType(info.elem);
      if r.Ok? {
        elemTypeCache := Some(r.value);
      }
    }

    /** `default_value`: on first use it reads `elem_type` (filling that
        cache) and caches the default, even a missing one, before asserting
        that it is present; later reads return the cache without the
        assertion. */
    method Default() returns (r: Result<Option<string>>)
      requires Valid()
      modifies this
      ensures Valid()
      ensures old(defaultCache).Some? ==>
        r == Ok(old(defaultCache).value) && defaultCache == old(defaultCache) && elemTypeCache == old(elemTypeCache)
      ensures old(defaultCache).None? ==>
        elemTypeCache == if ElemType(info.elem).Ok? then Some(ElemType(info.elem).value) else old(elemTypeCache)
      ensures old(defaultCache).None? ==>
        (r.Ok? <==> DefaultValue(info.elem).Ok?)
        && (r.Ok? ==> r.value == Some(DefaultValue(info.elem).value))
        && (r.Err? ==> r.error == DefaultValue(info.elem).error)
      ensures old(defaultCache).None? ==>
        defaultCache == if RawDefault(info.elem).Ok? then Some(RawDefault(info.elem).value) else None
    {
      if defaultCache.Some? {
        return Ok(defaultCache.value);
      }
      var t := ElementType();
      if t.Err? {
        return Err(t.error);
      }
      var raw := RawDefault(info.elem);
      if raw.Err? {
        return Err(raw.error);
      }
      defaultCache := Some(raw.value);
      if raw.value.None? {
        return Err(AssertionError("def_value is not None"));
      }
      return Ok(raw.value);
    }
  }

  // ---------------------------------------------------- current selection

  /** The selected category and its label, per dimension id. */
  type Selection = map<string, (Field, Field)>

  /** The last checked radio: the one the selection loop keeps. */
  function LastChecked(rs: seq<Radio>): Option<Radio>
    decreases |rs|
  {
    if rs == [] then None
    else if rs[|rs| - 1].checked then Some(rs[|rs| - 1])
    else LastChecked(rs[..|rs| - 1])
  }

  /** The search finds the last checked radio, and nothing exactly when
      none is checked. */
  lemma {:induction false} LastCheckedSpec(rs: seq<Radio>)
    ensures var r := LastChecked(rs);
      (r.None? <==> forall i :: 0 <= i < |rs| ==> !rs[i].checked)
      && (r.Some? ==> exists i :: (0 <= i < |rs| && rs[i] == r.value && rs[i].checked
           && forall j :: i < j < |rs| ==> !rs[j].checked))
    decreases |rs|
  {
    if rs != [] && !rs[|rs| - 1].checked {
      var init := rs[..|rs| - 1];
      LastCheckedSpec(init);
      assert forall i :: 0 <= i < |init| ==> init[i] == rs[i];
    }
  }

  /** `(get_option_value(o), get_option_text(o))`. */
  function OptionPair(o: Option<Elem>): Result<(Field, Field)> {
    var v :- OptionValue(o);
    var l :- OptionText(o);
    Ok((Text(v), Text(l)))
  }

  /** The selected option of a select, falling back to its first option
      when finding the selected one raises AttributeError. */
  function SelectedOption(e: Elem): Result<(Field, Field)> {
    var tried := OptionPair(SelectOne(e, HasAttribute("selected")));
    if tried.Err? && tried.error.AttributeError? then OptionPair(SelectOne(e, TagName("option")))
    else tried
  }

  /** The pair a dimension gets from the page. `prev` is the pair the loop
      left in its variables, kept for an element type none of the branches
      handles. */
  function SelectionOf(d: DimensionInfo, page: Elem, prev: Option<(Field, Field)>): Result<(Field, Field)> {
    match SelectOne(page, AttrIs("name", d.elemId))
    case None => Err(DebugException)
    case Some(e) =>
      var t :- ElemType(d.elem);
      if t == "select" then SelectedOption(e)
      else if t == "radio" then
        var rs :- RadioInputs.RadioInputs(e.markup);
        match LastChecked(rs)
        case None => Err(AssertionError("selected_cat is not None"))
        case Some(r) => Ok((Text(r.value), Text(r.id)))
      else if t == "checkbox" then Ok((Flag("checked" in e.attrs), Flag("checked" in e.attrs)))
      else
        match prev
        case None => Err(UnboundLocalError("selected_cat"))
        case Some(p) => Ok(p)
  }

  /** The selection after the first `n` dimensions, with the pair left in
      the loop's variables. */
  function SelectionUpTo(dims: seq<DimensionInfo>, page: Elem, n: nat): Result<(Selection, Option<(Field, Field)>)>
    requires n <= |dims|
  {
    if n == 0 then Ok((map[], None))
    else
      var acc :- SelectionUpTo(dims, page, n - 1);
      SelectionAdd(acc, dims[n - 1], page)
  }

  /** One turn of the loop: a dimension with a form field records its pair
      and leaves it in the loop's variables. */
  function SelectionAdd(acc: (Selection, Option<(Field, Field)>), d: DimensionInfo, page: Elem): Result<(Selection, Option<(Field, Field)>)> {
    if d.id in NoQueryDims then Ok(acc)
    else
      var p :- SelectionOf(d, page, acc.1);
      Ok((acc.0[d.id := p], Some(p)))
  }

  /** `_get_current_selection(html)`. */
  function CurrentSelection(dims: seq<DimensionInfo>, page: Elem): Result<Selection> {
    var acc :- SelectionUpTo(dims, page, |dims|);
    Ok(acc.0)
  }

  /** The loop over the radios that keeps the last checked one. */
  method LastCheckedRadio(rs: seq<Radio>) returns (r: Option<Radio>)
    ensures r == LastChecked(rs)
  {
    r := None;
    var i := 0;
    while i < |rs|
      invariant 0 <= i <= |rs|
      invariant r == LastChecked(rs[..i])
    {
      assert rs[..i + 1][..i] == rs[..i];
      if rs[i].checked {
        r := Some(rs[i]);
      }
      i := i + 1;
    }
    assert rs[..|rs|] == rs;
  }

  method SelectionStep(d: DimensionInfo, page: Elem, prev: Option<(Field, Field)>) returns (r: Result<(Field, Field)>)
    ensures r == SelectionOf(d, page, prev)
  {
    var found := SelectOne(page, AttrIs("name", d.elemId));
    if found.None? {
      return Err(DebugException);
    }
    var e := found.value;
    var t := ElemType(d.elem);
    if t.Err? {
      return Err(t.error);
    }
    if t.value == "select" {
      r := SelectedOption(e);
    } else if t.value == "radio" {
      var rs := ParseRadioInputs(e.markup);
      if rs.Err? {
        return Err(rs.error);
      }
      var checked := LastCheckedRadio(rs.value);
      if checked.None? {
        return Err(AssertionError("selected_cat is not None"));
      }
      r := Ok((Text(checked.value.value), Text(checked.value.id)));
    } else if t.value == "checkbox" {
      var b := "checked" in e.attrs;
      r := Ok((Flag(b), Flag(b)));
    } else if prev.None? {
      r := Err(UnboundLocalError("selected_cat"));
    } else {
      r := Ok(prev.value);
    }
  }

  method GetCurrentSelection(dims: seq<DimensionInfo>, page: Elem) returns (r: Result<Selection>)
    ensures r == CurrentSelection(dims, page)
  {
    var selection: Selection := map[];
    var prev: Option<(Field, Field)> := None;
    var i := 0;
    while i < |dims|
      invariant 0 <= i <= |dims|
      invariant SelectionUpTo(dims, page, i) == Ok((selection, prev))
    {
      var next := SelectionTurn(dims, page, i, selection, prev);
      if next.Err? {
        SelectionKeepsError(dims, page, i + 1, |dims|);
        CurrentSelectionOf(dims, page);
        return Err(next.error);
      }
      selection, prev := next.value.0, next.value.1;
      i := i + 1;
    }
    CurrentSelectionOf(dims, page);
    return Ok(selection);
  }

  /** One turn of the loop: a dimension with a form field records its pair
      and leaves it in `prev`. */
  method SelectionTurn(dims: seq<DimensionInfo>, page: Elem, i: nat, selection: Selection, prev: Option<(Field, Field)>)
    returns (r: Result<(Selection, Option<(Field, Field)>)>)
    requires i < |dims| && SelectionUpTo(dims, page, i) == Ok((selection, prev))
    ensures r == SelectionUpTo(dims, page, i + 1)
  {
    var d := dims[i];
    if d.id in NoQueryDims {
      return Ok((selection, prev));
    }
    var p := SelectionStep(d, page, prev);
    SelectionNext(dims, page, i, selection, prev, p);
    if p.Err? {
      return Err(p.error);
    }
    return Ok((selection[d.id := p.value], Some(p.value)));
  }

  // ---------------------------------------------------------------- lemmas

  /** One turn of the loop for a dimension with a form field. */
  lemma SelectionNext(dims: seq<DimensionInfo>, page: Elem, i: nat, sel: Selection, prev: Option<(Field, Field)>,
                      p: Result<(Field, Field)>)
    requires i < |dims| && SelectionUpTo(dims, page, i) == Ok((sel, prev))
    requires dims[i].id !in NoQueryDims && p == SelectionOf(dims[i], page, prev)
    ensures p.Ok? ==> SelectionUpTo(dims, page, i + 1) == Ok((sel[dims[i].id := p.value], Some(p.value)))
    ensures p.Err? ==> SelectionUpTo(dims, page, i + 1) == Err(p.error)
  {
  }

  /** The selection is the map the loop builds over all dimensions, and
      fails as that loop does. */
  lemma CurrentSelectionOf(dims: seq<DimensionInfo>, page: Elem)
    ensures SelectionUpTo(dims, page, |dims|).Ok? ==>
      CurrentSelection(dims, page) == Ok(SelectionUpTo(dims, page, |dims|).value.0)
    ensures SelectionUpTo(dims, page, |dims|).Err? ==>
      CurrentSelection(dims, page) == Err(SelectionUpTo(dims, page, |dims|).error)
  {
  }

  lemma {:induction false} SelectionKeepsError(dims: seq<DimensionInfo>, page: Elem, n: nat, m: nat)
    requires n <= m <= |dims| && SelectionUpTo(dims, page, n).Err?
    ensures SelectionUpTo(dims, page, m) == SelectionUpTo(dims, page, n)
    decreases m - n
  {
    if n < m {
      SelectionKeepsError(dims, page, n, m - 1);
    }
  }

  /** The selection has an entry for exactly the dimensions that have a
      form field. */
  lemma {:induction false} SelectionKeys(dims: seq<DimensionInfo>, page: Elem, n: nat)
    requires n <= |dims|
    ensures SelectionUpTo(dims, page, n).Ok? ==>
      SelectionUpTo(dims, page, n).value.0.Keys == set i | 0 <= i < n && dims[i].id !in NoQueryDims :: dims[i].id
  {
    if n > 0 {
      SelectionKeys(dims, page, n - 1);
      var s := SelectionUpTo(dims, page, n);
      if s.Ok? {
        var before := set i | 0 <= i < n - 1 && dims[i].id !in NoQueryDims :: dims[i].id;
        var after := set i | 0 <= i < n && dims[i].id !in NoQueryDims :: dims[i].id;
        if dims[n - 1].id in NoQueryDims {
          assert after == before;
        } else {
          assert after == before + {dims[n - 1].id};
        }
      }
    }
  }

  /** A radio dimension's selection is the last checked input of the page
      element's markup; with none checked, the assertion fails. */
  lemma RadioSelectionIsLastChecked(d: DimensionInfo, page: Elem, prev: Option<(Field, Field)>, e: Elem, rs: seq<Radio>)
    requires SelectOne(page, AttrIs("name", d.elemId)) == Some(e)
    requires ElemType(d.elem) == Ok("radio") && RadioInputs.RadioInputs(e.markup) == Ok(rs)
    ensures (forall i :: 0 <= i < |rs| ==> !rs[i].checked) ==>
      SelectionOf(d, page, prev) == Err(AssertionError("selected_cat is not None"))
    ensures forall i :: 0 <= i < |rs| && rs[i].checked && (forall j :: i < j < |rs| ==> !rs[j].checked) ==>
      SelectionOf(d, page, prev) == Ok((Text(rs[i].value), Text(rs[i].id)))
  {
    LastCheckedSpec(rs);
    forall i | 0 <= i < |rs| && rs[i].checked && (forall j :: i < j < |rs| ==> !rs[j].checked)
      ensures LastChecked(rs) == Some(rs[i])
    {
      var k :| 0 <= k < |rs| && rs[k] == LastChecked(rs).value && rs[k].checked
        && forall j :: k < j < |rs| ==> !rs[j].checked;
      assert k == i;
    }
  }

  /** A radio group's default is the `value` of its first checked input. */
  lemma RadioDefaultIsFirstChecked(es: seq<Elem>)
    requires |es| > 0 && Attr(es[0], "type") == Some("radio")
    ensures (forall i :: 0 <= i < |es| ==> "checked" !in es[i].attrs) ==>
      DefaultValue(Group(es)) == Err(IndexError("list index out of range"))
    ensures forall i :: 0 <= i < |es| && "checked" in es[i].attrs && (forall j :: 0 <= j < i ==> "checked" !in es[j].attrs) ==>
      RawDefault(Group(es)) == Ok(Attr(es[i], "value"))
  {
    FirstMatchSpec(es, HasAttribute("checked"));
    var m := FirstMatch(es, HasAttribute("checked"));
    forall i | 0 <= i < |es| && "checked" in es[i].attrs && (forall j :: 0 <= j < i ==> "checked" !in es[j].attrs)
      ensures m == Some(es[i])
    {
      var k :| 0 <= k < |es| && es[k] == m.value && Matches(es[k], HasAttribute("checked"))
        && forall j :: 0 <= j < k ==> !Matches(es[j], HasAttribute("checked"));
      assert k == i;
    }
  }

  /** A radio group whose inputs are the radios of the page's field, with
      `i` the first checked one and `j` a later, last checked one: the
      default is the value of radio `i`, the selection that of radio `j`,
      and the two values differ. */
  lemma RadioDefaultAndSelectionDiffer(d: DimensionInfo, page: Elem, prev: Option<(Field, Field)>, e: Elem,
                                       es: seq<Elem>, rs: seq<Radio>, i: nat, j: nat)
    requires d.elem == Group(es) && |es| > 0 && Attr(es[0], "type") == Some("radio")
    requires SelectOne(page, AttrIs("name", d.elemId)) == Some(e)
    requires RadioInputs.RadioInputs(e.markup) == Ok(rs) && |es| == |rs|
    requires forall k :: 0 <= k < |rs| ==>
      Attr(es[k], "value") == Some(rs[k].value) && ("checked" in es[k].attrs <==> rs[k].checked)
    requires i < j < |rs| && rs[i].checked && rs[j].checked
    requires forall k :: 0 <= k < i ==> !rs[k].checked
    requires forall k :: j < k < |rs| ==> !rs[k].checked
    ensures DefaultValue(d.elem) == Ok(rs[i].value)
    ensures SelectionOf(d, page, prev) == Ok((Text(rs[j].value), Text(rs[j].id)))
    ensures rs[i].value != rs[j].value
  {
    RadioDefaultIsFirstChecked(es);
    assert RawDefault(Group(es)) == Ok(Some(rs[i].value));
    RadioSelectionIsLastChecked(d, page, prev, e, rs);
    RadioInputsSpec(e.markup);
  }

  /** A select reads the same option for its default and for its current
      selection, and both fail together. */
  lemma SelectDefaultIsSelection(e: Elem)
    requires e.name == "select"
    ensures DefaultValue(Single(e)).Ok? <==> SelectedOption(e).Ok?
    ensures DefaultValue(Single(e)).Ok? ==>
      SelectedOption(e).value == (Text(DefaultValue(Single(e)).value), Text(Strip(OptionSource(e).text)))
    ensures DefaultValue(Single(e)).Err? ==> DefaultValue(Single(e)).error == SelectedOption(e).error
  {
    var so := SelectOne(e, HasAttribute("selected"));
    var fo := SelectOne(e, TagName("option"));
    assert ElemType(Single(e)) == Ok("select");
    OptionPairOfValue(so);
    OptionPairOfValue(fo);
    if OptionValue(so).Err? && OptionValue(so).error.AttributeError? {
      assert RawDefault(Single(e)) == (var v :- OptionValue(fo); Ok(Some(v)));
    } else {
      assert RawDefault(Single(e)) == (var v :- OptionValue(so); Ok(Some(v)));
    }
  }

  /** The pair of an option fails exactly when its value does, with the same
      error; otherwise it is the value with the stripped text. */
  lemma OptionPairOfValue(o: Option<Elem>)
    ensures OptionPair(o).Ok? <==> OptionValue(o).Ok?
    ensures OptionPair(o).Err? ==> OptionPair(o).error == OptionValue(o).error
    ensures OptionPair(o).Ok? ==> OptionPair(o).value == (Text(OptionValue(o).value), Text(Strip(o.value.text)))
  {
  }

  /** The option both read: the first `[selected]` one, or else the first
      option. */
  function OptionSource(e: Elem): Elem
    requires SelectOne(e, HasAttribute("selected")).Some? || SelectOne(e, TagName("option")).Some?
  {
    match SelectOne(e, HasAttribute("selected"))
    case Some(o) => o
    case None => SelectOne(e, TagName("option")).value
  }

  /** A checkbox is selected as a pair of equal flags: whether the page's
      element is checked. */
  lemma CheckboxSelection(d: DimensionInfo, page: Elem, prev: Option<(Field, Field)>, e: Elem)
    requires SelectOne(page, AttrIs("name", d.elemId)) == Some(e)
    requires ElemType(d.elem) == Ok("checkbox")
    ensures SelectionOf(d, page, prev) == Ok((Flag("checked" in e.attrs), Flag("checked" in e.attrs)))
  {
  }

  /** A field absent from the page raises before the element type is
      looked at. */
  lemma MissingFieldRaises(d: DimensionInfo, page: Elem, prev: Option<(Field, Field)>)
    requires SelectOne(page, AttrIs("name", d.elemId)).None?
    ensures SelectionOf(d, page, prev) == Err(DebugException)
  {
  }
}
