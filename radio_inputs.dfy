/** `parse_radio_inputs`: the radio buttons of a form element are recovered
    from its markup with regular expressions (the markup is not well-formed
    enough for the HTML parser). Each `<input …>` tag yields its `value` and
    `id` captures and whether the word `checked` occurs in it; a tag whose
    value was already seen is skipped. */
module RadioInputs {
  import opened Results
  import opened PyStr

  /** One radio button: `(value, id, checked)`. */
  datatype Radio = Radio(value: string, id: string, checked: bool)

  const ValueKey: string := "value=\""
  const IdKey: string := "id=\""

  /** `pat` occurs in `s` at position `q`. */
  predicate MatchAt(s: string, pat: string, q: int) {
    0 <= q && q + |pat| <= |s| && s[q..q + |pat|] == pat
  }

  /** The first position at or after `p` where `pat` occurs, or `|s|`. */
  function FindFrom(s: string, pat: string, p: nat): (r: nat)
    requires |pat| > 0 && p <= |s|
    ensures p <= r <= |s|
    ensures r < |s| ==> r + |pat| <= |s|
    decreases |s| - p
  {
    if p + |pat| > |s| then |s|
    else if s[p..p + |pat|] == pat then p
    else FindFrom(s, pat, p + 1)
  }

  /** The position found is a match, there is no match between `p` and it,
      and there is none at all when the search reaches the end. */
  lemma {:induction false} FindFromSpec(s: string, pat: string, p: nat)
    requires |pat| > 0 && p <= |s|
    ensures FindFrom(s, pat, p) < |s| ==> MatchAt(s, pat, FindFrom(s, pat, p))
    ensures forall q :: p <= q < FindFrom(s, pat, p) ==> !MatchAt(s, pat, q)
    ensures FindFrom(s, pat, p) == |s| ==> forall q :: p <= q ==> !MatchAt(s, pat, q)
    decreases |s| - p
  {
    if p + |pat| <= |s| && s[p..p + |pat|] != pat {
      FindFromSpec(s, pat, p + 1);
    }
  }

  /** The next match of `<input[^>]*>` at or after `p`: where its `<input`
      starts and where its closing `>` is. */
  function NextTag(s: string, p: nat): (r: Option<(nat, nat)>)
    requires p <= |s|
    ensures r.Some? ==> p <= r.value.0 && r.value.0 + 6 <= r.value.1 < |s|
  {
    var i := FindFrom(s, "<input", p);
    if i == |s| then None
    else
      var j := FindFrom(s, ">", i + 6);
      if j == |s| then None else Some((i, j))
  }

  /** `re.findall(r'<input[^>]*>', s)` from position `p`: each match runs
      from a `<input` to the first `>` after it. */
  function InputTags(s: string, p: nat): seq<string>
    requires p <= |s|
    decreases |s| - p
  {
    match NextTag(s, p)
    case None => []
    case Some((i, j)) => [s[i..j + 1]] + InputTags(s, j + 1)
  }

  /** The greedy `\w+` run at the start of `t`. */
  function WordRun(t: string): (r: string)
    ensures |r| <= |t| && r == t[..|r|]
    ensures forall i :: 0 <= i < |r| ==> IsWordChar(r[i])
    ensures |r| < |t| ==> !IsWordChar(t[|r|])
    decreases |t|
  {
    if |t| > 0 && IsWordChar(t[0]) then [t[0]] + WordRun(t[1..]) else []
  }

  /** The pattern `key(\w+)"` matches at position `p` of `tag`. */
  predicate CaptureAt(tag: string, key: string, p: int) {
    MatchAt(tag, key, p)
    && var run := WordRun(tag[p + |key|..]);
    |run| > 0 && p + |key| + |run| < |tag| && tag[p + |key| + |run|] == '"'
  }

  /** The capture of the leftmost match of `key(\w+)"` at or after `p`. */
  function SearchCapture(tag: string, key: string, p: nat): Option<string>
    decreases |tag| - p
  {
    if p + |key| > |tag| then None
    else if CaptureAt(tag, key, p) then Some(WordRun(tag[p + |key|..]))
    else SearchCapture(tag, key, p + 1)
  }

  /** `re.findall(key + r'(\w+)"', tag)[0]`: the first capture, or an
      IndexError when there is none. */
  function FirstCapture(tag: string, key: string): Result<string> {
    match SearchCapture(tag, key, 0)
    case Some(v) => Ok(v)
    case None => Err(IndexError("list index out of range"))
  }

  /** One tag read as a radio button. */
  function ParseTag(tag: string): Result<Radio> {
    var value :- FirstCapture(tag, ValueKey);
    var id :- FirstCapture(tag, IdKey);
    Ok(Radio(value, id, Contains(tag, "checked")))
  }

  /** The tags read in order; the first that fails decides the error. */
  function ParseTags(tags: seq<string>): Result<seq<Radio>> {
    MapResult(tags, ParseTag)
  }

  function ValuesOf(rs: seq<Radio>): (r: seq<string>)
    ensures |r| == |rs| && forall i :: 0 <= i < |rs| ==> r[i] == rs[i].value
  {
    seq(|rs|, i requires 0 <= i < |rs| => rs[i].value)
  }

  /** The list grown by the loop, with `_values` as the seen values: a radio
      is appended unless its value is already there. */
  function Dedup(rs: seq<Radio>): seq<Radio>
    decreases |rs|
  {
    if rs == [] then []
    else
      var d := Dedup(rs[..|rs| - 1]);
      var r := rs[|rs| - 1];
      if HasValue(d, r.value) then d else d + [r]
  }

  /** Some radio of `d` has the value `v`. */
  predicate HasValue(d: seq<Radio>, v: string) {
    exists i :: 0 <= i < |d| && d[i].value == v
  }

  /** `parse_radio_inputs(elem)` on the markup `str(elem)`. */
  function RadioInputs(markup: string): Result<seq<Radio>> {
    var rs :- ParseTags(InputTags(markup, 0));
    Ok(Dedup(rs))
  }

  /** The loop of `parse_radio_inputs`, growing `data` and `_values`. */
  method ParseRadioInputs(markup: string) returns (r: Result<seq<Radio>>)
    ensures r == RadioInputs(markup)
  {
    var tags := InputTags(markup, 0);
    var data: seq<Radio> := [];
    var seen: seq<string> := [];
    var i := 0;
    while i < |tags|
      invariant 0 <= i <= |tags|
      invariant ParseTags(tags[..i]).Ok?
      invariant data == Dedup(ParseTags(tags[..i]).value)
      invariant seen == ValuesOf(data)
    {
      var tag := tags[i];
      var value := FirstCapture(tag, ValueKey);
      if value.Err? {
        MapResultSnoc(tags, ParseTag, i);
        MapResultKeepsError(tags, ParseTag, i + 1);
        return Err(value.error);
      }
      var id := FirstCapture(tag, IdKey);
      if id.Err? {
        MapResultSnoc(tags, ParseTag, i);
        MapResultKeepsError(tags, ParseTag, i + 1);
        return Err(id.error);
      }
      var checked := Contains(tag, "checked");
      var radio := Radio(value.value, id.value, checked);
      MapResultSnoc(tags, ParseTag, i);
      DedupSnoc(ParseTags(tags[..i]).value, radio);
      SeenValues(data, value.value);
      ValuesOfSnoc(data, radio);
      if value.value !in seen {
        data := data + [radio];
        seen := seen + [value.value];
      }
      i := i + 1;
    }
    assert tags[..|tags|] == tags;
    return Ok(data);
  }

  // ---------------------------------------------------------------- lemmas

  /** Reading the tags succeeds exactly when every tag has both a value and
      an id, and then gives one radio per tag, in order. */
  lemma ParseTagsSpec(tags: seq<string>)
    ensures ParseTags(tags).Ok? <==> forall k :: 0 <= k < |tags| ==> ParseTag(tags[k]).Ok?
    ensures ParseTags(tags).Ok? ==>
      |ParseTags(tags).value| == |tags|
      && forall k :: 0 <= k < |tags| ==> ParseTags(tags).value[k] == ParseTag(tags[k]).value
  {
    MapResultSpec(tags, ParseTag);
  }

  lemma DedupSnoc(rs: seq<Radio>, r: Radio)
    ensures Dedup(rs + [r]) == if HasValue(Dedup(rs), r.value) then Dedup(rs) else Dedup(rs) + [r]
  {
    assert (rs + [r])[..|rs|] == rs;
  }

  lemma ValuesOfSnoc(d: seq<Radio>, r: Radio)
    ensures ValuesOf(d + [r]) == ValuesOf(d) + [r.value]
  {
    assert forall i :: 0 <= i < |d| ==> (d + [r])[i] == d[i];
  }

  /** `_values` holds exactly the values of the radios kept so far. */
  lemma SeenValues(d: seq<Radio>, v: string)
    ensures v in ValuesOf(d) <==> HasValue(d, v)
  {
    if v in ValuesOf(d) {
      var i :| 0 <= i < |d| && ValuesOf(d)[i] == v;
    }
    if HasValue(d, v) {
      var i :| 0 <= i < |d| && d[i].value == v;
      assert ValuesOf(d)[i] == v;
    }
  }

  /** No two radios returned share a value. */
  lemma {:induction false} DedupDistinct(rs: seq<Radio>)
    ensures forall i, j :: 0 <= i < j < |Dedup(rs)| ==> Dedup(rs)[i].value != Dedup(rs)[j].value
    decreases |rs|
  {
    if rs != [] {
      DedupDistinct(rs[..|rs| - 1]);
    }
  }

  /** The radio at position `k` is the first with its value. */
  predicate IsFirst(rs: seq<Radio>, k: int)
    requires 0 <= k < |rs|
  {
    forall k' :: 0 <= k' < k ==> rs[k'].value != rs[k].value
  }

  /** Every radio kept comes from the input, and every value of the input
      is kept. */
  lemma DedupMembers(rs: seq<Radio>)
    ensures forall i :: 0 <= i < |Dedup(rs)| ==> Dedup(rs)[i] in rs
    ensures forall k :: 0 <= k < |rs| ==> HasValue(Dedup(rs), rs[k].value)
  {
    DedupFromInput(rs);
    DedupCoversValues(rs);
  }

  lemma {:induction false} DedupFromInput(rs: seq<Radio>)
    ensures forall i :: 0 <= i < |Dedup(rs)| ==> Dedup(rs)[i] in rs
    decreases |rs|
  {
    if rs != [] {
      var init := rs[..|rs| - 1];
      var r := rs[|rs| - 1];
      assert rs == init + [r];
      DedupFromInput(init);
      DedupSnoc(init, r);
      var d0 := Dedup(init);
      var d := Dedup(rs);
      forall i | 0 <= i < |d| ensures d[i] in rs {
        if i < |d0| {
          assert d[i] == d0[i] && d0[i] in init;
        }
      }
    } else {
      assert Dedup(rs) == [];
    }
  }

  lemma {:induction false} DedupCoversValues(rs: seq<Radio>)
    ensures forall k :: 0 <= k < |rs| ==> HasValue(Dedup(rs), rs[k].value)
    decreases |rs|
  {
    if rs != [] {
      var init := rs[..|rs| - 1];
      var r := rs[|rs| - 1];
      assert rs == init + [r];
      DedupCoversValues(init);
      DedupSnoc(init, r);
      var d0 := Dedup(init);
      var d := Dedup(rs);
      forall k | 0 <= k < |rs| ensures HasValue(d, rs[k].value) {
        if k < |init| {
          assert rs[k] == init[k];
          HasValueGrow(d0, d, init[k].value);
        } else if !HasValue(d0, r.value) {
          assert d[|d0|] == r;
        }
      }
    }
  }

  lemma HasValueGrow(d0: seq<Radio>, d: seq<Radio>, v: string)
    requires d0 <= d && HasValue(d0, v)
    ensures HasValue(d, v)
  {
    var i :| 0 <= i < |d0| && d0[i].value == v;
    assert d[i] == d0[i];
  }

  /** A value missing from `Dedup(init)` occurs nowhere in `init`. */
  lemma NewValue(init: seq<Radio>, v: string)
    requires !HasValue(Dedup(init), v)
    ensures forall k :: 0 <= k < |init| ==> init[k].value != v
  {
    DedupMembers(init);
  }

  /** Appending a radio does not change which earlier radios come first. */
  lemma IsFirstPrefix(init: seq<Radio>, r: Radio, k: nat)
    requires k < |init|
    ensures IsFirst(init + [r], k) <==> IsFirst(init, k)
  {
    assert forall k' :: 0 <= k' <= k ==> (init + [r])[k'] == init[k'];
  }

  /** Every radio kept is the first occurrence of its value, and every
      first occurrence is kept. */
  lemma {:induction false} DedupFirsts(rs: seq<Radio>)
    ensures forall i :: 0 <= i < |Dedup(rs)| ==>
      exists k :: 0 <= k < |rs| && rs[k] == Dedup(rs)[i] && IsFirst(rs, k)
    ensures forall k :: 0 <= k < |rs| && IsFirst(rs, k) ==> rs[k] in Dedup(rs)
    decreases |rs|
  {
    DedupKeepsFirsts(rs);
    if rs != [] {
      var init := rs[..|rs| - 1];
      var r := rs[|rs| - 1];
      assert rs == init + [r];
      DedupFirsts(init);
      DedupSnoc(init, r);
      var d0 := Dedup(init);
      var d := Dedup(rs);
      forall i | 0 <= i < |d|
        ensures exists k :: 0 <= k < |rs| && rs[k] == d[i] && IsFirst(rs, k)
      {
        if i < |d0| {
          var k :| 0 <= k < |init| && init[k] == d0[i] && IsFirst(init, k);
          IsFirstPrefix(init, r, k);
          assert rs[k] == d[i];
        } else {
          NewValue(init, r.value);
          assert rs[|rs| - 1] == d[i];
          assert IsFirst(rs, |rs| - 1);
        }
      }
    } else {
      assert Dedup(rs) == [];
    }
  }

  lemma {:induction false} DedupKeepsFirsts(rs: seq<Radio>)
    ensures forall k :: 0 <= k < |rs| && IsFirst(rs, k) ==> rs[k] in Dedup(rs)
    decreases |rs|
  {
    if rs != [] {
      var init := rs[..|rs| - 1];
      var r := rs[|rs| - 1];
      assert rs == init + [r];
      DedupKeepsFirsts(init);
      DedupSnoc(init, r);
      var d0 := Dedup(init);
      var d := Dedup(rs);
      forall k | 0 <= k < |rs| && IsFirst(rs, k) ensures rs[k] in d {
        if k < |init| {
          IsFirstPrefix(init, r, k);
          assert rs[k] == init[k];
          assert init[k] in d0;
        } else {
          DedupMembers(init);
        }
      }
    }
  }

  /** The radios of the first `n` tags come first, in the same order: the
      result lists values in the order of their first appearance. */
  lemma {:induction false} DedupPrefix(rs: seq<Radio>, n: nat)
    requires n <= |rs|
    ensures Dedup(rs[..n]) <= Dedup(rs)
    decreases |rs| - n
  {
    if n < |rs| {
      DedupPrefix(rs, n + 1);
      assert rs[..n + 1] == rs[..n] + [rs[n]];
      DedupSnoc(rs[..n], rs[n]);
    } else {
      assert rs[..n] == rs;
    }
  }

  /** `parse_radio_inputs` succeeds exactly when every `<input …>` tag has a
      `value="…"` and an `id="…"` capture. */
  lemma RadioInputsOk(markup: string)
    ensures RadioInputs(markup).Ok? <==>
      forall k :: 0 <= k < |InputTags(markup, 0)| ==> ParseTag(InputTags(markup, 0)[k]).Ok?
  {
    ParseTagsSpec(InputTags(markup, 0));
    assert RadioInputs(markup).Ok? <==> ParseTags(InputTags(markup, 0)).Ok?;
  }

  /** On success the values are pairwise distinct, each entry is the first
      tag of its value, and every tag's value is present. */
  lemma RadioInputsSpec(markup: string)
    requires RadioInputs(markup).Ok?
    ensures var tags := InputTags(markup, 0);
      var rs := ParseTags(tags).value;
      var d := RadioInputs(markup).value;
      |rs| == |tags|
      && (forall k :: 0 <= k < |tags| ==> ParseTag(tags[k]) == Ok(rs[k]))
      && (forall i, j :: 0 <= i < j < |d| ==> d[i].value != d[j].value)
      && (forall i :: 0 <= i < |d| ==> exists k :: 0 <= k < |rs| && rs[k] == d[i] && IsFirst(rs, k))
      && (forall k :: 0 <= k < |rs| ==> HasValue(d, rs[k].value))
  {
    var tags := InputTags(markup, 0);
    ParseTagsSpec(tags);
    var rs := ParseTags(tags).value;
    DedupDistinct(rs);
    DedupFirsts(rs);
    DedupMembers(rs);
  }

  lemma CharMatch(s: string, c: char, q: int)
    ensures MatchAt(s, [c], q) <==> 0 <= q < |s| && s[q] == c
  {
    if 0 <= q < |s| {
      assert s[q..q + 1] == [s[q]];
    }
  }

  /** `<input` up to the first `>` after it. */
  predicate TagShaped(t: string) {
    StartsWith(t, "<input") && t[|t| - 1] == '>' && '>' !in t[..|t| - 1]
  }

  /** One scanned tag has that shape. */
  lemma TagShape(s: string, i: nat, j: nat)
    requires MatchAt(s, "<input", i) && i + 6 <= j < |s|
    requires forall q :: i + 6 <= q < j ==> !MatchAt(s, ">", q)
    requires MatchAt(s, ">", j)
    ensures TagShaped(s[i..j + 1])
  {
    var t := s[i..j + 1];
    assert t[..6] == s[i..i + 6];
    CharMatch(s, '>', j);
    forall m | 0 <= m < |t| - 1 ensures t[m] != '>' {
      if m >= 6 {
        CharMatch(s, '>', i + m);
      } else {
        assert t[m] == "<input"[m];
      }
    }
  }

  /** Every scanned tag starts with `<input` and ends at the first `>`. */
  lemma {:induction false} InputTagsShape(s: string, p: nat)
    requires p <= |s|
    ensures forall m :: 0 <= m < |InputTags(s, p)| ==> TagShaped(InputTags(s, p)[m])
    decreases |s| - p
  {
    match NextTag(s, p)
    case None =>
      assert InputTags(s, p) == [];
    case Some((i, j)) =>
      InputTagsShape(s, j + 1);
      InputTagsShapeStep(s, p, i, j, InputTags(s, j + 1));
  }

  lemma InputTagsShapeStep(s: string, p: nat, i: nat, j: nat, rest: seq<string>)
    requires p <= |s| && NextTag(s, p) == Some((i, j))
    requires rest == InputTags(s, j + 1) && forall m :: 0 <= m < |rest| ==> TagShaped(rest[m])
    ensures forall m :: 0 <= m < |InputTags(s, p)| ==> TagShaped(InputTags(s, p)[m])
  {
    InputTagsCons(s, p, i, j);
    assert i == FindFrom(s, "<input", p) && j == FindFrom(s, ">", i + 6);
    FindFromSpec(s, "<input", p);
    FindFromSpec(s, ">", i + 6);
    TagShape(s, i, j);
    ShapedCons(s[i..j + 1], rest, InputTags(s, p));
  }

  /** A `<input` at `i` closed by a `>` at `j` is the first tag found. */
  lemma InputTagsCons(s: string, p: nat, i: nat, j: nat)
    requires p <= |s| && NextTag(s, p) == Some((i, j))
    ensures InputTags(s, p) == [s[i..j + 1]] + InputTags(s, j + 1)
  {
  }

  lemma ShapedCons(t: string, rest: seq<string>, tags: seq<string>)
    requires tags == [t] + rest && TagShaped(t)
    requires forall m :: 0 <= m < |rest| ==> TagShaped(rest[m])
    ensures forall m :: 0 <= m < |tags| ==> TagShaped(tags[m])
  {
    forall m | 0 <= m < |tags| ensures TagShaped(tags[m]) {
      if m > 0 {
        assert tags[m] == rest[m - 1];
      }
    }
  }

  lemma {:induction false} SearchCaptureSpec(tag: string, key: string, p: nat)
    ensures SearchCapture(tag, key, p).None? <==> forall q :: p <= q ==> !CaptureAt(tag, key, q)
    ensures SearchCapture(tag, key, p).Some? ==>
      exists q :: p <= q && CaptureAt(tag, key, q)
        && (forall q' :: p <= q' < q ==> !CaptureAt(tag, key, q'))
        && SearchCapture(tag, key, p).value == WordRun(tag[q + |key|..])
    decreases |tag| - p
  {
    if p + |key| > |tag| {
    } else if CaptureAt(tag, key, p) {
    } else {
      SearchCaptureSpec(tag, key, p + 1);
      if SearchCapture(tag, key, p).Some? {
        var q :| p + 1 <= q && CaptureAt(tag, key, q)
          && (forall q' :: p + 1 <= q' < q ==> !CaptureAt(tag, key, q'))
          && SearchCapture(tag, key, p + 1).value == WordRun(tag[q + |key|..]);
        assert forall q' :: p <= q' < q ==> !CaptureAt(tag, key, q');
      } else {
        assert forall q :: p <= q ==> !CaptureAt(tag, key, q);
      }
    }
  }

  /** The capture is the non-empty word run of the leftmost `key…"` match,
      and an IndexError is raised exactly when there is no match. */
  lemma FirstCaptureSpec(tag: string, key: string)
    ensures FirstCapture(tag, key).Err? <==> forall q :: !CaptureAt(tag, key, q)
    ensures FirstCapture(tag, key).Ok? ==>
      exists q :: CaptureAt(tag, key, q)
        && (forall q' :: q' < q ==> !CaptureAt(tag, key, q'))
        && FirstCapture(tag, key).value == WordRun(tag[q + |key|..])
        && |FirstCapture(tag, key).value| > 0
  {
    SearchCaptureSpec(tag, key, 0);
  }
}
