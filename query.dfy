/** The query expansion of `_fetch_data`: a query is checked for
    dimensions that cannot be queried, every form dimension gets the list of
    values asked for (or its default), the lists are multiplied out in
    dimension order, and each combination becomes the payload and URL of one
    result-page request. */
module QueryExpansion {
  import opened Results
  import opened Sheets
  import opened Dimensions
  import opened Regions

  /** What a query asks of one dimension: one value, or a list of them. */
  datatype QueryValue = One(value: string) | Many(values: seq<string>)

  type Query = map<string, QueryValue>

  /** The form fields posted for one result page. */
  type Payload = map<string, string>

  /** One call of `_parse_result_page(url, payload, only_region, region)`. */
  datatype Request = Request(url: string, payload: Payload, onlyRegion: bool, region: string)

  /** Dimensions a query may not name, in the order they are checked. */
  const NotImplementedDims: seq<string> := ["unit", "services"]

  function NotImplemented(id: string): Error {
    NotImplementedError("Querying by " + id + " is not implemented.")
  }

  /** The error for the first dimension of `ids` that the query names. */
  function FirstRejected(ids: seq<string>, query: Query): (r: Option<Error>)
    ensures r.None? <==> forall i :: 0 <= i < |ids| ==> ids[i] !in query
    ensures r.Some? ==> exists i :: (0 <= i < |ids| && ids[i] in query && r == Some(NotImplemented(ids[i]))
      && forall j :: 0 <= j < i ==> ids[j] !in query)
    decreases |ids|
  {
    if ids == [] then None
    else if ids[0] in query then Some(NotImplemented(ids[0]))
    else
      var r := FirstRejected(ids[1..], query);
      assert forall i :: 0 <= i < |ids| - 1 ==> ids[1..][i] == ids[i + 1];
      r
  }

  /** A query naming `unit` is refused for `unit`; one naming `services`
      but not `unit` is refused for `services`; any other passes. */
  function Rejection(query: Query): (r: Option<Error>)
    ensures "unit" in query ==> r == Some(NotImplemented("unit"))
    ensures "unit" !in query && "services" in query ==> r == Some(NotImplemented("services"))
    ensures r.None? <==> "unit" !in query && "services" !in query
  {
    var r := FirstRejected(NotImplementedDims, query);
    assert NotImplementedDims[0] == "unit" && NotImplementedDims[1] == "services";
    r
  }

  /** The dimensions that have a form field, in dataset order. */
  function QueryDims(dims: seq<DimensionInfo>): (r: seq<DimensionInfo>)
    ensures |r| <= |dims|
    decreases |dims|
  {
    if dims == [] then []
    else
      var init := QueryDims(dims[..|dims| - 1]);
      var d := dims[|dims| - 1];
      if d.id in NoQueryDims then init else init + [d]
  }

  /** The dimensions other than `measure` and `unit_id`. */
  lemma {:induction false} QueryDimsSpec(dims: seq<DimensionInfo>)
    ensures forall d :: d in QueryDims(dims) <==> d in dims && d.id !in NoQueryDims
    decreases |dims|
  {
    if dims != [] {
      var init := dims[..|dims| - 1];
      QueryDimsSpec(init);
      assert dims == init + [dims[|dims| - 1]];
    }
  }

  /** `form_keys`: the form field name of each dimension that has one. */
  function FormKeys(dims: seq<DimensionInfo>): (r: seq<string>)
    ensures |r| == |QueryDims(dims)|
    ensures forall i :: 0 <= i < |r| ==> r[i] == QueryDims(dims)[i].elemId
  {
    var qs := QueryDims(dims);
    seq(|qs|, i requires 0 <= i < |qs| => qs[i].elemId)
  }

  /** The values the query asks of a dimension, a single value made a list
      of one; a dimension it does not name is asked for its default. */
  function ValuesOf(query: Query, d: DimensionInfo): (r: Result<seq<string>>)
    ensures d.id !in query ==>
      (r.Ok? <==> DefaultValue(d.elem).Ok?)
      && (r.Ok? ==> r.value == [DefaultValue(d.elem).value])
      && (r.Err? ==> r.error == DefaultValue(d.elem).error)
    ensures d.id in query ==> r == Ok(Asked(query[d.id]))
  {
    if d.id !in query then
      var v :- DefaultValue(d.elem);
      Ok([v])
    else Ok(Asked(query[d.id]))
  }

  function Asked(v: QueryValue): seq<string> {
    match v
    case One(x) => [x]
    case Many(xs) => xs
  }

  /** `query_values`, built by the loop over the dataset's dimensions. */
  function ValueLists(query: Query, dims: seq<DimensionInfo>): Result<seq<seq<string>>>
    decreases |dims|
  {
    if dims == [] then Ok([])
    else
      var init :- ValueLists(query, dims[..|dims| - 1]);
      var d := dims[|dims| - 1];
      if d.id in NoQueryDims then Ok(init)
      else
        var vs :- ValuesOf(query, d);
        Ok(init + [vs])
  }

  /** `itertools.product(*ls)`: every choice of one item per list, in the
      order in which the last list varies fastest. */
  function Product<T>(ls: seq<seq<T>>): seq<seq<T>>
    decreases |ls|
  {
    if ls == [] then [[]]
    else Prefixed(ls[0], Product(ls[1..]))
  }

  /** Each item of `xs` in turn, put in front of each of `rest`. */
  function Prefixed<T>(xs: seq<T>, rest: seq<seq<T>>): seq<seq<T>>
    decreases |xs|
  {
    if xs == [] then [] else Prefixed(xs[..|xs| - 1], rest) + Consed(xs[|xs| - 1], rest)
  }

  function Consed<T>(x: T, rest: seq<seq<T>>): (r: seq<seq<T>>)
    ensures |r| == |rest| && forall j :: 0 <= j < |rest| ==> r[j] == [x] + rest[j]
  {
    seq(|rest|, j requires 0 <= j < |rest| => [x] + rest[j])
  }

  /** The number of combinations: the product of the lists' lengths. */
  function Count<T>(ls: seq<seq<T>>): nat
    decreases |ls|
  {
    if ls == [] then 1 else |ls[0]| * Count(ls[1..])
  }

  /** `dict(zip(keys, vals))`: pairs up to the shorter list, a later pair
      overwriting an earlier one with the same key. */
  function DictZip(keys: seq<string>, vals: seq<string>): Payload {
    ZipUpTo(keys, vals, Min(|keys|, |vals|))
  }

  function ZipUpTo(keys: seq<string>, vals: seq<string>, n: nat): Payload
    requires n <= |keys| && n <= |vals|
  {
    if n == 0 then map[] else ZipUpTo(keys, vals, n - 1)[keys[n - 1] := vals[n - 1]]
  }

  /** The request for one combination of values: the payload is the form
      keys zipped with it, and `select_region` picks the URL. */
  function RequestOf(regions: seq<RegionValue>, datasetId: string, keys: seq<string>, onlyRegion: bool, combo: seq<string>): Result<Request> {
    var payload := DictZip(keys, combo);
    if "select_region" !in payload then Err(KeyError("select_region"))
    else
      var url :- Url(regions, datasetId, payload["select_region"]);
      Ok(Request(url, payload, onlyRegion, payload["select_region"]))
  }

  /** The requests for all combinations, in order. */
  function Requests(regions: seq<RegionValue>, datasetId: string, keys: seq<string>, onlyRegion: bool, combos: seq<seq<string>>): Result<seq<Request>> {
    MapResult(combos, RequestFor(regions, datasetId, keys, onlyRegion))
  }

  function RequestFor(regions: seq<RegionValue>, datasetId: string, keys: seq<string>, onlyRegion: bool): seq<string> -> Result<Request> {
    combo => RequestOf(regions, datasetId, keys, onlyRegion, combo)
  }

  /** `_fetch_data(dataset, query)` up to the result-page fetches: an absent
      query is the empty one; `only_region` holds when the query names only
      `region`. */
  function FetchPlan(regions: seq<RegionValue>, datasetId: string, dims: seq<DimensionInfo>, query: Option<Query>): Result<seq<Request>> {
    var q := if query.None? then map[] else query.value;
    match Rejection(q)
    case Some(e) => Err(e)
    case None =>
      var lists :- ValueLists(q, dims);
      Requests(regions, datasetId, FormKeys(dims), q.Keys == {"region"}, Product(lists))
  }

  // -------------------------------------------------------------- methods

  /** The loop over the dimensions that cannot be queried. */
  method CheckQuery(query: Query) returns (r: Option<Error>)
    ensures r == Rejection(query)
  {
    var i := 0;
    while i < |NotImplementedDims|
      invariant 0 <= i <= |NotImplementedDims|
      invariant forall j :: 0 <= j < i ==> NotImplementedDims[j] !in query
    {
      var id := NotImplementedDims[i];
      if id in query {
        return Some(NotImplemented(id));
      }
      i := i + 1;
    }
    return None;
  }

  /** The loop that builds `query_values`. */
  method BuildValueLists(query: Query, dims: seq<DimensionInfo>) returns (r: Result<seq<seq<string>>>)
    ensures r == ValueLists(query, dims)
  {
    var lists := [];
    var i := 0;
    while i < |dims|
      invariant 0 <= i <= |dims|
      invariant ValueLists(query, dims[..i]) == Ok(lists)
    {
      assert dims[..i + 1][..i] == dims[..i];
      var d := dims[i];
      if d.id !in NoQueryDims {
        var values: seq<string>;
        if d.id !in query {
          var v := DefaultValue(d.elem);
          if v.Err? {
            ValueListsKeepError(query, dims, i + 1);
            return Err(v.error);
          }
          values := [v.value];
        } else {
          values := Asked(query[d.id]);
        }
        lists := lists + [values];
      }
      i := i + 1;
    }
    assert dims[..|dims|] == dims;
    return Ok(lists);
  }

  /** The loop over the combinations. */
  method BuildRequests(regions: seq<RegionValue>, datasetId: string, keys: seq<string>, onlyRegion: bool, combos: seq<seq<string>>)
    returns (r: Result<seq<Request>>)
    ensures r == Requests(regions, datasetId, keys, onlyRegion, combos)
  {
    var rs := [];
    var i := 0;
    while i < |combos|
      invariant 0 <= i <= |combos|
      invariant Requests(regions, datasetId, keys, onlyRegion, combos[..i]) == Ok(rs)
    {
      MapResultSnoc(combos, RequestFor(regions, datasetId, keys, onlyRegion), i);
      var next := RequestOf(regions, datasetId, keys, onlyRegion, combos[i]);
      if next.Err? {
        RequestsKeepError(regions, datasetId, keys, onlyRegion, combos, i + 1);
        return Err(next.error);
      }
      rs := rs + [next.value];
      i := i + 1;
    }
    assert combos[..|combos|] == combos;
    return Ok(rs);
  }

  /** `_fetch_data` up to the fetches. */
  method PlanQueries(regions: seq<RegionValue>, datasetId: string, dims: seq<DimensionInfo>, query: Option<Query>)
    returns (r: Result<seq<Request>>)
    ensures r == FetchPlan(regions, datasetId, dims, query)
  {
    var q: Query := if query.None? then map[] else query.value;
    var rejected := CheckQuery(q);
    if rejected.Some? {
      return Err(rejected.value);
    }
    var lists := BuildValueLists(q, dims);
    if lists.Err? {
      return Err(lists.error);
    }
    r := BuildRequests(regions, datasetId, FormKeys(dims), q.Keys == {"region"}, Product(lists.value));
  }

  // ---------------------------------------------------------------- lemmas

  lemma {:induction false} ValueListsKeepError(query: Query, dims: seq<DimensionInfo>, n: nat)
    requires n <= |dims| && ValueLists(query, dims[..n]).Err?
    ensures ValueLists(query, dims) == ValueLists(query, dims[..n])
    decreases |dims|
  {
    if n == |dims| {
      assert dims[..n] == dims;
    } else {
      var init := dims[..|dims| - 1];
      assert init[..n] == dims[..n];
      ValueListsKeepError(query, init, n);
    }
  }

  lemma RequestsKeepError(regions: seq<RegionValue>, datasetId: string, keys: seq<string>, onlyRegion: bool, combos: seq<seq<string>>, n: nat)
    requires n <= |combos| && Requests(regions, datasetId, keys, onlyRegion, combos[..n]).Err?
    ensures Requests(regions, datasetId, keys, onlyRegion, combos) == Requests(regions, datasetId, keys, onlyRegion, combos[..n])
  {
    MapResultKeepsError(combos, RequestFor(regions, datasetId, keys, onlyRegion), n);
  }

  /** There is one value list per form key, and list `i` holds what the
      query asks of dimension `i`, or its default. */
  lemma {:induction false} ValueListsSpec(query: Query, dims: seq<DimensionInfo>)
    ensures ValueLists(query, dims).Ok? <==>
      forall i :: 0 <= i < |QueryDims(dims)| ==> ValuesOf(query, QueryDims(dims)[i]).Ok?
    ensures ValueLists(query, dims).Ok? ==>
      var lists := ValueLists(query, dims).value;
      |lists| == |FormKeys(dims)|
      && forall i :: 0 <= i < |lists| ==> lists[i] == ValuesOf(query, QueryDims(dims)[i]).value
    decreases |dims|
  {
    if dims != [] {
      var init := dims[..|dims| - 1];
      var d := dims[|dims| - 1];
      ValueListsSpec(query, init);
      var qs := QueryDims(init);
      if d.id in NoQueryDims {
        assert QueryDims(dims) == qs;
        assert ValueLists(query, dims) == ValueLists(query, init);
      } else {
        assert QueryDims(dims) == qs + [d];
        if ValueLists(query, init).Err? {
          var i :| 0 <= i < |qs| && ValuesOf(query, qs[i]).Err?;
          assert QueryDims(dims)[i] == qs[i];
        } else if ValuesOf(query, d).Err? {
          assert ValuesOf(query, QueryDims(dims)[|qs|]).Err?;
        } else {
          assert forall i :: 0 <= i < |qs| ==> QueryDims(dims)[i] == qs[i];
          assert ValueLists(query, dims) == Ok(ValueLists(query, init).value + [ValuesOf(query, d).value]);
        }
      }
    }
  }

  lemma {:induction false} PrefixedLength<T>(xs: seq<T>, rest: seq<seq<T>>)
    ensures |Prefixed(xs, rest)| == |xs| * |rest|
    decreases |xs|
  {
    if xs != [] {
      PrefixedLength(xs[..|xs| - 1], rest);
      MulSucc(|xs| - 1, |rest|);
    }
  }

  /** Position `a * |rest| + b` of `Prefixed(xs, rest)` is `xs[a]` in front
      of `rest[b]`. */
  lemma {:induction false} PrefixedAt<T>(xs: seq<T>, rest: seq<seq<T>>, a: nat, b: nat)
    requires a < |xs| && b < |rest|
    ensures a * |rest| + b < |Prefixed(xs, rest)|
    ensures Prefixed(xs, rest)[a * |rest| + b] == [xs[a]] + rest[b]
    decreases |xs|
  {
    var init := xs[..|xs| - 1];
    PrefixedLength(xs, rest);
    PrefixedLength(init, rest);
    MulSucc(|init|, |rest|);
    IndexBound(a, b, |rest|, |xs|);
    if a < |init| {
      PrefixedAt(init, rest, a, b);
      assert init[a] == xs[a];
    } else {
      assert a * |rest| == |init| * |rest|;
    }
  }

  /** `a * c + b` with `a < n` and `b < c` is below `n * c`. */
  lemma IndexBound(a: nat, b: nat, c: nat, n: nat)
    requires a < n && b < c
    ensures a * c + b < n * c
  {
    MulLeft(c, n, a);
    MulMono(c, n - a);
  }

  /** There are as many combinations as the lists' lengths multiplied. */
  lemma {:induction false} ProductLength<T>(ls: seq<seq<T>>)
    ensures |Product(ls)| == Count(ls)
    decreases |ls|
  {
    if ls != [] {
      ProductLength(ls[1..]);
      PrefixedLength(ls[0], Product(ls[1..]));
    }
  }

  /** The first list varies slowest: combination `a * C + b`, `C` being the
      number of combinations of the other lists, is the first list's item
      `a` in front of their combination `b`. */
  lemma ProductOrder<T>(ls: seq<seq<T>>, a: nat, b: nat)
    requires ls != [] && a < |ls[0]| && b < |Product(ls[1..])|
    ensures a * |Product(ls[1..])| + b < |Product(ls)|
    ensures Product(ls)[a * |Product(ls[1..])| + b] == [ls[0][a]] + Product(ls[1..])[b]
  {
    PrefixedAt(ls[0], Product(ls[1..]), a, b);
  }

  /** Every combination is of that form. */
  lemma ProductSplit<T>(ls: seq<seq<T>>, k: nat)
    requires ls != [] && k < |Product(ls)|
    ensures var c := |Product(ls[1..])|;
      c > 0 && k / c < |ls[0]| && k == (k / c) * c + k % c && 0 <= k % c < c
  {
    var c := |Product(ls[1..])|;
    PrefixedLength(ls[0], Product(ls[1..]));
    NoneOfNone(|ls[0]|, c, k);
    DivBound(k, c, |ls[0]|);
    DivModSplit(k, c);
  }

  lemma NoneOfNone(n: nat, c: nat, k: nat)
    requires k < n * c
    ensures c > 0
  {
  }

  /** A sequence is a combination exactly when it takes one item from each
      list. */
  lemma {:induction false} ProductMember<T>(ls: seq<seq<T>>, c: seq<T>)
    ensures c in Product(ls) <==> |c| == |ls| && forall i :: 0 <= i < |ls| ==> c[i] in ls[i]
    decreases |ls|
  {
    if ls != [] {
      var rest := Product(ls[1..]);
      if c in Product(ls) {
        var k :| 0 <= k < |Product(ls)| && Product(ls)[k] == c;
        ProductSplit(ls, k);
        var n := |rest|;
        ProductOrder(ls, k / n, k % n);
        var tail := rest[k % n];
        assert c == [ls[0][k / n]] + tail;
        ProductMember(ls[1..], tail);
        forall i | 0 <= i < |ls| ensures c[i] in ls[i] {
          if i > 0 {
            assert c[i] == tail[i - 1] && ls[1..][i - 1] == ls[i];
          }
        }
      }
      if |c| == |ls| && forall i :: 0 <= i < |ls| ==> c[i] in ls[i] {
        var tail := c[1..];
        forall i | 0 <= i < |ls[1..]| ensures tail[i] in ls[1..][i] {
          assert tail[i] == c[i + 1] && ls[1..][i] == ls[i + 1];
        }
        ProductMember(ls[1..], tail);
        var a :| 0 <= a < |ls[0]| && ls[0][a] == c[0];
        var b :| 0 <= b < |rest| && rest[b] == tail;
        ProductOrder(ls, a, b);
        assert Product(ls)[a * |rest| + b] == [c[0]] + tail == c;
      }
    }
  }

  /** A key is in the zipped payload exactly when it is one of the first
      `n` keys, and its value comes from its last position among them. */
  lemma {:induction false} ZipUpToSpec(keys: seq<string>, vals: seq<string>, n: nat)
    requires n <= |keys| && n <= |vals|
    ensures forall k :: k in ZipUpTo(keys, vals, n) <==> exists i :: 0 <= i < n && keys[i] == k
    ensures forall i :: 0 <= i < n && (forall j :: i < j < n ==> keys[j] != keys[i]) ==>
      ZipUpTo(keys, vals, n)[keys[i]] == vals[i]
  {
    if n > 0 {
      ZipUpToSpec(keys, vals, n - 1);
      var m := ZipUpTo(keys, vals, n);
      forall k ensures k in m <==> exists i :: 0 <= i < n && keys[i] == k {
        if k == keys[n - 1] {
          assert exists i :: 0 <= i < n && keys[i] == k;
        }
      }
      forall i | 0 <= i < n && (forall j :: i < j < n ==> keys[j] != keys[i])
        ensures m[keys[i]] == vals[i]
      {
        if i < n - 1 {
          assert keys[n - 1] != keys[i];
          assert forall j :: i < j < n - 1 ==> keys[j] != keys[i];
        }
      }
    }
  }

  /** `dict(zip(keys, vals))` when both have the same length. */
  lemma DictZipSpec(keys: seq<string>, vals: seq<string>)
    requires |keys| == |vals|
    ensures forall k :: k in DictZip(keys, vals) <==> k in keys
    ensures forall i :: 0 <= i < |keys| && (forall j :: i < j < |keys| ==> keys[j] != keys[i]) ==>
      DictZip(keys, vals)[keys[i]] == vals[i]
  {
    ZipUpToSpec(keys, vals, |keys|);
    forall k | k in keys ensures exists i :: 0 <= i < |keys| && keys[i] == k {
      var i :| 0 <= i < |keys| && keys[i] == k;
    }
  }

  /** The requests succeed exactly when every combination's does. */
  lemma RequestsOk(regions: seq<RegionValue>, datasetId: string, keys: seq<string>, onlyRegion: bool, combos: seq<seq<string>>)
    ensures Requests(regions, datasetId, keys, onlyRegion, combos).Ok? <==>
      forall i :: 0 <= i < |combos| ==> RequestOf(regions, datasetId, keys, onlyRegion, combos[i]).Ok?
  {
    MapResultSpec(combos, RequestFor(regions, datasetId, keys, onlyRegion));
  }

  /** On success, request `i` is combination `i`'s. */
  lemma RequestsSpec(regions: seq<RegionValue>, datasetId: string, keys: seq<string>, onlyRegion: bool, combos: seq<seq<string>>)
    requires Requests(regions, datasetId, keys, onlyRegion, combos).Ok?
    ensures var rs := Requests(regions, datasetId, keys, onlyRegion, combos).value;
      |rs| == |combos|
      && forall i :: 0 <= i < |combos| ==>
           RequestOf(regions, datasetId, keys, onlyRegion, combos[i]).Ok?
           && rs[i] == RequestOf(regions, datasetId, keys, onlyRegion, combos[i]).value
  {
    MapResultSpec(combos, RequestFor(regions, datasetId, keys, onlyRegion));
  }

  /** A request's URL is that of its `select_region`, which it keeps as its
      region. */
  lemma RequestOfSpec(regions: seq<RegionValue>, datasetId: string, keys: seq<string>, onlyRegion: bool, combo: seq<string>)
    ensures var r := RequestOf(regions, datasetId, keys, onlyRegion, combo);
      var payload := DictZip(keys, combo);
      ("select_region" !in payload ==> r == Err(KeyError("select_region")))
      && ("select_region" in payload ==>
            (r.Ok? <==> Url(regions, datasetId, payload["select_region"]).Ok?)
            && (r.Ok? ==> r.value == Request(Url(regions, datasetId, payload["select_region"]).value,
                                             payload, onlyRegion, payload["select_region"])))
  {
  }

  /** An unsupported dimension in the query fails the whole expansion
      before anything else is looked at. */
  lemma PlanRejects(regions: seq<RegionValue>, datasetId: string, dims: seq<DimensionInfo>, query: Query)
    ensures "unit" in query ==>
      FetchPlan(regions, datasetId, dims, Some(query)) == Err(NotImplemented("unit"))
    ensures "unit" !in query && "services" in query ==>
      FetchPlan(regions, datasetId, dims, Some(query)) == Err(NotImplemented("services"))
  {
  }

  /** A successful expansion makes one request per combination of the
      value lists, in product order, each posting the form keys zipped
      with its combination. */
  lemma PlanSpec(regions: seq<RegionValue>, datasetId: string, dims: seq<DimensionInfo>, query: Query, lists: seq<seq<string>>, rs: seq<Request>)
    requires ValueLists(query, dims) == Ok(lists)
    requires FetchPlan(regions, datasetId, dims, Some(query)) == Ok(rs)
    ensures "unit" !in query && "services" !in query
    ensures |rs| == Count(lists) == |Product(lists)|
    ensures forall k :: 0 <= k < |rs| ==>
      rs[k].payload == DictZip(FormKeys(dims), Product(lists)[k])
      && rs[k].onlyRegion == (query.Keys == {"region"})
  {
    var keys := FormKeys(dims);
    var combos := Product(lists);
    ProductLength(lists);
    FetchPlanRequests(regions, datasetId, dims, query, lists);
    var onlyRegion := query.Keys == {"region"};
    RequestsSpec(regions, datasetId, keys, onlyRegion, combos);
    forall k | 0 <= k < |rs|
      ensures rs[k].payload == DictZip(keys, combos[k]) && rs[k].onlyRegion == onlyRegion
    {
      RequestOfSpec(regions, datasetId, keys, onlyRegion, combos[k]);
    }
  }

  /** A plan that succeeds passed the rejection check and is the requests
      for the product of the value lists. */
  lemma FetchPlanRequests(regions: seq<RegionValue>, datasetId: string, dims: seq<DimensionInfo>, query: Query, lists: seq<seq<string>>)
    requires ValueLists(query, dims) == Ok(lists)
    requires FetchPlan(regions, datasetId, dims, Some(query)).Ok?
    ensures Rejection(query).None?
    ensures FetchPlan(regions, datasetId, dims, Some(query)) ==
      Requests(regions, datasetId, FormKeys(dims), query.Keys == {"region"}, Product(lists))
  {
  }

  /** With every form key distinct, each request posts, for every form
      dimension, one of the values the query asks of it, or its default
      when the query does not name it. */
  lemma PlanPayloads(regions: seq<RegionValue>, datasetId: string, dims: seq<DimensionInfo>, query: Query, lists: seq<seq<string>>, rs: seq<Request>, k: nat, i: nat)
    requires ValueLists(query, dims) == Ok(lists)
    requires FetchPlan(regions, datasetId, dims, Some(query)) == Ok(rs)
    requires k < |rs| && i < |FormKeys(dims)|
    requires forall j :: i < j < |FormKeys(dims)| ==> FormKeys(dims)[j] != FormKeys(dims)[i]
    ensures var d := QueryDims(dims)[i];
      d.elemId in rs[k].payload
      && (d.id in query ==> rs[k].payload[d.elemId] in Asked(query[d.id]))
      && (d.id !in query ==> DefaultValue(d.elem).Ok? && rs[k].payload[d.elemId] == DefaultValue(d.elem).value)
  {
    var keys := FormKeys(dims);
    PlanSpec(regions, datasetId, dims, query, lists, rs);
    ValueListsSpec(query, dims);
    var combo := Product(lists)[k];
    ProductMember(lists, combo);
    DictZipSpec(keys, combo);
    assert rs[k].payload[keys[i]] == combo[i];
  }

  /** Every way of picking one value per list is requested. */
  lemma PlanCovers(regions: seq<RegionValue>, datasetId: string, dims: seq<DimensionInfo>, query: Query, lists: seq<seq<string>>, rs: seq<Request>, c: seq<string>)
    requires ValueLists(query, dims) == Ok(lists)
    requires FetchPlan(regions, datasetId, dims, Some(query)) == Ok(rs)
    requires |c| == |lists| && forall i :: 0 <= i < |lists| ==> c[i] in lists[i]
    ensures exists k :: 0 <= k < |rs| && rs[k].payload == DictZip(FormKeys(dims), c)
  {
    PlanSpec(regions, datasetId, dims, query, lists, rs);
    ProductMember(lists, c);
    var k :| 0 <= k < |Product(lists)| && Product(lists)[k] == c;
    assert rs[k].payload == DictZip(FormKeys(dims), c);
  }

  /** A dimension asked for no value at all leaves nothing to request. */
  lemma EmptyListNoRequests(regions: seq<RegionValue>, datasetId: string, dims: seq<DimensionInfo>, query: Query, lists: seq<seq<string>>, i: nat)
    requires ValueLists(query, dims) == Ok(lists) && i < |lists| && lists[i] == []
    requires Rejection(query).None?
    ensures FetchPlan(regions, datasetId, dims, Some(query)) == Ok([])
  {
    ProductLength(lists);
    CountZero(lists, i);
    assert Product(lists) == [];
  }

  lemma {:induction false} CountZero<T>(ls: seq<seq<T>>, i: nat)
    requires i < |ls| && ls[i] == []
    ensures Count(ls) == 0
    decreases |ls|
  {
    if i > 0 {
      assert ls[1..][i - 1] == ls[i];
      CountZero(ls[1..], i - 1);
    }
  }

  /** `product()` of no lists is the single empty combination. */
  lemma ProductOfNone<T>()
    ensures Product<T>([]) == [[]]
  {
  }
}
