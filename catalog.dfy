/** The ids of the catalog: a dataset's id read from the link to its page,
    the ids of the form dimensions read from their field names, and the
    datasets that are listed at all. */
module Catalog {
  import opened PyStr
  import opened Sheets

  /** Datasets the scraper does not offer. */
  const NotImplementedDatasets: seq<string> := ["Aterbesok", "Undersokningar", "BUPdetalj", "BUP"]

  /** The id of a dataset: the link after its last `/Sveriges/`, without
      slashes. */
  function DatasetId(href: string): string {
    var pieces := Split(href, "/Sveriges/");
    Replace(pieces[|pieces| - 1], "/", "")
  }

  /** The dimension id of a select element: its name without `select_` and
      `revisits_`. */
  function SelectDimId(elemId: string): string {
    Replace(Replace(elemId, "select_", ""), "revisits_", "")
  }

  /** The dimension id of a checkbox: its name without `checkbox_`. */
  function CheckboxDimId(elemId: string): string {
    Replace(elemId, "checkbox_", "")
  }

  /** The listed datasets: ids paired with labels up to the shorter list,
      leaving out those not implemented. */
  function Listed(ids: seq<string>, labels: seq<string>): seq<(string, string)> {
    ListedUpTo(ids, labels, Min(|ids|, |labels|))
  }

  function ListedUpTo(ids: seq<string>, labels: seq<string>, n: nat): seq<(string, string)>
    requires n <= |ids| && n <= |labels|
  {
    if n == 0 then []
    else
      var init := ListedUpTo(ids, labels, n - 1);
      if ids[n - 1] in NotImplementedDatasets then init else init + [(ids[n - 1], labels[n - 1])]
  }

  // ---------------------------------------------------------------- lemmas

  /** A dataset id has no slash. */
  lemma DatasetIdHasNoSlash(href: string)
    ensures '/' !in DatasetId(href)
  {
    var pieces := Split(href, "/Sveriges/");
    ReplaceRemovesChar(pieces[|pieces| - 1], '/', "");
  }

  /** The pieces the id is taken from make up the link again. */
  lemma DatasetIdPieces(href: string)
    ensures Join(Split(href, "/Sveriges/"), "/Sveriges/") == href
  {
    SplitRoundTrip(href, "/Sveriges/");
  }

  /** A select named `select_` and a plain id has that id. */
  lemma SelectDimIdOf(t: string)
    requires !Contains(t, "select_") && !Contains(t, "revisits_")
    ensures SelectDimId("select_" + t) == t
  {
    ReplaceLeading("select_", t, "");
    ReplaceNoMatch(t, "select_", "");
    assert Replace("select_" + t, "select_", "") == t;
    ReplaceNoMatch(t, "revisits_", "");
  }

  /** The region select `select_region` gives the dimension `region`. */
  lemma SelectRegion()
    ensures SelectDimId("select_region") == "region"
  {
    assert "select_" + "region" == "select_region";
    RegionPlain();
    NotContains("region", "select_", 0);
    NotContains("region", "revisits_", 4);
    SelectDimIdOf("region");
  }

  lemma RegionPlain()
    ensures "select_"[0] !in "region" && "revisits_"[4] !in "region"
  {
  }

  /** A checkbox named `checkbox_` and a plain id has that id. */
  lemma CheckboxDimIdOf(t: string)
    requires !Contains(t, "checkbox_")
    ensures CheckboxDimId("checkbox_" + t) == t
  {
    ReplaceLeading("checkbox_", t, "");
    ReplaceNoMatch(t, "checkbox_", "");
    assert "" + t == t;
  }

  /** `idx` lists, in increasing order, every position below `n` whose id
      is implemented, and `l` holds the pairs at those positions. */
  predicate Enumerates(ids: seq<string>, labels: seq<string>, n: nat, idx: seq<nat>, l: seq<(string, string)>)
    requires n <= |ids| && n <= |labels|
  {
    |idx| == |l|
    && (forall k :: 0 <= k < |idx| ==> idx[k] < n && l[k] == (ids[idx[k]], labels[idx[k]]))
    && (forall k, k' :: 0 <= k < k' < |idx| ==> idx[k] < idx[k'])
    && (forall i :: 0 <= i < n ==> (i in idx <==> ids[i] !in NotImplementedDatasets))
  }

  /** The listed datasets are exactly the implemented pairs, each once per
      position, in link order. */
  lemma {:induction false} ListedSpec(ids: seq<string>, labels: seq<string>, n: nat)
    requires n <= |ids| && n <= |labels|
    ensures exists idx: seq<nat> :: Enumerates(ids, labels, n, idx, ListedUpTo(ids, labels, n))
  {
    if n == 0 {
      var none: seq<nat> := [];
      assert Enumerates(ids, labels, n, none, ListedUpTo(ids, labels, n));
    } else {
      ListedSpec(ids, labels, n - 1);
      var prev := ListedUpTo(ids, labels, n - 1);
      var idx: seq<nat> :| Enumerates(ids, labels, n - 1, idx, prev);
      EnumeratesStep(ids, labels, n, idx, prev);
      if ids[n - 1] in NotImplementedDatasets {
        assert Enumerates(ids, labels, n, idx, ListedUpTo(ids, labels, n));
      } else {
        assert Enumerates(ids, labels, n, idx + [n - 1], ListedUpTo(ids, labels, n));
      }
    }
  }

  /** Position `n - 1` extends an enumeration of the first `n - 1`: it is
      skipped when its id is not implemented and appended otherwise. */
  lemma EnumeratesStep(ids: seq<string>, labels: seq<string>, n: nat, idx: seq<nat>, prev: seq<(string, string)>)
    requires 0 < n <= |ids| && n <= |labels| && Enumerates(ids, labels, n - 1, idx, prev)
    ensures ids[n - 1] in NotImplementedDatasets ==> Enumerates(ids, labels, n, idx, prev)
    ensures ids[n - 1] !in NotImplementedDatasets ==>
      Enumerates(ids, labels, n, idx + [n - 1], prev + [(ids[n - 1], labels[n - 1])])
  {
    if ids[n - 1] in NotImplementedDatasets {
      assert n - 1 !in idx;
    } else {
      var idx' := idx + [n - 1];
      forall i | 0 <= i < n ensures i in idx' <==> ids[i] !in NotImplementedDatasets {
        assert i in idx' <==> i in idx || i == n - 1;
      }
    }
  }

  /** Hence a listed pair is an implemented pair of the links, and there
      are no more of them than links. */
  lemma ListedMembers(ids: seq<string>, labels: seq<string>, n: nat)
    requires n <= |ids| && n <= |labels|
    ensures forall p :: p in ListedUpTo(ids, labels, n) <==>
      exists i :: 0 <= i < n && p == (ids[i], labels[i]) && ids[i] !in NotImplementedDatasets
    ensures |ListedUpTo(ids, labels, n)| <= n
  {
    ListedSpec(ids, labels, n);
    var l := ListedUpTo(ids, labels, n);
    var idx: seq<nat> :| Enumerates(ids, labels, n, idx, l);
    forall p | p in l ensures exists i :: 0 <= i < n && p == (ids[i], labels[i]) && ids[i] !in NotImplementedDatasets {
      var k :| 0 <= k < |l| && l[k] == p;
      assert idx[k] in idx;
    }
    forall i | 0 <= i < n && ids[i] !in NotImplementedDatasets ensures (ids[i], labels[i]) in l {
      var k :| 0 <= k < |idx| && idx[k] == i;
      assert l[k] == (ids[i], labels[i]);
    }
    IncreasingBelow(idx, n);
  }

  /** A strictly increasing list of numbers below `n` has at most `n` of
      them. */
  lemma {:induction false} IncreasingBelow(idx: seq<nat>, n: nat)
    requires forall k :: 0 <= k < |idx| ==> idx[k] < n
    requires forall k, k' :: 0 <= k < k' < |idx| ==> idx[k] < idx[k']
    ensures |idx| <= n
    decreases n
  {
    if |idx| > 0 {
      var init := idx[..|idx| - 1];
      assert forall k :: 0 <= k < |init| ==> init[k] < idx[|idx| - 1] <= n - 1;
      IncreasingBelow(init, n - 1);
    }
  }
}
