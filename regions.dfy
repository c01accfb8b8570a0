/** `_get_region_slug` and `get_url`: the region part of a dataset's URL,
    derived from the label of a region by chained replacements, a suffix
    rule and a table of exceptions. */
module Regions {
  import opened Results
  import opened PyStr

  /** An allowed value of the `region` dimension: its id and its label (`name`). */
  datatype RegionValue = RegionValue(id: string, name: string)

  const BaseUrl: string := "http://www.vantetider.se/Kontaktkort/"

  /** Slugs that the suffix rule gets wrong, with their right spelling. */
  const Exceptions: map<string, string> := map[
    "Jamtland-Harjedalens" := "Jamtlands",
    "Rikets" := "Sveriges",
    "Alla-landstings" := "Sveriges"]

  /** The first region whose field (`name` or `id`) is `key`. */
  function FindRegion(regions: seq<RegionValue>, key: string, byLabel: bool): Option<RegionValue>
    decreases |regions|
  {
    if regions == [] then None
    else if KeyOf(regions[0], byLabel) == key then Some(regions[0])
    else FindRegion(regions[1..], key, byLabel)
  }

  function KeyOf(r: RegionValue, byLabel: bool): string {
    if byLabel then r.name else r.id
  }

  /** `regions.get_by_label(label)`. */
  function ByLabel(regions: seq<RegionValue>, name: string): Option<RegionValue> {
    FindRegion(regions, name, true)
  }

  /** The region with that label, or else the one with that id. */
  function LookUp(regions: seq<RegionValue>, idOrLabel: string): Result<RegionValue> {
    match ByLabel(regions, idOrLabel)
    case Some(r) => Ok(r)
    case None =>
      match FindRegion(regions, idOrLabel, false)
      case Some(r) => Ok(r)
      case None => Err(KeyError(idOrLabel + " is not a valid region id or label"))
  }

  /** The label with spaces turned to hyphens and the letters ö, Ö, ä and å
      written without their marks. */
  function Transliterate(name: string): string {
    Replace(Replace(Replace(Replace(Replace(name, " ", "-"), "ö", "o"), "Ö", "O"), "ä", "a"), "å", "a")
  }

  /** The slug of a label: transliterated, then given the genitive `s`
      unless it names a region, then corrected by the exception table. */
  function SlugOfLabel(name: string): string {
    var t := Transliterate(name);
    var s := if Contains(t, "region") then t else t + "s";
    if s in Exceptions then Exceptions[s] else s
  }

  /** `_get_region_slug(id_or_label)`. */
  function RegionSlug(regions: seq<RegionValue>, idOrLabel: string): Result<string> {
    var r :- LookUp(regions, idOrLabel);
    Ok(SlugOfLabel(r.name))
  }

  /** `get_url(region)` of the dataset `datasetId`; the default region is
      `"Sverige"`, whose slug is fixed. */
  function Url(regions: seq<RegionValue>, datasetId: string, region: string): Result<string> {
    var slug :- if region == "Sverige" then Ok("Sveriges") else RegionSlug(regions, region);
    Ok(BaseUrl + slug + "/" + datasetId)
  }

  // ---------------------------------------------------------------- lemmas

  /** The search finds the first region whose field is the key, and
      nothing exactly when no region has it. */
  lemma {:induction false} FindRegionSpec(regions: seq<RegionValue>, key: string, byLabel: bool)
    ensures var r := FindRegion(regions, key, byLabel);
      (r.None? <==> forall i :: 0 <= i < |regions| ==> KeyOf(regions[i], byLabel) != key)
      && (r.Some? ==> exists i :: (0 <= i < |regions| && regions[i] == r.value && KeyOf(regions[i], byLabel) == key
           && forall j :: 0 <= j < i ==> KeyOf(regions[j], byLabel) != key))
    decreases |regions|
  {
    if regions != [] && KeyOf(regions[0], byLabel) != key {
      var tail := regions[1..];
      FindRegionSpec(tail, key, byLabel);
      assert forall i :: 0 <= i < |tail| ==> tail[i] == regions[i + 1];
      var r := FindRegion(tail, key, byLabel);
      if r.Some? {
        var i :| 0 <= i < |tail| && tail[i] == r.value && KeyOf(tail[i], byLabel) == key
          && forall j :: 0 <= j < i ==> KeyOf(tail[j], byLabel) != key;
        assert regions[i + 1] == r.value && forall j :: 0 <= j < i + 1 ==> KeyOf(regions[j], byLabel) != key;
      } else {
        assert forall i :: 0 <= i < |regions| ==> KeyOf(regions[i], byLabel) != key by {
          forall i | 0 <= i < |regions| ensures KeyOf(regions[i], byLabel) != key {
            if i > 0 { assert regions[i] == tail[i - 1]; }
          }
        }
      }
    }
  }

  /** A region found by label has that label. */
  lemma ByLabelName(regions: seq<RegionValue>, name: string)
    ensures ByLabel(regions, name).Some? ==> ByLabel(regions, name).value.name == name
  {
    FindRegionSpec(regions, name, true);
  }

  /** The lookup tries labels first, then ids, and raises KeyError when
      neither matches. */
  lemma LookUpSpec(regions: seq<RegionValue>, key: string)
    ensures LookUp(regions, key).Err? <==>
      forall i :: 0 <= i < |regions| ==> regions[i].name != key && regions[i].id != key
    ensures LookUp(regions, key).Err? ==> LookUp(regions, key).error.KeyError?
    ensures LookUp(regions, key).Ok? ==> LookUp(regions, key).value in regions
    ensures (exists i :: 0 <= i < |regions| && regions[i].name == key) ==>
      LookUp(regions, key).Ok? && LookUp(regions, key).value.name == key
    ensures (forall i :: 0 <= i < |regions| ==> regions[i].name != key) && LookUp(regions, key).Ok? ==>
      LookUp(regions, key).value.id == key
  {
    FindRegionSpec(regions, key, true);
    FindRegionSpec(regions, key, false);
    var byLabel := ByLabel(regions, key);
    var byId := FindRegion(regions, key, false);
    if byLabel.None? && byId.None? {
      forall i | 0 <= i < |regions|
        ensures regions[i].name != key && regions[i].id != key
      {
        assert KeyOf(regions[i], true) != key && KeyOf(regions[i], false) != key;
      }
    }
    if byLabel.Some? {
      var i :| 0 <= i < |regions| && regions[i] == byLabel.value && KeyOf(regions[i], true) == key;
    } else if byId.Some? {
      var i :| 0 <= i < |regions| && regions[i] == byId.value && KeyOf(regions[i], false) == key;
      assert !(forall i :: 0 <= i < |regions| ==> regions[i].name != key && regions[i].id != key);
    }
    if exists i :: 0 <= i < |regions| && regions[i].name == key {
      var i :| 0 <= i < |regions| && regions[i].name == key;
      assert KeyOf(regions[i], true) == key;
    }
  }

  /** No replaced character is left in a transliterated label. */
  lemma TransliterateClean(name: string)
    ensures ' ' !in Transliterate(name) && 'ö' !in Transliterate(name) && 'Ö' !in Transliterate(name)
    ensures 'ä' !in Transliterate(name) && 'å' !in Transliterate(name)
  {
    var t1 := Replace(name, " ", "-");
    var t2 := Replace(t1, "ö", "o");
    var t3 := Replace(t2, "Ö", "O");
    var t4 := Replace(t3, "ä", "a");
    var t5 := Replace(t4, "å", "a");
    ReplaceRemovesChar(name, ' ', "-");
    ReplaceKeepsOut(t1, "ö", "o", ' ');
    ReplaceKeepsOut(t2, "Ö", "O", ' ');
    ReplaceKeepsOut(t3, "ä", "a", ' ');
    ReplaceKeepsOut(t4, "å", "a", ' ');
    ReplaceRemovesChar(t1, 'ö', "o");
    ReplaceKeepsOut(t2, "Ö", "O", 'ö');
    ReplaceKeepsOut(t3, "ä", "a", 'ö');
    ReplaceKeepsOut(t4, "å", "a", 'ö');
    ReplaceRemovesChar(t2, 'Ö', "O");
    ReplaceKeepsOut(t3, "ä", "a", 'Ö');
    ReplaceKeepsOut(t4, "å", "a", 'Ö');
    ReplaceRemovesChar(t3, 'ä', "a");
    ReplaceKeepsOut(t4, "å", "a", 'ä');
    ReplaceRemovesChar(t4, 'å', "a");
  }

  /** A label without spaces or the marked letters is left as it is. */
  lemma TransliteratePlain(name: string)
    requires ' ' !in name && 'ö' !in name && 'Ö' !in name && 'ä' !in name && 'å' !in name
    ensures Transliterate(name) == name
  {
    ReplaceAbsent(name, " ", "-");
    ReplaceAbsent(name, "ö", "o");
    ReplaceAbsent(name, "Ö", "O");
    ReplaceAbsent(name, "ä", "a");
    ReplaceAbsent(name, "å", "a");
  }

  /** No key of the exception table names a region. */
  lemma ExceptionsNameNoRegion(s: string)
    requires s in Exceptions
    ensures !Contains(s, "region")
  {
    ExceptionKeys(s);
    if s == "Jamtland-Harjedalens" {
      JamtlandNoRegion(s);
    }
    if s == "Rikets" {
      RiketsNoRegion(s);
    }
    if s == "Alla-landstings" {
      AllaNoRegion(s);
    }
  }

  lemma ExceptionKeys(s: string)
    requires s in Exceptions
    ensures s == "Jamtland-Harjedalens" || s == "Rikets" || s == "Alla-landstings"
  {
  }

  // Each key lacks the `o` of `"region"`.

  lemma JamtlandNoRegion(s: string)
    requires s == "Jamtland-Harjedalens"
    ensures !Contains(s, "region")
  {
    NotContains(s, "region", 4);
  }

  lemma RiketsNoRegion(s: string)
    requires s == "Rikets"
    ensures !Contains(s, "region")
  {
    NotContains(s, "region", 4);
  }

  lemma AllaNoRegion(s: string)
    requires s == "Alla-landstings"
    ensures !Contains(s, "region")
  {
    NotContains(s, "region", 4);
  }

  /** The suffix rule: a slug that names a region is kept, any other gets
      an `s`, and only then is the exception table consulted. Every slug is
      free of the replaced characters. */
  lemma SlugSpec(name: string)
    ensures var t := Transliterate(name);
      (Contains(t, "region") ==> SlugOfLabel(name) == t)
      && (!Contains(t, "region") && t + "s" !in Exceptions ==> SlugOfLabel(name) == t + "s")
      && (!Contains(t, "region") && t + "s" in Exceptions ==> SlugOfLabel(name) == Exceptions[t + "s"])
    ensures ' ' !in SlugOfLabel(name) && 'ö' !in SlugOfLabel(name) && 'Ö' !in SlugOfLabel(name)
    ensures 'ä' !in SlugOfLabel(name) && 'å' !in SlugOfLabel(name)
  {
    var t := Transliterate(name);
    if Contains(t, "region") && t in Exceptions {
      ExceptionsNameNoRegion(t);
    }
    SlugClean(name);
  }

  lemma SlugClean(name: string)
    ensures ' ' !in SlugOfLabel(name) && 'ö' !in SlugOfLabel(name) && 'Ö' !in SlugOfLabel(name)
    ensures 'ä' !in SlugOfLabel(name) && 'å' !in SlugOfLabel(name)
  {
    var t := Transliterate(name);
    TransliterateClean(name);
    var s := if Contains(t, "region") then t else t + "s";
    assert ' ' !in s && 'ö' !in s && 'Ö' !in s && 'ä' !in s && 'å' !in s;
    if s in Exceptions {
      ExceptionKeys(s);
      ExceptionValuesClean(Exceptions[s]);
    }
  }

  lemma ExceptionValuesClean(v: string)
    requires v == "Jamtlands" || v == "Sveriges"
    ensures ' ' !in v && 'ö' !in v && 'Ö' !in v && 'ä' !in v && 'å' !in v
  {
  }

  /** `"Norrbotten"` becomes `"Norrbottens"`. */
  lemma SlugExample()
    ensures SlugOfLabel("Norrbotten") == "Norrbottens"
  {
    NorrbottenSlug("Norrbotten");
  }

  lemma NorrbottenSlug(s: string)
    requires s == "Norrbotten"
    ensures SlugOfLabel(s) == s + "s" && s + "s" == "Norrbottens"
  {
    NorrbottenPlain(s);
    TransliteratePlain(s);
    NotContains(s, "region", 2);
    assert s + "s" == "Norrbottens";
    assert "Norrbottens" !in Exceptions;
  }

  lemma NorrbottenPlain(s: string)
    requires s == "Norrbotten"
    ensures ' ' !in s && 'ö' !in s && 'Ö' !in s && 'ä' !in s && 'å' !in s
  {
  }

  /** The national page needs no lookup at all. */
  lemma UrlOfSweden(regions: seq<RegionValue>, datasetId: string)
    ensures Url(regions, datasetId, "Sverige") == Ok(BaseUrl + "Sveriges" + "/" + datasetId)
  {
  }

  /** Any other region is looked up, and its slug sits between the base URL
      and the dataset id. */
  lemma UrlSpec(regions: seq<RegionValue>, datasetId: string, region: string)
    requires region != "Sverige"
    ensures Url(regions, datasetId, region).Ok? <==> LookUp(regions, region).Ok?
    ensures Url(regions, datasetId, region).Ok? ==>
      Url(regions, datasetId, region).value == BaseUrl + SlugOfLabel(LookUp(regions, region).value.name) + "/" + datasetId
  {
  }
}
