/** The records held in the cache: a national site (`NationalSite`), its cached
    dictionary form with the optional `"nearby"` list, and the nearby places
    obtained from the places lookup, together with their normalisation. */
module Records {
  import opened Text

  /** A national site as built by the page extractor. */
  datatype NationalSite = NationalSite(category: string, name: string, address: string,
                                       zipcode: string, phone: string)

  /** A site as stored in the cache: the five fields of `to_dict()` plus the
      `"nearby"` key, absent until the site's nearby places are attached. */
  datatype SiteEntry = SiteEntry(site: NationalSite, nearby: Option<seq<Place>>)

  /** A normalised nearby place as attached to a site. */
  datatype Place = Place(name: string, category: string, address: string, city: string)

  /** One raw search result of the places lookup: its `name` and the
      `group_sic_code_name`, `address` and `city` entries of its `fields`. */
  datatype RawPlace = RawPlace(name: string, groupSicCodeName: string, address: string, city: string)

  /** `NationalSite.info()`: "<name> (<category>): <address> <zipcode>". */
  function Info(s: NationalSite): (r: string)
    ensures |r| == |s.name| + |s.category| + |s.address| + |s.zipcode| + 6
    ensures r[..|s.name|] == s.name && r[|r| - |s.zipcode|..] == s.zipcode
    ensures r[|s.name|..|s.name| + 2] == " (" && r[|s.name| + 2..|s.name| + 2 + |s.category|] == s.category
    ensures r[|s.name| + 2 + |s.category|..|r| - |s.zipcode|] == "): " + s.address + " "
  {
    s.name + " (" + s.category + "): " + s.address + " " + s.zipcode
  }

  /** `to_dict()`: the record's fields; a fresh record has no `"nearby"` key. */
  function ToDict(s: NationalSite): (d: SiteEntry)
    ensures d.site == s && d.nearby.None?
  {
    SiteEntry(s, None)
  }

  /** `NationalSite(**d)`: the constructor accepts exactly the five fields, so a
      dictionary that already carries a `"nearby"` key is refused (the
      `TypeError` for an unexpected keyword argument). */
  function FromDict(d: SiteEntry): (r: Option<NationalSite>)
    ensures r.Some? <==> d.nearby.None?
    ensures r.Some? ==> ToDict(r.value) == d
  {
    if d.nearby.Some? then None else Some(d.site)
  }

  /** `to_dict` and `NationalSite(**d)` are inverse on dictionaries without a
      `"nearby"` key. */
  lemma DictRoundTrip(s: NationalSite, d: SiteEntry)
    ensures FromDict(ToDict(s)) == Some(s)
    ensures FromDict(d) == Some(s) <==> d == ToDict(s)
  {
  }

  // ---------------------------------------------------------------------------
  // Nearby places
  // ---------------------------------------------------------------------------

  /** A field of a search result, with the placeholder used when it is empty. */
  function OrPlaceholder(field: string, placeholder: string): (r: string)
    requires placeholder != ""
    ensures r != ""
    ensures field != "" ==> r == field
    ensures field == "" ==> r == placeholder
  {
    if field == "" then placeholder else field
  }

  function NormalizePlace(raw: RawPlace): Place {
    Place(raw.name,
          OrPlaceholder(raw.groupSicCodeName, "no category"),
          OrPlaceholder(raw.address, "no address"),
          OrPlaceholder(raw.city, "no city"))
  }

  /** The list built from `searchResults`: same length and order, names copied,
      every empty category, address or city replaced by its placeholder and
      every non-empty one kept. */
  function NormalizePlaces(raws: seq<RawPlace>): (r: seq<Place>)
    ensures |r| == |raws|
    ensures forall i :: 0 <= i < |raws| ==> r[i].name == raws[i].name
    ensures forall i :: 0 <= i < |raws| ==>
              r[i].category == (if raws[i].groupSicCodeName == "" then "no category" else raws[i].groupSicCodeName)
    ensures forall i :: 0 <= i < |raws| ==>
              r[i].address == (if raws[i].address == "" then "no address" else raws[i].address)
    ensures forall i :: 0 <= i < |raws| ==>
              r[i].city == (if raws[i].city == "" then "no city" else raws[i].city)
    decreases |raws|
  {
    if |raws| == 0 then [] else [NormalizePlace(raws[0])] + NormalizePlaces(raws[1..])
  }

  predicate NoEmptyDetail(p: Place) {
    p.category != "" && p.address != "" && p.city != ""
  }

  /** After normalisation no category, address or city is empty, and
      normalising a list whose details are already filled changes only the
      field names (it is a fixed point up to the record shape). */
  lemma NormalizedDetailsFilled(raws: seq<RawPlace>)
    ensures forall i :: 0 <= i < |raws| ==> NoEmptyDetail(NormalizePlaces(raws)[i])
    ensures (forall i :: 0 <= i < |raws| ==>
               raws[i].groupSicCodeName != "" && raws[i].address != "" && raws[i].city != "") ==>
            NormalizePlaces(raws) == seq(|raws|, i requires 0 <= i < |raws| =>
                                             Place(raws[i].name, raws[i].groupSicCodeName, raws[i].address, raws[i].city))
  {
  }

  /** The example of a result with every detail missing. */
  lemma AllPlaceholders()
    ensures NormalizePlaces([RawPlace("Cafe", "", "", "")]) == [Place("Cafe", "no category", "no address", "no city")]
  {
  }
}
