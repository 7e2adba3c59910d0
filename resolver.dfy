/** The cache store and the three cache-or-fetch decisions made around it: the
    state index (`build_state_url_dict`), a state's site list and a site's
    nearby places. Each resolver is a function from the cache before the call
    to the cache after it, the value handed back and the gateway calls made. */
module Resolver {
  import opened Text
  import opened Records

  // ---------------------------------------------------------------------------
  // Cache store
  // ---------------------------------------------------------------------------

  /** The cache: the state index stored under `'state_url'`, and one site list
      per lower-cased state name. */
  datatype Cache = Cache(stateUrl: Option<map<string, string>>, states: map<string, seq<SiteEntry>>)

  const EmptyCache: Cache := Cache(None, map[])

  /** What reading the cache file can give: no file, a file that does not
      parse, or a parsed cache. */
  datatype CacheFile = Missing | Malformed | Parsed(contents: Cache)

  /** `open_cache()`: any failure to read or parse yields the empty cache. */
  function OpenCache(f: CacheFile): (c: Cache)
    ensures f.Parsed? ==> c == f.contents
    ensures !f.Parsed? ==> c.stateUrl.None? && c.states == map[]
  {
    if f.Parsed? then f.contents else EmptyCache
  }

  // Python truthiness of the three kinds of cached value: an absent entry and
  // an empty one are both a miss.

  predicate IndexCached(c: Cache) {
    c.stateUrl.Some? && |c.stateUrl.value| > 0
  }

  predicate SitesCached(c: Cache, state: string) {
    state in c.states && |c.states[state]| > 0
  }

  predicate NearbyCached(e: SiteEntry) {
    e.nearby.Some? && |e.nearby.value| > 0
  }

  // ---------------------------------------------------------------------------
  // Gateways
  // ---------------------------------------------------------------------------

  /** A link to a state page found on the home page: its text and its href. */
  datatype Anchor = Anchor(text: string, href: string)

  /** The remote sources: the state links of the home page, the sites listed on
      a state page, and the places lookup keyed by its origin. */
  datatype Remote = Remote(homeAnchors: seq<Anchor>,
                           sitesAt: string -> seq<NationalSite>,
                           nearbyOf: string -> seq<RawPlace>)

  /** One call to a remote source. */
  datatype Fetch = FetchHome | FetchSites(url: string) | FetchNearby(origin: string)

  /** The outcome of a resolver: the new cache, the value returned, the calls made. */
  datatype Resolved<T> = Resolved(cache: Cache, value: T, fetches: seq<Fetch>)

  // ---------------------------------------------------------------------------
  // State index
  // ---------------------------------------------------------------------------

  const HomeUrl: string := "https://www.nps.gov/index.htm"
  const IndexChars: set<char> := {'/', 'i', 'n', 'd', 'e', 'x', '.', 'h', 't', 'm'}

  /** `home_url.rstrip('/index.htm')` strips a character set, not a suffix; on
      this URL it happens to remove exactly the suffix "/index.htm". */
  lemma HomeBase()
    ensures RStrip(HomeUrl, IndexChars) == LinkBase
  {
    var s := HomeUrl;
    assert s[..19] == "https://www.nps.gov";
    assert s[18] == 'v' && 'v' !in IndexChars;
    assert forall i :: 19 <= i < |s| ==> s[i] in IndexChars;
    var r := RStrip(s, IndexChars);
    assert |r| >= 19;
  }

  /** The prefix of every state locator: `home_url.rstrip('/index.htm')`,
      whose value `HomeBase` establishes. */
  const LinkBase: string := "https://www.nps.gov"

  /** The locator stored for one state link: the base followed by the href
      with surrounding spaces stripped. */
  function Link(href: string): (r: string)
    ensures |r| >= |LinkBase| && r[..|LinkBase|] == LinkBase
    ensures |r| > |LinkBase| ==> r[|LinkBase|] != ' ' && r[|r| - 1] != ' '
    ensures TrimmedFrom(r[|LinkBase|..], href, {' '})
  {
    LinkShape(href);
    LinkBase + Strip(href, {' '})
  }

  /** The shape of a state locator: the base, then the href cut down to a
      slice that neither starts nor ends with a space. */
  lemma LinkShape(href: string)
    ensures var r := LinkBase + Strip(href, {' '});
            && r[..|LinkBase|] == LinkBase
            && (|r| > |LinkBase| ==> r[|LinkBase|] != ' ' && r[|r| - 1] != ' ')
            && TrimmedFrom(r[|LinkBase|..], href, {' '})
  {
    var t := Strip(href, {' '});
    var r := LinkBase + t;
    assert r[..|LinkBase|] == LinkBase && r[|LinkBase|..] == t;
    StripEnds(href, {' '});
    StripSlice(href, {' '});
  }

  /** The (key, locator) pair each state link contributes: its lower-cased
      text and its locator. */
  function StateLinks(anchors: seq<Anchor>): (r: seq<(string, string)>)
    ensures |r| == |anchors|
    ensures forall i :: 0 <= i < |anchors| ==> r[i] == (Lower(anchors[i].text), Link(anchors[i].href))
  {
    seq(|anchors|, i requires 0 <= i < |anchors| => (Lower(anchors[i].text), Link(anchors[i].href)))
  }

  /** The dictionary built by assigning the pairs in order, a later pair
      overwriting an earlier one with the same key. */
  function MapOf(pairs: seq<(string, string)>): map<string, string>
    decreases |pairs|
  {
    if |pairs| == 0 then map[]
    else MapOf(pairs[..|pairs| - 1])[pairs[|pairs| - 1].0 := pairs[|pairs| - 1].1]
  }

  /** The dictionary `df` after the loop over the state links. */
  function IndexOf(anchors: seq<Anchor>): map<string, string> {
    MapOf(StateLinks(anchors))
  }

  /** The keys of the dictionary are exactly the keys of the pairs. */
  lemma {:induction false} MapOfKeys(pairs: seq<(string, string)>)
    ensures forall k :: k in MapOf(pairs) <==> exists i :: 0 <= i < |pairs| && pairs[i].0 == k
    decreases |pairs|
  {
    if |pairs| > 0 {
      var n := |pairs| - 1;
      var init := pairs[..n];
      MapOfKeys(init);
      forall k
        ensures k in MapOf(pairs) <==> exists i :: 0 <= i < |pairs| && pairs[i].0 == k
      {
        if k in MapOf(init) {
          var i :| 0 <= i < n && init[i].0 == k;
          assert pairs[i] == init[i];
        }
        if k != pairs[n].0 && exists i :: 0 <= i < |pairs| && pairs[i].0 == k {
          var i :| 0 <= i < |pairs| && pairs[i].0 == k;
          assert i < n && init[i] == pairs[i];
        }
      }
    }
  }

  /** Each key maps to the value of the last pair bearing it. */
  lemma {:induction false} MapOfLastWins(pairs: seq<(string, string)>, i: nat)
    requires i < |pairs|
    requires forall j :: i < j < |pairs| ==> pairs[j].0 != pairs[i].0
    ensures pairs[i].0 in MapOf(pairs) && MapOf(pairs)[pairs[i].0] == pairs[i].1
    decreases |pairs|
  {
    var n := |pairs| - 1;
    if i < n {
      var init := pairs[..n];
      assert forall j :: i <= j < n ==> init[j] == pairs[j];
      MapOfLastWins(init, i);
    }
  }

  /** The state index holds exactly the lower-cased link texts, all lower
      case, each mapped to the locator of the last link bearing it. */
  lemma IndexOfKeys(anchors: seq<Anchor>)
    ensures forall k :: k in IndexOf(anchors) <==> exists i :: 0 <= i < |anchors| && Lower(anchors[i].text) == k
    ensures forall k :: k in IndexOf(anchors) ==> IsLowerCase(k)
    ensures forall i :: 0 <= i < |anchors| &&
                        (forall j :: i < j < |anchors| ==> Lower(anchors[j].text) != Lower(anchors[i].text)) ==>
                        IndexOf(anchors)[Lower(anchors[i].text)] == Link(anchors[i].href)
  {
    var pairs := StateLinks(anchors);
    MapOfKeys(pairs);
    forall k | k in IndexOf(anchors)
      ensures IsLowerCase(k)
    {
      var i :| 0 <= i < |pairs| && pairs[i].0 == k;
      LowerCanonical(anchors[i].text);
    }
    forall i | 0 <= i < |anchors| &&
               (forall j :: i < j < |anchors| ==> Lower(anchors[j].text) != Lower(anchors[i].text))
      ensures IndexOf(anchors)[Lower(anchors[i].text)] == Link(anchors[i].href)
    {
      IndexOfLastLink(anchors, i);
    }
  }

  /** The locator stored for the last link bearing a given text. */
  lemma IndexOfLastLink(anchors: seq<Anchor>, i: nat)
    requires i < |anchors|
    requires forall j :: i < j < |anchors| ==> Lower(anchors[j].text) != Lower(anchors[i].text)
    ensures Lower(anchors[i].text) in IndexOf(anchors)
    ensures IndexOf(anchors)[Lower(anchors[i].text)] == Link(anchors[i].href)
  {
    var pairs := StateLinks(anchors);
    assert forall j :: i < j < |pairs| ==> pairs[j].0 != pairs[i].0;
    MapOfLastWins(pairs, i);
  }

  /** The index is empty exactly when the home page has no state link. */
  lemma IndexEmptyIff(anchors: seq<Anchor>)
    ensures |IndexOf(anchors)| == 0 <==> |anchors| == 0
  {
    if |anchors| > 0 {
      IndexOfKeys(anchors);
      assert Lower(anchors[0].text) in IndexOf(anchors);
    }
  }

  /** Taking one more link into account assigns its key. */
  lemma IndexOfSnoc(anchors: seq<Anchor>, i: nat)
    requires i < |anchors|
    ensures IndexOf(anchors[..i + 1]) == IndexOf(anchors[..i])[Lower(anchors[i].text) := Link(anchors[i].href)]
  {
    var pairs := StateLinks(anchors[..i + 1]);
    assert pairs[..i] == StateLinks(anchors[..i]);
    assert pairs[i] == (Lower(anchors[i].text), Link(anchors[i].href));
  }

  /** The loop of `build_state_url_dict` filling `df` link by link. */
  method BuildStateUrlDict(anchors: seq<Anchor>) returns (df: map<string, string>)
    ensures df == IndexOf(anchors)
  {
    df := map[];
    var i := 0;
    while i < |anchors|
      invariant 0 <= i <= |anchors|
      invariant df == IndexOf(anchors[..i])
    {
      var key := Lower(anchors[i].text);
      var link := Link(anchors[i].href);
      IndexOfSnoc(anchors, i);
      df := df[key := link];
      i := i + 1;
    }
    assert anchors[..i] == anchors;
  }

  /** `build_state_url_dict`: the cached index when it is present and
      non-empty, otherwise the index built from the home page, stored under
      `'state_url'` and returned. */
  function ResolveIndex(c: Cache, remote: Remote): (r: Resolved<map<string, string>>)
    ensures r.cache.states == c.states && r.cache.stateUrl == Some(r.value)
    ensures r.fetches == [] <==> IndexCached(c)
    ensures IndexCached(c) ==> r.cache == c && r.value == c.stateUrl.value
    ensures !IndexCached(c) ==> r.value == IndexOf(remote.homeAnchors) && r.fetches == [FetchHome]
  {
    if IndexCached(c) then Resolved(c, c.stateUrl.value, [])
    else
      var df := IndexOf(remote.homeAnchors);
      Resolved(c.(stateUrl := Some(df)), df, [FetchHome])
  }

  /** A second resolution in the same session makes no call and returns the
      same index, unless the home page offered no state link at all (an empty
      index is falsy and is fetched again). */
  lemma ResolveIndexIdempotent(c: Cache, remote: Remote)
    ensures var first := ResolveIndex(c, remote);
            var second := ResolveIndex(first.cache, remote);
            (IndexCached(c) || |remote.homeAnchors| > 0) <==> second == Resolved(first.cache, first.value, [])
  {
    IndexEmptyIff(remote.homeAnchors);
  }

  // ---------------------------------------------------------------------------
  // Site list of a state
  // ---------------------------------------------------------------------------

  function ToDicts(sites: seq<NationalSite>): (r: seq<SiteEntry>)
    ensures |r| == |sites|
    ensures forall i :: 0 <= i < |sites| ==> r[i] == ToDict(sites[i])
  {
    seq(|sites|, i requires 0 <= i < |sites| => ToDict(sites[i]))
  }

  /** The site-list branch of `main`: the cached list of `state` when it is
      present and non-empty, verbatim; otherwise the sites of the state's page
      as dictionaries, stored under the state key. */
  function ResolveSites(c: Cache, index: map<string, string>, state: string, remote: Remote): (r: Resolved<seq<SiteEntry>>)
    requires state in index
    ensures r.cache.stateUrl == c.stateUrl
    ensures state in r.cache.states && r.cache.states[state] == r.value
    ensures r.fetches == [] <==> SitesCached(c, state)
    ensures SitesCached(c, state) ==> r.cache == c && r.value == c.states[state]
    ensures !SitesCached(c, state) ==>
              r.fetches == [FetchSites(index[state])] && r.value == ToDicts(remote.sitesAt(index[state]))
  {
    if SitesCached(c, state) then Resolved(c, c.states[state], [])
    else
      var url := index[state];
      var sites := ToDicts(remote.sitesAt(url));
      Resolved(c.(states := c.states[state := sites]), sites, [FetchSites(url)])
  }

  /** Resolving a state's sites leaves every other state's entry as it was. */
  lemma ResolveSitesFrame(c: Cache, index: map<string, string>, state: string, remote: Remote)
    requires state in index
    ensures var r := ResolveSites(c, index, state, remote);
            && r.cache.states.Keys == c.states.Keys + {state}
            && forall k :: k != state && k in c.states ==> r.cache.states[k] == c.states[k]
  {
  }

  /** A second resolution of the same state makes no call and returns the same
      list, unless the state page listed no site. */
  lemma ResolveSitesIdempotent(c: Cache, index: map<string, string>, state: string, remote: Remote)
    requires state in index
    ensures var first := ResolveSites(c, index, state, remote);
            var second := ResolveSites(first.cache, index, state, remote);
            |first.value| > 0 <==> second == Resolved(first.cache, first.value, [])
  {
  }

  // ---------------------------------------------------------------------------
  // Nearby places of a site
  // ---------------------------------------------------------------------------

  /** The origin the places lookup is queried with for a site entry. */
  function NearbyOrigin(e: SiteEntry): string {
    e.site.zipcode
  }

  /** How the source obtains that origin on a miss: it rebuilds the site with
      `NationalSite(**entry)`, which fails when the entry already carries a
      (falsy) `"nearby"` key. */
  function NearbyOriginAsWritten(e: SiteEntry): (r: Option<string>)
    ensures r.None? <==> e.nearby.Some?
    ensures r.Some? ==> r.value == e.site.zipcode
  {
    match FromDict(e)
    case Some(site) => Some(site.zipcode)
    case None => None
  }

  /** On a miss, the source fails exactly when an empty nearby list is cached,
      and otherwise queries the same origin as the corrected resolver. */
  lemma AsWrittenOriginFails(e: SiteEntry)
    requires !NearbyCached(e)
    ensures NearbyOriginAsWritten(e).None? <==> e.nearby == Some([])
    ensures NearbyOriginAsWritten(e).Some? ==> NearbyOriginAsWritten(e).value == NearbyOrigin(e)
  {
  }

  /** The nearby-places branch of `main` for the site at list index `k` of
      `state`: the attached list when it is present and non-empty; otherwise
      the normalised results of the places lookup around the site's zipcode,
      attached to that site. Nothing else in the cache changes. */
  function ResolveNearby(c: Cache, state: string, k: nat, remote: Remote): (r: Resolved<seq<Place>>)
    requires state in c.states && k < |c.states[state]|
    ensures r.cache.stateUrl == c.stateUrl
    ensures state in r.cache.states && |r.cache.states[state]| == |c.states[state]|
    ensures r.cache.states[state][k] == c.states[state][k].(nearby := Some(r.value))
    ensures r.fetches == [] <==> NearbyCached(c.states[state][k])
    ensures NearbyCached(c.states[state][k]) ==> r.cache == c
    ensures !NearbyCached(c.states[state][k]) ==>
              var zip := c.states[state][k].site.zipcode;
              r.fetches == [FetchNearby(zip)] && r.value == NormalizePlaces(remote.nearbyOf(zip))
  {
    var list := c.states[state];
    var e := list[k];
    if NearbyCached(e) then Resolved(c, e.nearby.value, [])
    else
      var origin := NearbyOrigin(e);
      var places := NormalizePlaces(remote.nearbyOf(origin));
      Resolved(c.(states := c.states[state := list[k := e.(nearby := Some(places))]]), places, [FetchNearby(origin)])
  }

  /** Attaching nearby places to one site leaves every other state and every
      other site of the same state as it was. */
  lemma ResolveNearbyFrame(c: Cache, state: string, k: nat, remote: Remote)
    requires state in c.states && k < |c.states[state]|
    ensures var r := ResolveNearby(c, state, k, remote);
            && r.cache.states.Keys == c.states.Keys
            && (forall s :: s in c.states && s != state ==> r.cache.states[s] == c.states[s])
            && (forall j :: 0 <= j < |c.states[state]| && j != k ==> r.cache.states[state][j] == c.states[state][j])
  {
  }

  /** Re-selecting the same site makes no call and returns the identical list,
      unless the lookup found no place around it. */
  lemma ResolveNearbyIdempotent(c: Cache, state: string, k: nat, remote: Remote)
    requires state in c.states && k < |c.states[state]|
    ensures var first := ResolveNearby(c, state, k, remote);
            var second := ResolveNearby(first.cache, state, k, remote);
            |first.value| > 0 <==> second == Resolved(first.cache, first.value, [])
  {
  }

  /** When the lookup finds nothing, the empty list is attached; selecting the
      site again is a miss, on which the source's `NationalSite(**entry)`
      fails while the corrected resolver queries the zipcode again. */
  lemma EmptyNearbyThenReselect(c: Cache, state: string, k: nat, remote: Remote)
    requires state in c.states && k < |c.states[state]|
    requires !NearbyCached(c.states[state][k])
    requires remote.nearbyOf(c.states[state][k].site.zipcode) == []
    ensures var first := ResolveNearby(c, state, k, remote);
            var e := first.cache.states[state][k];
            && e.nearby == Some([])
            && NearbyOriginAsWritten(e).None?
            && ResolveNearby(first.cache, state, k, remote).fetches == [FetchNearby(c.states[state][k].site.zipcode)]
  {
  }

  // ---------------------------------------------------------------------------
  // The cache only grows
  // ---------------------------------------------------------------------------

  /** A cached site keeps its fields, an attached nearby list is never removed,
      and a non-empty one keeps its value. */
  predicate EntryEnriched(e: SiteEntry, e2: SiteEntry) {
    && e2.site == e.site
    && (e.nearby.Some? ==> e2.nearby.Some?)
    && (NearbyCached(e) ==> e2.nearby == e.nearby)
  }

  /** A non-empty cached site list keeps its length and each site is enriched. */
  predicate ListEnriched(l: seq<SiteEntry>, l2: seq<SiteEntry>) {
    |l| > 0 ==> |l2| == |l| && forall i :: 0 <= i < |l| ==> EntryEnriched(l[i], l2[i])
  }

  /** `c2` is `c` with entries added or enriched, never deleted, and with every
      non-empty cached value kept. */
  predicate Enriches(c: Cache, c2: Cache) {
    && (c.stateUrl.Some? ==> c2.stateUrl.Some?)
    && (IndexCached(c) ==> c2.stateUrl == c.stateUrl)
    && (forall s :: s in c.states ==> s in c2.states && ListEnriched(c.states[s], c2.states[s]))
  }

  lemma EnrichesTransitive(c1: Cache, c2: Cache, c3: Cache)
    requires Enriches(c1, c2) && Enriches(c2, c3)
    ensures Enriches(c1, c3)
  {
    forall s | s in c1.states
      ensures s in c3.states && ListEnriched(c1.states[s], c3.states[s])
    {
      var l1, l2, l3 := c1.states[s], c2.states[s], c3.states[s];
      if |l1| > 0 {
        assert |l2| == |l1| && |l2| > 0;
        forall i | 0 <= i < |l1|
          ensures EntryEnriched(l1[i], l3[i])
        {
          assert EntryEnriched(l1[i], l2[i]) && EntryEnriched(l2[i], l3[i]);
        }
      }
    }
  }

  /** Every resolver only adds to or enriches the cache. */
  lemma ResolversEnrich(c: Cache, index: map<string, string>, state: string, k: nat, remote: Remote)
    ensures Enriches(c, ResolveIndex(c, remote).cache)
    ensures state in index ==> Enriches(c, ResolveSites(c, index, state, remote).cache)
    ensures state in c.states && k < |c.states[state]| ==> Enriches(c, ResolveNearby(c, state, k, remote).cache)
  {
    if state in index {
      ResolveSitesFrame(c, index, state, remote);
    }
    if state in c.states && k < |c.states[state]| {
      ResolveNearbyFrame(c, state, k, remote);
      var c2 := ResolveNearby(c, state, k, remote).cache;
      assert ListEnriched(c.states[state], c2.states[state]);
    }
  }
}
