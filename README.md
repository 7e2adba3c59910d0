# National park sites browser: cache and navigation model

This project models the core of `proj2_nps.py`, a console program for browsing
United States national park sites by state. It shows a state's sites and, for
a chosen site, the places around it. Every remote result is kept in one
cache, read at start and written back on exit. The model covers four things:

- the cache;
- the three cache-or-fetch decisions around the cache: the state index, a
  state's site list, and a site's nearby places;
- the normalisation of nearby-place results;
- the two-prompt session of `main`.

Modules:

- `Text` (text.dfy): these Python operations, restricted to ASCII:
  - `str.lower()`;
  - `str(k)` and `int(s)` on decimal ordinals;
  - the membership test that accepts a site selection;
  - `strip`/`rstrip` with a character set.
- `Records` (records.dfy): the records and their conversions:
  - `NationalSite`;
  - its cached dictionary form, `SiteEntry`, which has an optional `"nearby"` key;
  - `to_dict` and `NationalSite(**d)`, with their round trip;
  - `info()`;
  - the normalisation of search results into nearby places.
- `Resolver` (resolver.dfy): the cache value and `open_cache`. It also holds
  the three resolvers as functions. Each takes the cache before the call and
  returns the cache after it, the value handed back and the list of remote
  calls made. The module also defines the "only grows" order on caches
  (`Enriches`).
- `Navigation` (navigation.dfy): the session as a step function, with these
  modes:
  - `ChoosingState`;
  - `ViewingSiteList(state)`;
  - `Exited`.

  `Run` feeds it a sequence of inputs. The module also holds the lemmas on
  transitions, on idempotent re-selection and on the cache only growing.
- `Program` (program.dfy): the class `NpsSession`, which keeps the cache in
  fields and changes them in place. Its methods mirror the source:
  - `ResolveIndex`, whose loop fills the dictionary as `build_state_url_dict` does;
  - `ResolveSites` and `ResolveNearby`, which attach nearby places in place;
  - `Step`;
  - `Run`, the prompt loops.

  Each method is proved equal to the corresponding function. `Browse` puts
  them together as the program does: load the cache, resolve the index once,
  then run the prompt loops.

The remote sources are the abstract `Remote` value:
- the state links of the home page;
- a function from a state locator to that state's sites;
- a function from an origin to the raw search results.

The model shows when each source is asked (the `Fetch` log) and what is stored.
It does not show how pages or JSON are parsed.

Behaviour of the code worth knowing; the model follows the code:
- State names are only lower-cased, never trimmed: `" michigan"` is an
  unknown state (`Text.MichiganExample`).
- Every "is it cached" test is Python truthiness. An empty index, an empty
  site list and an empty nearby list are all misses and are fetched again.
  So "a second call performs no fetch" holds only when the first result was
  non-empty. The idempotence lemmas state this as an if-and-only-if.
- There is no separate site-detail state. After the nearby places are shown,
  the session stays at the site prompt.
- `"exit"` is recognised in any case at the state prompt, because the input
  is lower-cased there. At the site prompt it must be written exactly as
  `exit`; `"EXIT"` there is an invalid input.
- Remote failures are not caught by the source. See "Left out".

## Model

| member | source | states |
|---|---|---|
| Text.Lower | proj2_nps.py:252 | `str.lower()` keeps the length and maps each character to its lower-case form, position by position |
| Text.LowerCanonical | proj2_nps.py:118 | a lower-cased key is lower case and lower-casing it again changes nothing |
| Text.LowerSameKey | proj2_nps.py:252 | two inputs give the same lookup key iff they have equal length and agree letter by letter up to ASCII case |
| Text.MichiganExample | proj2_nps.py:252 | "Michigan" and "michigan" address the key "michigan"; " michigan" does not (no trimming) |
| Text.ValueOfStr | proj2_nps.py:273 | `int(str(k)) == k`, and `str(k)` for k >= 1 is digits only with no leading zero |
| Text.Str | proj2_nps.py:272 | `str(x)` is a non-empty string of decimal digits that starts with '0' only for zero |
| Text.StrOfCanonical | proj2_nps.py:272-273 | every non-empty digit string without a leading zero is `str` of its value, which is at least 1 |
| Text.OrdinalsExactlyCanonical | proj2_nps.py:272 | the input is among `str(1)..str(n)` iff it is a canonical decimal whose value is in 1..n |
| Text.SelectIndex | proj2_nps.py:272-273 | accepted iff the input is in the offered list; the index used is k-1 where the input is `str(k)`, and it is below the list length |
| Text.SelectionExamples | proj2_nps.py:272-273 | with three sites "1" selects index 0 and "3" index 2; "0", "01" and "4" are refused |
| Text.RStrip | proj2_nps.py:119 | `rstrip(chars)` leaves a prefix that does not end in a stripped character, and removes only characters of the set |
| Text.LStrip | proj2_nps.py:119 | `lstrip(chars)` leaves a suffix that does not start with a stripped character, and removes only characters of the set |
| Text.StripEnds | proj2_nps.py:119 | what `strip(chars)` leaves neither starts nor ends with a character of the set |
| Text.StripSlice | proj2_nps.py:119 | `strip(chars)` leaves a slice of its input, cutting off only a leading and a trailing run of characters of the set |
| Records.Info | proj2_nps.py:87-88 | `info()` is the name, " (", the category, "): ", the address, a space and the zipcode, in that order, and nothing else |
| Records.ToDict | proj2_nps.py:90-91 | `to_dict()` holds the site's fields and no "nearby" key |
| Records.FromDict | proj2_nps.py:279 | `NationalSite(**d)` succeeds iff `d` has no "nearby" key, and then `to_dict` of the result gives `d` back |
| Records.DictRoundTrip | proj2_nps.py:90-91 | `NationalSite(**to_dict(s))` gives back `s`, and rebuilding from a dictionary succeeds exactly on dictionaries produced by `to_dict` (no "nearby" key) |
| Records.OrPlaceholder | proj2_nps.py:282 | a non-empty field passes through, an empty one becomes its placeholder; the result is never empty |
| Records.NormalizePlaces | proj2_nps.py:280-285 | same length and order as the search results, element i being `NormalizePlace` of result i: names copied, each empty category/address/city replaced by "no category"/"no address"/"no city", each non-empty one kept |
| Records.NormalizedDetailsFilled | proj2_nps.py:280-285 | no normalised place has an empty category, address or city; results whose details are all filled are only reshaped |
| Records.AllPlaceholders | proj2_nps.py:282-284 | a result with every detail empty gets all three placeholders |
| Resolver.OpenCache | proj2_nps.py:31-38 | a parsed file gives its contents; a missing or unparsable file gives the empty cache |
| Resolver.HomeBase | proj2_nps.py:119 | `home_url.rstrip('/index.htm')` strips a character set, yet on this URL yields exactly "https://www.nps.gov" |
| Resolver.Link | proj2_nps.py:119 | a state locator is "https://www.nps.gov" followed by a slice of the href that cuts off only leading and trailing spaces, and that slice neither starts nor ends with a space |
| Resolver.LinkShape | proj2_nps.py:119 | the same shape, stated of `home_url.rstrip(...) + href.strip(' ')` with the base of `Resolver.HomeBase` |
| Resolver.MapOfKeys | proj2_nps.py:117-120 | the dictionary filled pair by pair has exactly the keys of the pairs |
| Resolver.MapOfLastWins | proj2_nps.py:120 | a key maps to the value of the last pair assigning it |
| Resolver.IndexOfKeys | proj2_nps.py:116-120 | the index `IndexOf` (the dictionary `df` after the loop) holds exactly the lower-cased link texts, all lower case, each mapped to the locator of the last link bearing it |
| Resolver.IndexOfLastLink | proj2_nps.py:117-120 | the lower-cased text of a link that no later link shares is a key, mapped to that link's locator |
| Resolver.IndexEmptyIff | proj2_nps.py:115-121 | the built index is empty iff the home page has no state link |
| Resolver.IndexOfSnoc | proj2_nps.py:117-120 | one more iteration of the loop assigns the lower-cased text of the next link to its locator |
| Resolver.BuildStateUrlDict | proj2_nps.py:116-120 | the loop leaves `df` equal to the index built from all links |
| Resolver.ResolveIndex | proj2_nps.py:107-122 | a call is made iff the cached index is absent or empty; on a hit the cached index is returned and nothing changes; on a miss the built index is stored under 'state_url' and returned; site lists are untouched |
| Resolver.ResolveIndexIdempotent | proj2_nps.py:107-122 | a second resolution makes no call and returns the same index iff the index was cached or the home page has a state link |
| Resolver.ToDicts | proj2_nps.py:266 | the stored list has one dictionary per fetched site, in order, each without a "nearby" key |
| Resolver.ResolveSites | proj2_nps.py:260-267 | a call, with the state's locator, is made iff the state's cached list is absent or empty; a hit returns the cached list verbatim (nearby lists included) and changes nothing; a miss stores the fetched sites as dictionaries under the state key and returns them |
| Resolver.ResolveSitesFrame | proj2_nps.py:267 | only the state's key is added or replaced; every other state's list is unchanged |
| Resolver.ResolveSitesIdempotent | proj2_nps.py:260-263 | resolving the same state again makes no call and returns the same list iff the list is non-empty |
| Resolver.NearbyOriginAsWritten | proj2_nps.py:279 | rebuilding the site from its cached dictionary fails iff the entry already carries a "nearby" key, and otherwise yields the site's zipcode as the origin |
| Resolver.AsWrittenOriginFails | proj2_nps.py:279 | on a miss, rebuilding the site with `NationalSite(**entry)` fails iff an empty nearby list is cached, and otherwise gives the site's zipcode |
| Resolver.ResolveNearby | proj2_nps.py:274-286 | a call is made iff the site's nearby list is absent or empty; a miss queries the site's zipcode and attaches the normalised results to that site; the returned list is the one attached; the index and the list length are unchanged |
| Resolver.ResolveNearbyFrame | proj2_nps.py:286 | every other state and every other site of the same state is unchanged |
| Resolver.ResolveNearbyIdempotent | proj2_nps.py:274-276 | re-selecting the site makes no call and returns the identical list iff that list is non-empty |
| Resolver.EmptyNearbyThenReselect | proj2_nps.py:274-286 | after a lookup that found nothing, the empty list is attached; re-selecting is a miss on which the source's rebuild fails and the corrected resolver queries the zipcode again |
| Resolver.EnrichesTransitive | proj2_nps.py:57 | "only adds or enriches" composes over successive changes of the one cache |
| Resolver.ResolversEnrich | proj2_nps.py:107-286 | each of the three resolvers only adds to or enriches the cache: no state, site or attached nearby list is removed, no site's fields change, and no non-empty cached value is replaced (empty ones may be fetched again) |
| Navigation.Start | proj2_nps.py:249 | the session starts at the state prompt with the index stored in the cache; the home page is fetched iff the loaded cache holds no non-empty index; on a hit the loaded cache and its index are kept as they are, on a miss the index is the one built from the home page |
| Navigation.Step | proj2_nps.py:251-294 | a step keeps the index and the site-prompt invariant; it exits iff it saves, and it saves the unchanged cache without any call |
| Navigation.StepEnriches | proj2_nps.py:251-294 | no input deletes a cached entry or alters a non-empty cached value; only empty cached lists may be replaced by fetched ones |
| Navigation.UnknownStateStays | proj2_nps.py:253-255 | an unknown name other than "exit" gives the error, makes no call, and leaves mode and cache as they were |
| Navigation.StateNameCaseInsensitive | proj2_nps.py:252-253 | inputs that agree up to ASCII case make the same step at the state prompt |
| Navigation.ChooseState | proj2_nps.py:259-268 | a known name enters its site prompt and shows the resolved list; on a hit nothing changes and no call is made; on a miss the sites source is asked with the state's locator and its sites, as dictionaries, are stored and shown; no other state key is added, and the index entry and every other state are unchanged |
| Navigation.ExitSaves | proj2_nps.py:256-258 | "exit" at the state prompt (any case) or at the site prompt (exactly) saves the whole cache, changes nothing and terminates |
| Navigation.UpperExitAtSitePrompt | proj2_nps.py:288-294 | "EXIT" at the site prompt is an invalid input, not an exit |
| Navigation.BackKeepsCache | proj2_nps.py:291-292 | "back" returns to the state prompt with the cache unchanged and no call |
| Navigation.InvalidSelectionStays | proj2_nps.py:293-294 | any input that is not an offered ordinal, "exit" or "back" gives the error and changes nothing |
| Navigation.SelectSiteTwice | proj2_nps.py:272-287 | `str(k)` resolves the places of list index k-1 and attaches them there; on a hit it shows the attached list with no call and nothing changed; on a miss it queries that site's zipcode and shows the normalised results; no state key is added and every other site and state is unchanged; selecting it again, when the list is non-empty, makes no call and shows the identical list |
| Navigation.Run | proj2_nps.py:251-294 | a run of the prompt loops keeps the index read at start and the site-prompt invariant |
| Navigation.RunSavesOnceAtEnd | proj2_nps.py:256-258 | the cache is saved at most once: only as the last output, exactly when the session has exited, and with the final cache |
| Navigation.RunEnriches | proj2_nps.py:251-294 | over a whole session the cache only grows: no entry or attached nearby list is deleted and no non-empty cached value is replaced |
| Navigation.RunCons | proj2_nps.py:251-294 | a session on `x` followed by more inputs is one step on `x` and then the rest |
| Navigation.MichiganSelectFirst | proj2_nps.py:274-287 | choosing "1" on a one-site list without nearby places queries its zipcode and attaches and shows the normalised results, whatever they are |
| Navigation.MichiganSelectAgain | proj2_nps.py:274-276 | choosing "1" again, with a non-empty list attached, is served from the cache with no call |
| Navigation.MichiganTail | proj2_nps.py:270-290 | when the lookup finds at least one place, inputs "1", "1", "exit" make one places call, show the same list twice, then save the enriched cache once |
| Navigation.MichiganAgainThenExit | proj2_nps.py:274-290 | with a non-empty list attached, inputs "1", "exit" show it without a call and then save the cache once |
| Program.NpsSession.constructor | proj2_nps.py:57 | the session's cache is what `open_cache` gives, at the state prompt, with no call made |
| Program.NpsSession.ResolveIndex | proj2_nps.py:107-122 | the in-place cache, the returned index and the call log are those of `Resolver.ResolveIndex` |
| Program.NpsSession.Start | proj2_nps.py:249 | the index kept for the session is the resolved one |
| Program.NpsSession.ResolveSites | proj2_nps.py:260-267 | the in-place cache, the returned list and the call log are those of `Resolver.ResolveSites` |
| Program.NpsSession.ResolveNearby | proj2_nps.py:274-286 | the nearby list is attached to the site in place; cache, returned list and log are those of `Resolver.ResolveNearby` |
| Program.NpsSession.Step | proj2_nps.py:251-294 | one input changes mode and cache in place exactly as `Navigation.Step` says, and logs its calls |
| Program.NpsSession.Run | proj2_nps.py:251-294 | the prompt loops change the session in place exactly as `Navigation.Run` says, and log its calls |
| Program.Browse | proj2_nps.py:248-294 | loading the cache, resolving the index once and running the prompt loops give the session, outputs and calls of `Navigation.Start` followed by `Navigation.Run` |

## Left out

- Page scraping (`get_site_instance`, `get_sites_for_state`, the link search
  in `build_state_url_dict`) is not modelled. The home page is given as its
  state links, and a state page as the list of sites it yields. The empty-field
  fallbacks for a site's address and zipcode live in that scraping and are not
  modelled either.
- The HTTP request to the places lookup and its key, radius, match limit and
  ambiguity parameters are not modelled. The lookup is a function of the
  origin only.
- Remote failures are not modelled: network errors, a page without the
  expected elements, a lookup answer without `searchResults`, a search result
  without `fields` or without one of its `group_sic_code_name`, `address` or
  `city` entries (the `KeyError` of lines 281-284; `RawPlace` always has all
  four). In the source
  they raise out of `main` and end the program without saving. The model's
  remote sources always answer.
- JSON reading and writing are not modelled. `open_cache` becomes
  `OpenCache` over a missing, malformed or parsed file. `save_cache` becomes
  the `Saved` output carrying the cache that would be written.
- The cache is typed: an index slot plus a map from state name to site list.
  In the source it is one flat dictionary. Two source behaviours fall outside
  this typing:
  - A state whose lower-cased name is literally `state_url` would share the
    index's slot in the source. The model keeps the two apart.
  - A cache file whose entries have other shapes cannot be expressed.
- Console I/O is not modelled:
  - the prompts;
  - the "Using cache" and "Fetching" messages;
  - the formatting done by `display_sites_info` and `display_nearby_places_info`;
  - the end of the input stream.

  The outputs are abstract tags that carry the displayed data. A session is
  fed a finite sequence of inputs.
- `sys.exit` is modelled as the `Exited` mode, after which no input is read.
- Text.Lower: only ASCII letters are mapped. Python's `lower()` also maps
  other Unicode letters.
- Navigation.Step: selecting a site whose attached nearby list is empty
  queries the lookup again (the corrected `Resolver.ResolveNearby`), so
  `Navigation.Run`, the `NpsSession` methods and `Program.Browse` continue.
  The source instead raises `TypeError` at line 279 and ends without saving
  (see "## Findings").
- Navigation.Step: its own contract states the invariant and the exit/save
  link. What each kind of input does is stated by the lemmas next to it.
- The `my_secrets` import and the module-level side effect of reading the
  cache at import time are left out. The cache belongs to an explicit
  `NpsSession` object.

## Findings

| source | as written | input that shows it | evidently intended | confidence | as-written member | corrected member |
|---|---|---|---|---|---|---|
| proj2_nps.py:279 | on a nearby-places miss, the site is rebuilt with `NationalSite(**cache[state][k])`. That dictionary already has a `"nearby"` key when an empty list was attached earlier, so the constructor raises `TypeError` | a site whose places lookup returns an empty `searchResults` list, selected twice in one session | a miss queries the lookup again with the site's zipcode, whatever else the entry holds | high; not executed | Resolver.NearbyOriginAsWritten, exhibited by Resolver.AsWrittenOriginFails and Resolver.EmptyNearbyThenReselect | Resolver.ResolveNearby (origin `Resolver.NearbyOrigin`, the entry's zipcode), proved in Resolver.EmptyNearbyThenReselect to query that zipcode again |
