/** The interactive session of `main`: a state prompt and a site prompt over
    the cache, as a step function from (mode, input, cache) to the next mode,
    cache, displayed output and remote calls, and its run over a sequence of
    inputs. */
module Navigation {
  import opened Text
  import opened Records
  import opened Resolver

  /** Where the session is: at the state prompt, at the site prompt of a
      state, or terminated after saving the cache. */
  datatype Mode = ChoosingState | ViewingSiteList(state: string) | Exited

  /** What one input makes the session show. */
  datatype Output =
    | StateError                                        // "[Error] Enter proper state name"
    | SiteList(state: string, sites: seq<SiteEntry>)    // display_sites_info
    | NearbyList(places: seq<Place>)                    // display_nearby_places_info
    | SelectionError                                    // "[Error] Invalid input"
    | Back                                              // "back": to the state prompt
    | Saved(cache: Cache)                               // save_cache, then exit

  /** The session: its mode, the state index read once at start, the cache. */
  datatype Session = Session(mode: Mode, index: map<string, string>, cache: Cache)

  /** At the site prompt the state's list is in the cache. */
  predicate Valid(s: Session) {
    s.mode.ViewingSiteList? ==> s.mode.state in s.cache.states
  }

  datatype StepResult = StepResult(session: Session, output: Output, fetches: seq<Fetch>)

  /** The session at the first state prompt and the calls made to get there. */
  datatype StartResult = StartResult(session: Session, fetches: seq<Fetch>)

  /** The start of `main` on the cache read by `open_cache`: resolve the state
      index and wait at the state prompt. */
  function Start(file: CacheFile, remote: Remote): (r: StartResult)
    ensures r.session.mode == ChoosingState && Valid(r.session)
    ensures r.session.cache.stateUrl == Some(r.session.index)
    ensures r.session.cache.states == OpenCache(file).states
    ensures r.fetches == [] <==> IndexCached(OpenCache(file))
    ensures IndexCached(OpenCache(file)) ==>
              r.session.cache == OpenCache(file) && r.session.index == OpenCache(file).stateUrl.value
    ensures !IndexCached(OpenCache(file)) ==>
              r.session.index == IndexOf(remote.homeAnchors) && r.fetches == [FetchHome]
  {
    var o := ResolveIndex(OpenCache(file), remote);
    StartResult(Session(ChoosingState, o.value, o.cache), o.fetches)
  }

  /** One input of the session. At the state prompt the input is lower-cased
      and is an unknown name, "exit" or a state of the index; at the site
      prompt it is taken as is and is an offered ordinal, "exit", "back" or
      an error. */
  function Step(s: Session, input: string, remote: Remote): (r: StepResult)
    requires Valid(s) && !s.mode.Exited?
    ensures Valid(r.session) && r.session.index == s.index
    ensures r.session.mode.Exited? <==> r.output.Saved?
    ensures r.output.Saved? ==> r.output.cache == s.cache == r.session.cache && r.fetches == []
  {
    match s.mode
    case ChoosingState =>
      var name := Lower(input);
      if name !in s.index && name != "exit" then
        StepResult(s, StateError, [])
      else if name == "exit" then
        StepResult(s.(mode := Exited), Saved(s.cache), [])
      else
        var o := ResolveSites(s.cache, s.index, name, remote);
        StepResult(Session(ViewingSiteList(name), s.index, o.cache), SiteList(name, o.value), o.fetches)
    case ViewingSiteList(state) =>
      match SelectIndex(input, |s.cache.states[state]|)
      case Some(k) =>
        var o := ResolveNearby(s.cache, state, k, remote);
        StepResult(s.(cache := o.cache), NearbyList(o.value), o.fetches)
      case None =>
        if input == "exit" then StepResult(s.(mode := Exited), Saved(s.cache), [])
        else if input == "back" then StepResult(s.(mode := ChoosingState), Back, [])
        else StepResult(s, SelectionError, [])
  }

  /** No input deletes or alters a cached value: every step only adds to or
      enriches the cache. */
  lemma StepEnriches(s: Session, input: string, remote: Remote)
    requires Valid(s) && !s.mode.Exited?
    ensures Enriches(s.cache, Step(s, input, remote).session.cache)
  {
    match s.mode
    case ChoosingState =>
      ResolversEnrich(s.cache, s.index, Lower(input), 0, remote);
    case ViewingSiteList(state) =>
      var choice := SelectIndex(input, |s.cache.states[state]|);
      if choice.Some? {
        ResolversEnrich(s.cache, s.index, state, choice.value, remote);
      }
  }

  /** An unknown state name is reported and changes nothing: no call, same
      mode, same cache. */
  lemma UnknownStateStays(s: Session, input: string, remote: Remote)
    requires Valid(s) && s.mode.ChoosingState?
    requires Lower(input) !in s.index && Lower(input) != "exit"
    ensures Step(s, input, remote) == StepResult(s, StateError, [])
  {
  }

  /** State names are matched after lower-casing only: inputs that agree up to
      ASCII case lead to the same step. */
  lemma StateNameCaseInsensitive(s: Session, a: string, b: string, remote: Remote)
    requires Valid(s) && s.mode.ChoosingState?
    requires |a| == |b| && forall i :: 0 <= i < |a| ==> LowerChar(a[i]) == LowerChar(b[i])
    ensures Step(s, a, remote) == Step(s, b, remote)
  {
    LowerSameKey(a, b);
  }

  /** Choosing a state of the index enters its site prompt with the resolved
      list; the sites gateway is asked, with the state's locator, only when
      the cached list is absent or empty. */
  lemma ChooseState(s: Session, input: string, remote: Remote)
    requires Valid(s) && s.mode.ChoosingState?
    requires Lower(input) in s.index && Lower(input) != "exit"
    ensures var r := Step(s, input, remote);
            var name := Lower(input);
            && r.session.mode == ViewingSiteList(name)
            && r.output == SiteList(name, r.session.cache.states[name])
            && r.session.cache.stateUrl == s.cache.stateUrl
            && r.session.cache.states.Keys == s.cache.states.Keys + {name}
            && (SitesCached(s.cache, name) ==> r.session.cache == s.cache && r.fetches == [])
            && (!SitesCached(s.cache, name) ==>
                  && r.fetches == [FetchSites(s.index[name])]
                  && r.session.cache.states[name] == ToDicts(remote.sitesAt(s.index[name])))
            && (forall k :: k != name && k in s.cache.states ==> r.session.cache.states[k] == s.cache.states[k])
  {
    ResolveSitesFrame(s.cache, s.index, Lower(input), remote);
  }

  /** "exit" at either prompt saves the whole cache and terminates; at the
      state prompt it is recognised in any case, at the site prompt only
      as written. */
  lemma ExitSaves(s: Session, input: string, remote: Remote)
    requires Valid(s) && !s.mode.Exited?
    requires if s.mode.ChoosingState? then Lower(input) == "exit" else input == "exit"
    ensures Step(s, input, remote) == StepResult(s.(mode := Exited), Saved(s.cache), [])
  {
    if s.mode.ViewingSiteList? {
      OrdinalsExactlyCanonical(input, |s.cache.states[s.mode.state]|);
    }
  }

  /** At the site prompt "EXIT" is an invalid input, not an exit. */
  lemma UpperExitAtSitePrompt(s: Session, remote: Remote)
    requires Valid(s) && s.mode.ViewingSiteList?
    ensures Step(s, "EXIT", remote) == StepResult(s, SelectionError, [])
  {
    OrdinalsExactlyCanonical("EXIT", |s.cache.states[s.mode.state]|);
  }

  /** "back" returns to the state prompt with the cache unchanged. */
  lemma BackKeepsCache(s: Session, remote: Remote)
    requires Valid(s) && s.mode.ViewingSiteList?
    ensures Step(s, "back", remote) == StepResult(s.(mode := ChoosingState), Back, [])
  {
    OrdinalsExactlyCanonical("back", |s.cache.states[s.mode.state]|);
  }

  /** At the site prompt, anything but an offered ordinal, "exit" or "back" is
      reported and changes nothing. */
  lemma InvalidSelectionStays(s: Session, input: string, remote: Remote)
    requires Valid(s) && s.mode.ViewingSiteList?
    requires !(Canonical(input) && 1 <= Value(input) <= |s.cache.states[s.mode.state]|)
    requires input != "exit" && input != "back"
    ensures Step(s, input, remote) == StepResult(s, SelectionError, [])
  {
    OrdinalsExactlyCanonical(input, |s.cache.states[s.mode.state]|);
  }

  /** Selecting ordinal `str(k)` resolves the nearby places of list index
      `k - 1`: the attached list with no call when it is non-empty, otherwise
      the normalised lookup results around the site's zipcode, attached to
      that site alone. The session stays at the site prompt, and selecting
      the site again makes no call and shows the identical list when the
      first list was non-empty. */
  lemma SelectSiteTwice(s: Session, k: nat, remote: Remote)
    requires Valid(s) && s.mode.ViewingSiteList?
    requires 1 <= k <= |s.cache.states[s.mode.state]|
    ensures var r1 := Step(s, Str(k), remote);
            var st := s.mode.state;
            var e := s.cache.states[st][k - 1];
            && r1.session.mode == s.mode
            && r1.output.NearbyList?
            && r1.session.cache.states[st][k - 1].nearby == Some(r1.output.places)
            && (NearbyCached(e) ==> r1 == StepResult(s, NearbyList(e.nearby.value), []))
            && (!NearbyCached(e) ==>
                  && r1.fetches == [FetchNearby(e.site.zipcode)]
                  && r1.output == NearbyList(NormalizePlaces(remote.nearbyOf(e.site.zipcode))))
            && r1.session.cache.stateUrl == s.cache.stateUrl
            && r1.session.cache.states.Keys == s.cache.states.Keys
            && (forall t :: t in s.cache.states && t != st ==> r1.session.cache.states[t] == s.cache.states[t])
            && (forall j :: 0 <= j < |s.cache.states[st]| && j != k - 1 ==>
                  r1.session.cache.states[st][j] == s.cache.states[st][j])
            && (|r1.output.places| > 0 ==> Step(r1.session, Str(k), remote) == StepResult(r1.session, r1.output, []))
  {
    var st := s.mode.state;
    var n := |s.cache.states[st]|;
    ValueOfStr(k);
    OrdinalsExactlyCanonical(Str(k), n);
    assert SelectIndex(Str(k), n) == Some(k - 1);
    ResolveNearbyFrame(s.cache, st, k - 1, remote);
    var r1 := Step(s, Str(k), remote);
    assert |r1.session.cache.states[st]| == n;
    assert SelectIndex(Str(k), |r1.session.cache.states[st]|) == Some(k - 1);
  }

  // ---------------------------------------------------------------------------
  // A whole session
  // ---------------------------------------------------------------------------

  datatype RunResult = RunResult(session: Session, outputs: seq<Output>, fetches: seq<Fetch>)

  /** The two nested prompt loops of `main` fed with `inputs`, until the
      inputs run out or the session exits, keeping the index read at start. */
  function Run(s: Session, inputs: seq<string>, remote: Remote): (r: RunResult)
    requires Valid(s)
    ensures Valid(r.session) && r.session.index == s.index
    decreases |inputs|
  {
    if |inputs| == 0 || s.mode.Exited? then RunResult(s, [], [])
    else
      var step := Step(s, inputs[0], remote);
      var rest := Run(step.session, inputs[1..], remote);
      RunResult(rest.session, [step.output] + rest.outputs, step.fetches + rest.fetches)
  }

  /** A session that has not exited saves the cache at most once: only as its
      last output, exactly when it ends in the exited mode, and with the
      final cache. */
  lemma {:induction false} RunSavesOnceAtEnd(s: Session, inputs: seq<string>, remote: Remote)
    requires Valid(s) && !s.mode.Exited?
    ensures var r := Run(s, inputs, remote);
            && (forall i :: 0 <= i < |r.outputs| - 1 ==> !r.outputs[i].Saved?)
            && (r.session.mode.Exited? <==> (|r.outputs| > 0 && r.outputs[|r.outputs| - 1].Saved?))
            && (r.session.mode.Exited? ==> r.outputs[|r.outputs| - 1] == Saved(r.session.cache))
    decreases |inputs|
  {
    if |inputs| > 0 {
      var step := Step(s, inputs[0], remote);
      var rest := Run(step.session, inputs[1..], remote);
      assert Run(s, inputs, remote) == RunResult(rest.session, [step.output] + rest.outputs, step.fetches + rest.fetches);
      if step.session.mode.Exited? {
        assert rest == RunResult(step.session, [], []);
      } else {
        RunSavesOnceAtEnd(step.session, inputs[1..], remote);
      }
    }
  }

  /** Over a whole session the cache only grows: entries are added or
      enriched, never deleted, and a non-empty cached value is never replaced. */
  lemma {:induction false} RunEnriches(s: Session, inputs: seq<string>, remote: Remote)
    requires Valid(s)
    ensures Enriches(s.cache, Run(s, inputs, remote).session.cache)
    decreases |inputs|
  {
    if |inputs| > 0 && !s.mode.Exited? {
      var step := Step(s, inputs[0], remote);
      StepEnriches(s, inputs[0], remote);
      RunEnriches(step.session, inputs[1..], remote);
      EnrichesTransitive(s.cache, step.session.cache, Run(step.session, inputs[1..], remote).session.cache);
    }
  }

  /** Unfolding one input of a session that has not exited. */
  lemma RunCons(s: Session, x: string, rest: seq<string>, remote: Remote)
    requires Valid(s) && !s.mode.Exited?
    ensures var step := Step(s, x, remote);
            var tail := Run(step.session, rest, remote);
            Run(s, [x] + rest, remote) == RunResult(tail.session, [step.output] + tail.outputs, step.fetches + tail.fetches)
  {
    assert ([x] + rest)[0] == x && ([x] + rest)[1..] == rest;
  }

  /** Choosing "1" at the site prompt of a one-site list without nearby places. */
  lemma MichiganSelectFirst(s1: Session, s2: Session, remote: Remote, site: NationalSite, raws: seq<RawPlace>)
    requires remote.nearbyOf(site.zipcode) == raws
    requires s1 == Session(ViewingSiteList("michigan"), s1.index, Cache(s1.cache.stateUrl, map["michigan" := [ToDict(site)]]))
    requires s2 == s1.(cache := s1.cache.(states := map["michigan" := [SiteEntry(site, Some(NormalizePlaces(raws)))]]))
    ensures Step(s1, "1", remote) == StepResult(s2, NearbyList(NormalizePlaces(raws)), [FetchNearby(site.zipcode)])
  {
    assert Str(1) == "1";
    OrdinalsExactlyCanonical("1", 1);
    assert SelectIndex("1", 1) == Some(0);
    var places := NormalizePlaces(raws);
    assert [ToDict(site)][0 := SiteEntry(site, Some(places))] == [SiteEntry(site, Some(places))];
    assert s1.cache.states["michigan"][0 := SiteEntry(site, Some(places))] == [SiteEntry(site, Some(places))];
    assert s1.cache.states["michigan" := [SiteEntry(site, Some(places))]] == s2.cache.states;
    assert ResolveNearby(s1.cache, "michigan", 0, remote) == Resolved(s2.cache, places, [FetchNearby(site.zipcode)]);
  }

  /** Choosing "1" again: a non-empty attached list is served from the cache. */
  lemma MichiganSelectAgain(s2: Session, remote: Remote, site: NationalSite, places: seq<Place>)
    requires |places| > 0
    requires s2 == Session(ViewingSiteList("michigan"), s2.index,
                           Cache(s2.cache.stateUrl, map["michigan" := [SiteEntry(site, Some(places))]]))
    ensures Step(s2, "1", remote) == StepResult(s2, NearbyList(places), [])
  {
    assert Str(1) == "1";
    OrdinalsExactlyCanonical("1", 1);
    assert SelectIndex("1", 1) == Some(0);
  }

  /** The last two inputs of `MichiganTail`: "1" served from the cache, then
      "exit" saving the cache once. */
  lemma MichiganAgainThenExit(s2: Session, remote: Remote, site: NationalSite, places: seq<Place>)
    requires |places| > 0
    requires s2 == Session(ViewingSiteList("michigan"), s2.index,
                           Cache(s2.cache.stateUrl, map["michigan" := [SiteEntry(site, Some(places))]]))
    ensures Run(s2, ["1", "exit"], remote) ==
            RunResult(s2.(mode := Exited), [NearbyList(places), Saved(s2.cache)], [])
  {
    ExitSaves(s2, "exit", remote);
    RunCons(s2, "exit", [], remote);
    assert ["exit"] + [] == ["exit"];
    MichiganSelectAgain(s2, remote, site, places);
    RunCons(s2, "1", ["exit"], remote);
    assert ["1"] + ["exit"] == ["1", "exit"];
  }

  /** At the site prompt of a one-site list without nearby places, when the
      lookup finds something: "1" fetches the places around the site's
      zipcode, "1" again shows the identical list without a call, and "exit"
      saves the enriched cache once. */
  lemma MichiganTail(s1: Session, remote: Remote, site: NationalSite, raws: seq<RawPlace>)
    requires |raws| > 0 && remote.nearbyOf(site.zipcode) == raws
    requires s1 == Session(ViewingSiteList("michigan"), s1.index, Cache(s1.cache.stateUrl, map["michigan" := [ToDict(site)]]))
    ensures var s2 := s1.(cache := s1.cache.(states := map["michigan" := [SiteEntry(site, Some(NormalizePlaces(raws)))]]));
            var out := NearbyList(NormalizePlaces(raws));
            Run(s1, ["1", "1", "exit"], remote) ==
            RunResult(s2.(mode := Exited), [out, out, Saved(s2.cache)], [FetchNearby(site.zipcode)])
  {
    var places := NormalizePlaces(raws);
    var s2 := s1.(cache := s1.cache.(states := map["michigan" := [SiteEntry(site, Some(places))]]));
    var rest := RunResult(s2.(mode := Exited), [NearbyList(places), Saved(s2.cache)], []);
    MichiganSelectFirst(s1, s2, remote, site, raws);
    var step := Step(s1, "1", remote);
    assert step.session == s2;
    MichiganAgainThenExit(s2, remote, site, places);
    assert Run(step.session, ["1", "exit"], remote) == rest;
    RunCons(s1, "1", ["1", "exit"], remote);
    assert ["1"] + ["1", "exit"] == ["1", "1", "exit"];
  }
}
