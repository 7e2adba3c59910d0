/** The running program: the session object whose methods mutate the cache
    in place, each proved against the corresponding function of `Resolver`
    or `Navigation`. */
module Program {
  import opened Text
  import opened Records
  import opened Resolver
  import opened Navigation

  lemma AppendAssoc<T>(a: seq<T>, b: seq<T>, c: seq<T>)
    ensures a + (b + c) == (a + b) + c
  {
  }

  /** The running program: the cache it mutates in place, the index it read at
      start, where it is, and the log of calls made to the remote sources. */
  class NpsSession {
    const remote: Remote
    var stateUrl: Option<map<string, string>>
    var states: map<string, seq<SiteEntry>>
    var index: map<string, string>
    var mode: Mode
    var fetchLog: seq<Fetch>

    function CacheView(): Cache
      reads this
    {
      Cache(stateUrl, states)
    }

    function SessionView(): Session
      reads this
    {
      Session(mode, index, CacheView())
    }

    /** The module-level `cache = open_cache()`. */
    constructor (file: CacheFile, remote: Remote)
      ensures this.remote == remote
      ensures CacheView() == OpenCache(file)
      ensures mode == ChoosingState && index == map[] && fetchLog == []
    {
      this.remote := remote;
      var c := OpenCache(file);
      stateUrl := c.stateUrl;
      states := c.states;
      index := map[];
      mode := ChoosingState;
      fetchLog := [];
    }

    /** `build_state_url_dict()`. */
    method ResolveIndex() returns (df: map<string, string>)
      modifies this
      ensures var r := Resolver.ResolveIndex(old(CacheView()), remote);
              CacheView() == r.cache && df == r.value && fetchLog == old(fetchLog) + r.fetches
      ensures mode == old(mode) && index == old(index)
    {
      if stateUrl.Some? && |stateUrl.value| > 0 {
        df := stateUrl.value;
      } else {
        df := BuildStateUrlDict(remote.homeAnchors);
        stateUrl := Some(df);
        fetchLog := fetchLog + [FetchHome];
      }
    }

    /** The opening line of `main`: the index it keeps for the whole session. */
    method Start()
      requires mode == ChoosingState
      modifies this
      ensures var r := Resolver.ResolveIndex(old(CacheView()), remote);
              CacheView() == r.cache && index == r.value && fetchLog == old(fetchLog) + r.fetches
      ensures mode == ChoosingState && Valid(SessionView())
    {
      index := ResolveIndex();
    }

    /** The site-list branch of `main`. */
    method ResolveSites(name: string) returns (sites: seq<SiteEntry>)
      requires name in index
      modifies this
      ensures var r := Resolver.ResolveSites(old(CacheView()), old(index), name, remote);
              CacheView() == r.cache && sites == r.value && fetchLog == old(fetchLog) + r.fetches
      ensures mode == old(mode) && index == old(index)
    {
      if name in states && |states[name]| > 0 {
        sites := states[name];
      } else {
        var url := index[name];
        sites := ToDicts(remote.sitesAt(url));
        states := states[name := sites];
        fetchLog := fetchLog + [FetchSites(url)];
      }
    }

    /** The nearby-places branch of `main`: attaches the list to the site in place. */
    method ResolveNearby(name: string, k: nat) returns (places: seq<Place>)
      requires name in states && k < |states[name]|
      modifies this
      ensures var r := Resolver.ResolveNearby(old(CacheView()), name, k, remote);
              CacheView() == r.cache && places == r.value && fetchLog == old(fetchLog) + r.fetches
      ensures mode == old(mode) && index == old(index)
    {
      var entry := states[name][k];
      if entry.nearby.Some? && |entry.nearby.value| > 0 {
        places := entry.nearby.value;
      } else {
        var origin := entry.site.zipcode;
        places := NormalizePlaces(remote.nearbyOf(origin));
        states := states[name := states[name][k := entry.(nearby := Some(places))]];
        fetchLog := fetchLog + [FetchNearby(origin)];
      }
    }

    /** One pass of the prompt loops of `main`. */
    method Step(input: string) returns (out: Output)
      requires Valid(SessionView()) && mode != Exited
      modifies this
      ensures var r := Navigation.Step(old(SessionView()), input, remote);
              SessionView() == r.session && out == r.output && fetchLog == old(fetchLog) + r.fetches
    {
      match mode
      case ChoosingState =>
        var name := Lower(input);
        if name !in index && name != "exit" {
          out := StateError;
        } else if name == "exit" {
          out := Saved(CacheView());
          mode := Exited;
        } else {
          var sites := ResolveSites(name);
          mode := ViewingSiteList(name);
          out := SiteList(name, sites);
        }
      case ViewingSiteList(name) =>
        var choice := SelectIndex(input, |states[name]|);
        if choice.Some? {
          var places := ResolveNearby(name, choice.value);
          out := NearbyList(places);
        } else if input == "exit" {
          out := Saved(CacheView());
          mode := Exited;
        } else if input == "back" {
          mode := ChoosingState;
          out := Back;
        } else {
          out := SelectionError;
        }
    }

    /** The prompt loops of `main` over a sequence of inputs, until they run out
      or the session exits. */
    method Run(inputs: seq<string>) returns (outs: seq<Output>)
      requires Valid(SessionView())
      modifies this
      ensures var r := Navigation.Run(old(SessionView()), inputs, remote);
              SessionView() == r.session && outs == r.outputs && fetchLog == old(fetchLog) + r.fetches
    {
      outs := [];
      ghost var calls: seq<Fetch> := [];
      var i := 0;
      while i < |inputs| && mode != Exited
        invariant 0 <= i <= |inputs|
        invariant Valid(SessionView()) && fetchLog == old(fetchLog) + calls
        invariant var rest := Navigation.Run(SessionView(), inputs[i..], remote);
                  Navigation.Run(old(SessionView()), inputs, remote) ==
                  RunResult(rest.session, outs + rest.outputs, calls + rest.fetches)
        decreases |inputs| - i
      {
        ghost var before := SessionView();
        ghost var step := Navigation.Step(before, inputs[i], remote);
        ghost var next := Navigation.Run(step.session, inputs[i + 1..], remote);
        RunCons(before, inputs[i], inputs[i + 1..], remote);
        assert [inputs[i]] + inputs[i + 1..] == inputs[i..];
        var out := Step(inputs[i]);
        AppendAssoc(outs, [out], next.outputs);
        AppendAssoc(calls, step.fetches, next.fetches);
        outs := outs + [out];
        calls := calls + step.fetches;
        i := i + 1;
      }
    }
  }

  /** The whole program: `cache = open_cache()`, then `main`, which resolves the
      state index once and runs the prompt loops over `inputs`. */
  method Browse(file: CacheFile, remote: Remote, inputs: seq<string>) returns (session: NpsSession, outs: seq<Output>)
    ensures var st := Navigation.Start(file, remote);
            var r := Navigation.Run(st.session, inputs, remote);
            && session.SessionView() == r.session && outs == r.outputs
            && session.fetchLog == st.fetches + r.fetches
  {
    ghost var st := Navigation.Start(file, remote);
    session := new NpsSession(file, remote);
    session.Start();
    assert session.SessionView() == st.session;
    ghost var startLog := session.fetchLog;
    outs := session.Run(inputs);
    assert startLog == st.fetches;
  }
}
