/** The aggregation rule "mutex": a source that is known to arrive somewhere is subscribed on at most
    one upstream interface. */
module MutexAggregation {
  import opened Defs
  import opened Aggregation

  /** The input interfaces of the known sources of a group. */
  type IfMap = map<Addr, IfIndex>

  /** The known sources that upstream `u` settles. */
  function Settled(cfg: ProxyConfig, g: Addr, u: IfIndex, st: State, known: IfMap): set<Addr> {
    set a | a in KeptAt(cfg, g, u, st) && a in known
  }

  /** The sources reported on `u` for the time being. */
  function Taken(cfg: ProxyConfig, g: Addr, u: IfIndex, st: State, known: IfMap): set<Addr> {
    set a | a in KeptAt(cfg, g, u, st) && (a in known ==> cfg.IsUpstream(known[a]))
  }

  function IfAny(v: View, d: IfIndex): seq<State> {
    if v.sources == {} then [] else [(v, d)]
  }

  /** The states left to the upstreams to come. */
  function Remaining(cfg: ProxyConfig, g: Addr, u: IfIndex, refs: seq<State>, known: IfMap): seq<State> {
    if refs == [] then []
    else
      var last := refs[|refs| - 1];
      Remaining(cfg, g, u, refs[..|refs| - 1], known)
        + IfAny(View(last.0.mode, last.0.sources - Settled(cfg, g, u, last, known)), last.1)
  }

  function TakenStates(cfg: ProxyConfig, g: Addr, u: IfIndex, refs: seq<State>, known: IfMap): seq<View> {
    if refs == [] then []
    else
      var last := refs[|refs| - 1];
      TakenStates(cfg, g, u, refs[..|refs| - 1], known)
        + NonEmpty(View(last.0.mode, Taken(cfg, g, u, last, known)))
  }

  function AllSettled(cfg: ProxyConfig, g: Addr, u: IfIndex, refs: seq<State>, known: IfMap): set<Addr> {
    if refs == [] then {}
    else AllSettled(cfg, g, u, refs[..|refs| - 1], known) + Settled(cfg, g, u, refs[|refs| - 1], known)
  }

  function NonEmpty(v: View): seq<View> {
    if v.sources == {} then [] else [v]
  }

  /** No view is without sources. */
  predicate AllList(views: seq<View>) {
    forall i | 0 <= i < |views| :: views[i].sources != {}
  }

  type Reports = seq<(IfIndex, seq<View>)>

  /** The views without the sources of `gone`; views that become empty are dropped. */
  function CleanViews(views: seq<View>, gone: set<Addr>): seq<View> {
    if views == [] then []
    else
      var last := views[|views| - 1];
      CleanViews(views[..|views| - 1], gone) + NonEmpty(View(last.mode, last.sources - gone))
  }

  function Clean(data: Reports, gone: set<Addr>): (r: Reports)
    ensures |r| == |data|
    ensures forall k | 0 <= k < |data| :: r[k] == (data[k].0, CleanViews(data[k].1, gone))
  {
    seq(|data|, k requires 0 <= k < |data| => (data[k].0, CleanViews(data[k].1, gone)))
  }

  function MutexStep(cfg: ProxyConfig, g: Addr, u: IfIndex, refs: seq<State>, known: IfMap, data: Reports): (r: Reports)
    ensures |r| == |data| + 1 && r[|data|].0 == u
    ensures forall k | 0 <= k < |data| :: r[k].0 == data[k].0
  {
    Clean(data, AllSettled(cfg, g, u, refs, known)) + [(u, TakenStates(cfg, g, u, refs, known))]
  }

  /** The reports for the upstreams `ups` after those of `data`. */
  function MutexMatch(cfg: ProxyConfig, g: Addr, ups: seq<IfIndex>, refs: seq<State>, known: IfMap, data: Reports): (r: Reports)
    ensures |r| == |data| + |ups|
    ensures forall k | 0 <= k < |data| :: r[k].0 == data[k].0
    ensures forall k | 0 <= k < |ups| :: r[|data| + k].0 == ups[k]
  {
    if ups == [] then data
    else
      MutexMatch(cfg, g, ups[1..], Remaining(cfg, g, ups[0], refs, known), known, MutexStep(cfg, g, ups[0], refs, known, data))
  }

  // ---------------------------------------------------------------- who is subscribed where

  ghost predicate Lists(views: seq<View>, a: Addr) {
    exists i :: 0 <= i < |views| && a in views[i].sources
  }

  lemma ListsSplit(v: seq<View>, w: seq<View>, a: Addr)
    ensures Lists(v + w, a) <==> Lists(v, a) || Lists(w, a)
  {
    if i :| 0 <= i < |v| && a in v[i].sources {
      assert (v + w)[i] == v[i];
    }
    if i :| 0 <= i < |w| && a in w[i].sources {
      assert (v + w)[|v| + i] == w[i];
    }
    if i :| 0 <= i < |v + w| && a in (v + w)[i].sources {
      if i < |v| {
        assert v[i] == (v + w)[i];
      } else {
        assert w[i - |v|] == (v + w)[i];
      }
    }
  }

  lemma ListsNonEmpty(v: View, a: Addr)
    ensures Lists(NonEmpty(v), a) <==> a in v.sources
  {
    if v.sources != {} {
      assert NonEmpty(v)[0] == v;
    }
  }

  lemma {:induction false} CleanLists(views: seq<View>, gone: set<Addr>, a: Addr)
    ensures Lists(CleanViews(views, gone), a) <==> Lists(views, a) && a !in gone
  {
    if views != [] {
      var front, last := views[..|views| - 1], views[|views| - 1];
      CleanLists(front, gone, a);
      ListsSplit(CleanViews(front, gone), NonEmpty(View(last.mode, last.sources - gone)), a);
      ListsNonEmpty(View(last.mode, last.sources - gone), a);
      ListsSplit(front, [last], a);
      assert front + [last] == views;
      assert Lists([last], a) <==> a in last.sources by {
        assert [last][0] == last;
      }
    }
  }

  /** Some downstream state lists `a` and gets it through the filters of `u`. */
  ghost predicate Wanted(cfg: ProxyConfig, g: Addr, u: IfIndex, refs: seq<State>, a: Addr) {
    exists i :: 0 <= i < |refs| && a in KeptAt(cfg, g, u, refs[i])
  }

  lemma WantedSplit(cfg: ProxyConfig, g: Addr, u: IfIndex, s: seq<State>, t: seq<State>, a: Addr)
    ensures Wanted(cfg, g, u, s + t, a) <==> Wanted(cfg, g, u, s, a) || Wanted(cfg, g, u, t, a)
  {
    if i :| 0 <= i < |s| && a in KeptAt(cfg, g, u, s[i]) {
      assert (s + t)[i] == s[i];
    }
    if i :| 0 <= i < |t| && a in KeptAt(cfg, g, u, t[i]) {
      assert (s + t)[|s| + i] == t[i];
    }
    if i :| 0 <= i < |s + t| && a in KeptAt(cfg, g, u, (s + t)[i]) {
      if i < |s| {
        assert s[i] == (s + t)[i];
      } else {
        assert t[i - |s|] == (s + t)[i];
      }
    }
  }

  lemma {:induction false} TakenLists(cfg: ProxyConfig, g: Addr, u: IfIndex, refs: seq<State>, known: IfMap, a: Addr)
    ensures Lists(TakenStates(cfg, g, u, refs, known), a) <==>
      Wanted(cfg, g, u, refs, a) && (a in known ==> cfg.IsUpstream(known[a]))
    ensures a in AllSettled(cfg, g, u, refs, known) <==> Wanted(cfg, g, u, refs, a) && a in known
  {
    if refs != [] {
      var front, last := refs[..|refs| - 1], refs[|refs| - 1];
      TakenLists(cfg, g, u, front, known, a);
      var v := View(last.0.mode, Taken(cfg, g, u, last, known));
      ListsSplit(TakenStates(cfg, g, u, front, known), NonEmpty(v), a);
      ListsNonEmpty(v, a);
      WantedSplit(cfg, g, u, front, [last], a);
      assert front + [last] == refs;
      assert Wanted(cfg, g, u, [last], a) <==> a in KeptAt(cfg, g, u, last) by {
        assert [last][0] == last;
      }
    }
  }

  /** An unknown source stays with every state that lists it. */
  lemma {:induction false} UnknownRemains(cfg: ProxyConfig, g: Addr, u: IfIndex, refs: seq<State>, known: IfMap, w: IfIndex, a: Addr)
    requires a !in known
    ensures Wanted(cfg, g, w, Remaining(cfg, g, u, refs, known), a) <==> Wanted(cfg, g, w, refs, a)
  {
    if refs != [] {
      var front, last := refs[..|refs| - 1], refs[|refs| - 1];
      UnknownRemains(cfg, g, u, front, known, w, a);
      var v := View(last.0.mode, last.0.sources - Settled(cfg, g, u, last, known));
      WantedSplit(cfg, g, w, Remaining(cfg, g, u, front, known), IfAny(v, last.1), a);
      WantedSplit(cfg, g, w, front, [last], a);
      assert front + [last] == refs;
      assert Wanted(cfg, g, w, [last], a) <==> a in KeptAt(cfg, g, w, last) by {
        assert [last][0] == last;
      }
      assert Wanted(cfg, g, w, IfAny(v, last.1), a) <==> a in KeptAt(cfg, g, w, last) by {
        assert a in last.0.sources <==> a in v.sources;
        if v.sources != {} {
          assert IfAny(v, last.1)[0] == (v, last.1);
        }
      }
    }
  }

  lemma UnknownStep(cfg: ProxyConfig, g: Addr, u: IfIndex, refs: seq<State>, known: IfMap, data: Reports, k: nat, a: Addr)
    requires a !in known && k <= |data|
    ensures Lists(MutexStep(cfg, g, u, refs, known, data)[k].1, a) <==>
      if k < |data| then Lists(data[k].1, a) else Wanted(cfg, g, u, refs, a)
  {
    TakenLists(cfg, g, u, refs, known, a);
    if k < |data| {
      CleanLists(data[k].1, AllSettled(cfg, g, u, refs, known), a);
    }
  }

  /** An unknown source is reported on exactly those upstreams whose filters accept it for some
      downstream that lists it. */
  lemma {:induction false} UnknownEverywhere(cfg: ProxyConfig, g: Addr, ups: seq<IfIndex>, refs: seq<State>, known: IfMap, data: Reports, k: nat, a: Addr)
    requires a !in known && k < |data| + |ups|
    ensures
      var r := MutexMatch(cfg, g, ups, refs, known, data);
      Lists(r[k].1, a) <==> if k < |data| then Lists(data[k].1, a) else Wanted(cfg, g, ups[k - |data|], refs, a)
  {
    hide Lists, Wanted, MutexStep, Remaining;
    if ups != [] {
      var u := ups[0];
      var data' := MutexStep(cfg, g, u, refs, known, data);
      UnknownEverywhere(cfg, g, ups[1..], Remaining(cfg, g, u, refs, known), known, data', k, a);
      if k <= |data| {
        UnknownStep(cfg, g, u, refs, known, data, k, a);
      } else {
        UnknownRemains(cfg, g, u, refs, known, ups[k - |data|], a);
      }
    }
  }

  lemma StepLists(cfg: ProxyConfig, g: Addr, u: IfIndex, refs: seq<State>, known: IfMap, data: Reports, a: Addr)
    requires a in known
    ensures
      var r := MutexStep(cfg, g, u, refs, known, data);
      && (forall k | 0 <= k < |data| :: Lists(r[k].1, a) <==> Lists(data[k].1, a) && !Wanted(cfg, g, u, refs, a))
      && (Lists(r[|data|].1, a) <==> Wanted(cfg, g, u, refs, a) && cfg.IsUpstream(known[a]))
  {
    TakenLists(cfg, g, u, refs, known, a);
    forall k | 0 <= k < |data|
      ensures
        var r := MutexStep(cfg, g, u, refs, known, data);
        Lists(r[k].1, a) <==> Lists(data[k].1, a) && !Wanted(cfg, g, u, refs, a)
    {
      CleanLists(data[k].1, AllSettled(cfg, g, u, refs, known), a);
    }
  }

  /** Upstream `k` is the first one to which the filters let source `a` of a downstream state through. */
  predicate FirstPassing(cfg: ProxyConfig, g: Addr, ups: seq<IfIndex>, k: nat, st: State, a: Addr)
    requires k < |ups|
  {
    a in KeptAt(cfg, g, ups[k], st) && forall j | 0 <= j < k :: a !in KeptAt(cfg, g, ups[j], st)
  }

  /** So it is for some downstream. */
  ghost predicate FirstForSome(cfg: ProxyConfig, g: Addr, ups: seq<IfIndex>, refs: seq<State>, k: nat, a: Addr)
    requires k < |ups|
  {
    exists i :: 0 <= i < |refs| && FirstPassing(cfg, g, ups, k, refs[i], a)
  }

  lemma FirstForSomeSplit(cfg: ProxyConfig, g: Addr, ups: seq<IfIndex>, s: seq<State>, t: seq<State>, k: nat, a: Addr)
    requires k < |ups|
    ensures FirstForSome(cfg, g, ups, s + t, k, a) <==> FirstForSome(cfg, g, ups, s, k, a) || FirstForSome(cfg, g, ups, t, k, a)
  {
    hide FirstPassing;
    if i :| 0 <= i < |s| && FirstPassing(cfg, g, ups, k, s[i], a) {
      assert (s + t)[i] == s[i];
    }
    if i :| 0 <= i < |t| && FirstPassing(cfg, g, ups, k, t[i], a) {
      assert (s + t)[|s| + i] == t[i];
    }
    if i :| 0 <= i < |s + t| && FirstPassing(cfg, g, ups, k, (s + t)[i], a) {
      if i < |s| {
        assert s[i] == (s + t)[i];
      } else {
        assert t[i - |s|] == (s + t)[i];
      }
    }
  }

  /** What remains of a state after the first upstream is first let through one upstream later. */
  lemma PassingLater(cfg: ProxyConfig, g: Addr, ups: seq<IfIndex>, st: State, known: IfMap, k: nat, a: Addr)
    requires a in known && k + 1 < |ups|
    ensures
      var left := IfAny(View(st.0.mode, st.0.sources - Settled(cfg, g, ups[0], st, known)), st.1);
      FirstForSome(cfg, g, ups[1..], left, k, a) <==> FirstPassing(cfg, g, ups, k + 1, st, a)
  {
    var rest := (View(st.0.mode, st.0.sources - Settled(cfg, g, ups[0], st, known)), st.1);
    forall j | 0 <= j < |ups| - 1
      ensures a in KeptAt(cfg, g, ups[1..][j], rest) <==> a in KeptAt(cfg, g, ups[j + 1], st) && a !in KeptAt(cfg, g, ups[0], st)
    {
    }
    if FirstPassing(cfg, g, ups, k + 1, st, a) {
      assert a in rest.0.sources;
      assert FirstPassing(cfg, g, ups[1..], k, rest, a);
      assert [rest][0] == rest;
    }
    if rest.0.sources != {} && FirstPassing(cfg, g, ups[1..], k, rest, a) {
      forall j | 0 <= j < k + 1
        ensures a !in KeptAt(cfg, g, ups[j], st)
      {
        assert j > 0 ==> a !in KeptAt(cfg, g, ups[1..][j - 1], rest);
      }
    }
  }

  lemma {:induction false} RemainingPasses(cfg: ProxyConfig, g: Addr, ups: seq<IfIndex>, refs: seq<State>, known: IfMap, k: nat, a: Addr)
    requires a in known && k + 1 < |ups|
    ensures FirstForSome(cfg, g, ups[1..], Remaining(cfg, g, ups[0], refs, known), k, a) <==> FirstForSome(cfg, g, ups, refs, k + 1, a)
  {
    hide FirstPassing;
    if refs != [] {
      var front, last := refs[..|refs| - 1], refs[|refs| - 1];
      RemainingPasses(cfg, g, ups, front, known, k, a);
      PassingLater(cfg, g, ups, last, known, k, a);
      var left := IfAny(View(last.0.mode, last.0.sources - Settled(cfg, g, ups[0], last, known)), last.1);
      FirstForSomeSplit(cfg, g, ups[1..], Remaining(cfg, g, ups[0], front, known), left, k, a);
      FirstForSomeSplit(cfg, g, ups, front, [last], k + 1, a);
      assert front + [last] == refs && [last][0] == last;
    }
  }

  /** The upstream where a known source is subscribed: the last one that is the first for some downstream. */
  ghost predicate SubscribedAt(cfg: ProxyConfig, g: Addr, ups: seq<IfIndex>, refs: seq<State>, k: nat, a: Addr)
    requires k < |ups|
  {
    FirstForSome(cfg, g, ups, refs, k, a) && forall l | k < l < |ups| :: !FirstForSome(cfg, g, ups, refs, l, a)
  }

  /** For any filters and modes: a known source is listed on upstream `k` if and only if it arrives on an upstream
      and `k` is the last upstream that is the first one for some downstream. */
  lemma {:induction false} KnownListed(cfg: ProxyConfig, g: Addr, ups: seq<IfIndex>, refs: seq<State>, known: IfMap, data: Reports, k: nat, a: Addr)
    requires a in known && k < |data| + |ups|
    ensures
      var r := MutexMatch(cfg, g, ups, refs, known, data);
      Lists(r[k].1, a) <==>
        if k < |data| then Lists(data[k].1, a) && forall l | 0 <= l < |ups| :: !FirstForSome(cfg, g, ups, refs, l, a)
        else cfg.IsUpstream(known[a]) && SubscribedAt(cfg, g, ups, refs, k - |data|, a)
  {
    hide Lists, Wanted, MutexStep, Remaining, FirstForSome;
    if ups != [] {
      var u, rest := ups[0], ups[1..];
      var left := Remaining(cfg, g, u, refs, known);
      KnownListed(cfg, g, rest, left, known, MutexStep(cfg, g, u, refs, known, data), k, a);
      StepLists(cfg, g, u, refs, known, data, a);
      FirstIsWanted(cfg, g, ups, refs, a);
      forall l | 0 <= l < |rest|
        ensures FirstForSome(cfg, g, rest, left, l, a) <==> FirstForSome(cfg, g, ups, refs, l + 1, a)
      {
        RemainingPasses(cfg, g, ups, refs, known, l, a);
      }
      assert (forall l | 0 <= l < |rest| :: !FirstForSome(cfg, g, rest, left, l, a)) <==>
        (forall l | 1 <= l < |ups| :: !FirstForSome(cfg, g, ups, refs, l, a)) by {
        assert forall l | 1 <= l < |ups| :: FirstForSome(cfg, g, ups, refs, l, a) <==> FirstForSome(cfg, g, rest, left, l - 1, a);
      }
      if k > |data| {
        SubscribedLater(cfg, g, ups, refs, left, k - |data|, a);
      }
    }
  }

  lemma FirstIsWanted(cfg: ProxyConfig, g: Addr, ups: seq<IfIndex>, refs: seq<State>, a: Addr)
    requires ups != []
    ensures FirstForSome(cfg, g, ups, refs, 0, a) <==> Wanted(cfg, g, ups[0], refs, a)
  {
    if i :| 0 <= i < |refs| && a in KeptAt(cfg, g, ups[0], refs[i]) {
      assert FirstPassing(cfg, g, ups, 0, refs[i], a);
    }
  }

  lemma SubscribedLater(cfg: ProxyConfig, g: Addr, ups: seq<IfIndex>, refs: seq<State>, left: seq<State>, k: nat, a: Addr)
    requires 0 < k < |ups|
    requires forall l | 0 <= l < |ups| - 1 :: FirstForSome(cfg, g, ups[1..], left, l, a) <==> FirstForSome(cfg, g, ups, refs, l + 1, a)
    ensures SubscribedAt(cfg, g, ups[1..], left, k - 1, a) <==> SubscribedAt(cfg, g, ups, refs, k, a)
  {
    hide FirstForSome;
    assert forall l | k < l < |ups| :: FirstForSome(cfg, g, ups, refs, l, a) <==> FirstForSome(cfg, g, ups[1..], left, l - 1, a);
  }

  /** Merging INCLUDE views gives an INCLUDE view of the sources they list. */
  lemma MergeIncludes(views: seq<View>, a: Addr)
    requires forall i | 0 <= i < |views| :: views[i].mode.Include?
    ensures MergeAll(views).mode.Include? && (a in MergeAll(views).sources <==> Lists(views, a))
  {
    MergeAllMode(views);
    MergeAllAdmits(views, a);
    if i :| 0 <= i < |views| && views[i].Admits(a) {
      assert a in views[i].sources;
    }
    if i :| 0 <= i < |views| && a in views[i].sources {
      assert views[i].Admits(a);
    }
  }

  ghost predicate AllInclude(views: seq<View>) {
    forall i | 0 <= i < |views| :: views[i].mode.Include?
  }

  ghost predicate IncludeStates(refs: seq<State>) {
    forall i | 0 <= i < |refs| :: refs[i].0.mode.Include?
  }

  lemma {:induction false} TakenInclude(cfg: ProxyConfig, g: Addr, u: IfIndex, refs: seq<State>, known: IfMap)
    requires IncludeStates(refs)
    ensures AllInclude(TakenStates(cfg, g, u, refs, known)) && IncludeStates(Remaining(cfg, g, u, refs, known))
  {
    if refs != [] {
      TakenInclude(cfg, g, u, refs[..|refs| - 1], known);
    }
  }

  lemma {:induction false} CleanInclude(views: seq<View>, gone: set<Addr>)
    requires AllInclude(views)
    ensures AllInclude(CleanViews(views, gone))
  {
    if views != [] {
      CleanInclude(views[..|views| - 1], gone);
    }
  }

  lemma {:induction false} MatchInclude(cfg: ProxyConfig, g: Addr, ups: seq<IfIndex>, refs: seq<State>, known: IfMap, data: Reports)
    requires IncludeStates(refs) && forall k | 0 <= k < |data| :: AllInclude(data[k].1)
    ensures forall k | 0 <= k < |data| + |ups| :: AllInclude(MutexMatch(cfg, g, ups, refs, known, data)[k].1)
  {
    if ups != [] {
      TakenInclude(cfg, g, ups[0], refs, known);
      forall k | 0 <= k < |data|
        ensures AllInclude(CleanViews(data[k].1, AllSettled(cfg, g, ups[0], refs, known)))
      {
        CleanInclude(data[k].1, AllSettled(cfg, g, ups[0], refs, known));
      }
      MatchInclude(cfg, g, ups[1..], Remaining(cfg, g, ups[0], refs, known), known, MutexStep(cfg, g, ups[0], refs, known, data));
    }
  }

  /** Mutual exclusion: if all downstream states are INCLUDE, the record sent on upstream `k` is INCLUDE too. It
      lists an unknown source if and only if some downstream wants it there. It lists a known source if and only if
      the source arrives on an upstream and `k` is the one it is subscribed at; there is at most one such. */
  lemma MutexExclusive(cfg: ProxyConfig, g: Addr, refs: seq<State>, known: IfMap, a: Addr)
    requires IncludeStates(refs)
    ensures
      var r := MutexMatch(cfg, g, cfg.ups, refs, known, []);
      && (forall k | 0 <= k < |cfg.ups| :: r[k].0 == cfg.ups[k] && MergeAll(r[k].1).mode.Include?)
      && (a !in known ==> forall k | 0 <= k < |cfg.ups| ::
            MergeAll(r[k].1).Admits(a) <==> Wanted(cfg, g, cfg.ups[k], refs, a))
      && (a in known ==> forall k | 0 <= k < |cfg.ups| ::
            MergeAll(r[k].1).Admits(a) <==> cfg.IsUpstream(known[a]) && SubscribedAt(cfg, g, cfg.ups, refs, k, a))
      && (a in known ==> forall k, l | 0 <= k < l < |cfg.ups| :: !(MergeAll(r[k].1).Admits(a) && MergeAll(r[l].1).Admits(a)))
  {
    hide Wanted, SubscribedAt, Lists;
    var r := MutexMatch(cfg, g, cfg.ups, refs, known, []);
    MatchInclude(cfg, g, cfg.ups, refs, known, []);
    forall k | 0 <= k < |cfg.ups|
      ensures MergeAll(r[k].1).mode.Include? && (MergeAll(r[k].1).Admits(a) <==> Lists(r[k].1, a))
      ensures a !in known ==> (Lists(r[k].1, a) <==> Wanted(cfg, g, cfg.ups[k], refs, a))
      ensures a in known ==> (Lists(r[k].1, a) <==> cfg.IsUpstream(known[a]) && SubscribedAt(cfg, g, cfg.ups, refs, k, a))
    {
      MergeIncludes(r[k].1, a);
      if a in known {
        KnownListed(cfg, g, cfg.ups, refs, known, [], k, a);
      } else {
        UnknownEverywhere(cfg, g, cfg.ups, refs, known, [], k, a);
      }
    }
    SubscribedOnce(cfg, g, cfg.ups, refs, a);
  }

  lemma SubscribedOnce(cfg: ProxyConfig, g: Addr, ups: seq<IfIndex>, refs: seq<State>, a: Addr)
    ensures forall k, l | 0 <= k < l < |ups| :: !(SubscribedAt(cfg, g, ups, refs, k, a) && SubscribedAt(cfg, g, ups, refs, l, a))
  {
  }

  /** A known source that arrives on an upstream is subscribed somewhere if some upstream can have it at all. */
  lemma SubscribedSomewhere(cfg: ProxyConfig, g: Addr, ups: seq<IfIndex>, refs: seq<State>, u: IfIndex, a: Addr) returns (k: nat)
    requires u in ups && Wanted(cfg, g, u, refs, a)
    ensures k < |ups| && SubscribedAt(cfg, g, ups, refs, k, a)
  {
    var i :| 0 <= i < |refs| && a in KeptAt(cfg, g, u, refs[i]);
    var j :| 0 <= j < |ups| && ups[j] == u;
    k := EarliestPassing(cfg, g, ups, refs[i], j, a);
    assert FirstForSome(cfg, g, ups, refs, k, a);
    var l := k + 1;
    while l < |ups|
      invariant k < l <= |ups| && FirstForSome(cfg, g, ups, refs, k, a)
      invariant forall n | k < n < l :: !FirstForSome(cfg, g, ups, refs, n, a)
    {
      if FirstForSome(cfg, g, ups, refs, l, a) {
        k := l;
      }
      l := l + 1;
    }
  }

  lemma {:induction false} EarliestPassing(cfg: ProxyConfig, g: Addr, ups: seq<IfIndex>, st: State, j: nat, a: Addr) returns (k: nat)
    requires j < |ups| && a in KeptAt(cfg, g, ups[j], st)
    ensures k <= j && FirstPassing(cfg, g, ups, k, st, a)
  {
    k := j;
    if n :| 0 <= n < j && a in KeptAt(cfg, g, ups[n], st) {
      k := EarliestPassing(cfg, g, ups, st, n, a);
    }
  }

  /** The rule means a source to stay subscribed on the upstream it arrives on. The code takes another one: with
      filters that accept everything, a source that arrives on the second upstream is left subscribed on the first
      one only. */
  lemma ArrivalIsUnsubscribed(cfg: ProxyConfig, g: Addr, d: IfIndex, a: Addr)
    requires TakesAll(cfg, g, cfg.ups) && |cfg.ups| == 2
    ensures
      var r := MutexMatch(cfg, g, cfg.ups, [(View(Include, {a}), d)], map[a := cfg.ups[1]], []);
      MergeAll(r[0].1) == View(Include, {a}) && MergeAll(r[1].1) == NOTHING
  {
    var st: State := (View(Include, {a}), d);
    var known := map[a := cfg.ups[1]];
    assert cfg.ups[1] in cfg.ups && Elsewhere(cfg, known) == {} && known.Keys == {a};
    MutexReports(cfg, g, [st], known, 0);
    MutexReports(cfg, g, [st], known, 1);
    SingleDropped(st, {a});
    assert st.0.sources - {} == {a};
    assert Without([st], {}) == [st];
    var views := Views([st]);
    assert views == [st.0] && views[..0] == [];
  }

  // ---------------------------------------------------------------- what is reported without filters

  /** The states with the sources of `gone` struck from every list; states whose list becomes empty are dropped. */
  function Without(refs: seq<State>, gone: set<Addr>): seq<State> {
    if refs == [] then []
    else
      var last := refs[|refs| - 1];
      Without(refs[..|refs| - 1], gone) + IfAny(View(last.0.mode, last.0.sources - gone), last.1)
  }

  /** The known sources that do not arrive on an upstream. */
  function Elsewhere(cfg: ProxyConfig, known: IfMap): set<Addr> {
    set a | a in known && !cfg.IsUpstream(known[a])
  }

  /** The sources that are struck from the report on upstream `k`. */
  function StruckAt(cfg: ProxyConfig, known: IfMap, k: nat): set<Addr> {
    if k == 0 then Elsewhere(cfg, known) else known.Keys
  }

  /** The states list sources, and none that is known. */
  ghost predicate NoneKnown(refs: seq<State>, known: IfMap) {
    forall i | 0 <= i < |refs| :: refs[i].0.sources != {} && refs[i].0.sources !! known.Keys
  }

  lemma {:induction false} WithoutNoneKnown(refs: seq<State>, known: IfMap)
    ensures NoneKnown(Without(refs, known.Keys), known)
  {
    if refs != [] {
      WithoutNoneKnown(refs[..|refs| - 1], known);
    }
  }

  lemma {:induction false} UnfilteredStep(cfg: ProxyConfig, g: Addr, u: IfIndex, refs: seq<State>, known: IfMap)
    requires TakesAll(cfg, g, [u])
    ensures TakenStates(cfg, g, u, refs, known) == Views(Without(refs, Elsewhere(cfg, known)))
    ensures Remaining(cfg, g, u, refs, known) == Without(refs, known.Keys)
  {
    hide TakesAll, Settled, Taken, Elsewhere;
    if refs != [] {
      var front, last := refs[..|refs| - 1], refs[|refs| - 1];
      UnfilteredStep(cfg, g, u, front, known);
      UnfilteredState(cfg, g, u, last, known);
    }
  }

  lemma UnfilteredState(cfg: ProxyConfig, g: Addr, u: IfIndex, st: State, known: IfMap)
    requires TakesAll(cfg, g, [u])
    ensures st.0.sources - Settled(cfg, g, u, st, known) == st.0.sources - known.Keys
    ensures Taken(cfg, g, u, st, known) == st.0.sources - Elsewhere(cfg, known)
  {
    assert u in [u];
    assert KeptAt(cfg, g, u, st) == st.0.sources;
  }

  /** States without known sources stay as they are. */
  lemma {:induction false} NothingStruck(cfg: ProxyConfig, g: Addr, u: IfIndex, refs: seq<State>, known: IfMap, gone: set<Addr>)
    requires NoneKnown(refs, known) && gone <= known.Keys
    ensures Without(refs, gone) == refs && AllSettled(cfg, g, u, refs, known) == {}
  {
    hide Settled;
    if refs != [] {
      var front, last := refs[..|refs| - 1], refs[|refs| - 1];
      assert forall i | 0 <= i < |front| :: front[i] == refs[i];
      assert refs == front + [last];
      NothingStruck(cfg, g, u, front, known, gone);
      UnknownState(cfg, g, u, last, known, gone);
    }
  }

  lemma UnknownState(cfg: ProxyConfig, g: Addr, u: IfIndex, st: State, known: IfMap, gone: set<Addr>)
    requires st.0.sources !! known.Keys && gone <= known.Keys
    ensures st.0.sources - gone == st.0.sources && Settled(cfg, g, u, st, known) == {}
  {
  }

  lemma {:induction false} CleanNothing(views: seq<View>)
    requires AllList(views)
    ensures CleanViews(views, {}) == views
  {
    if views != [] {
      CleanNothing(views[..|views| - 1]);
      assert views[|views| - 1].sources - {} == views[|views| - 1].sources;
    }
  }

  lemma {:induction false} WithoutAllList(refs: seq<State>, gone: set<Addr>)
    ensures AllList(Views(Without(refs, gone)))
  {
    if refs != [] {
      WithoutAllList(refs[..|refs| - 1], gone);
      var front := Without(refs[..|refs| - 1], gone);
      assert forall i | 0 <= i < |front| :: Views(front)[i] == front[i].0;
    }
  }

  lemma SettledStep(cfg: ProxyConfig, g: Addr, u: IfIndex, refs: seq<State>, known: IfMap, data: Reports)
    requires TakesAll(cfg, g, [u]) && NoneKnown(refs, known)
    requires forall n | 0 <= n < |data| :: AllList(data[n].1)
    ensures Remaining(cfg, g, u, refs, known) == refs
    ensures
      var data' := MutexStep(cfg, g, u, refs, known, data);
      (forall n | 0 <= n < |data| :: data'[n].1 == data[n].1) && data'[|data|].1 == Views(refs)
  {
    hide TakesAll, NoneKnown, AllList, Remaining, TakenStates, AllSettled, Without, CleanViews;
    UnfilteredStep(cfg, g, u, refs, known);
    NothingStruck(cfg, g, u, refs, known, known.Keys);
    NothingStruck(cfg, g, u, refs, known, Elsewhere(cfg, known));
    forall n | 0 <= n < |data|
      ensures CleanViews(data[n].1, {}) == data[n].1
    {
      CleanNothing(data[n].1);
    }
  }

  /** Once the known sources are settled, the earlier reports stay and the later ones are all the same. */
  lemma {:induction false} SettledMatch(cfg: ProxyConfig, g: Addr, ups: seq<IfIndex>, refs: seq<State>, known: IfMap, data: Reports, k: nat)
    requires TakesAll(cfg, g, ups) && k < |data| + |ups| && NoneKnown(refs, known)
    requires forall n | 0 <= n < |data| :: AllList(data[n].1)
    ensures MutexMatch(cfg, g, ups, refs, known, data)[k].1 == if k < |data| then data[k].1 else Views(refs)
  {
    hide Remaining, MutexStep;
    if ups != [] {
      assert TakesAll(cfg, g, [ups[0]]) && TakesAll(cfg, g, ups[1..]);
      SettledStep(cfg, g, ups[0], refs, known, data);
      assert AllList(Views(refs));
      SettledMatch(cfg, g, ups[1..], refs, known, MutexStep(cfg, g, ups[0], refs, known, data), k);
    }
  }

  /** With filters that accept everything, the first upstream gets the states without the sources that do not
      arrive on an upstream, and every other upstream the states without the known sources. */
  lemma MutexReports(cfg: ProxyConfig, g: Addr, refs: seq<State>, known: IfMap, k: nat)
    requires TakesAll(cfg, g, cfg.ups) && k < |cfg.ups|
    ensures MutexMatch(cfg, g, cfg.ups, refs, known, [])[k].1 == Views(Without(refs, StruckAt(cfg, known, k)))
  {
    var u, rest := cfg.ups[0], cfg.ups[1..];
    assert forall v | v in rest :: v in cfg.ups;
    assert TakesAll(cfg, g, [u]) && TakesAll(cfg, g, rest);
    UnfilteredStep(cfg, g, u, refs, known);
    WithoutNoneKnown(refs, known);
    WithoutAllList(refs, Elsewhere(cfg, known));
    var data := MutexStep(cfg, g, u, refs, known, []);
    assert data[0].1 == Views(Without(refs, Elsewhere(cfg, known)));
    SettledMatch(cfg, g, rest, Without(refs, known.Keys), known, data, k);
  }

  // ---------------------------------------------------------------- reports and the union of the memberships

  /** The state still lists a source when those of `gone` are struck. */
  predicate Keeps(st: State, gone: set<Addr>) {
    !(st.0.sources <= gone)
  }

  lemma {:induction false} WithoutAdmits(refs: seq<State>, gone: set<Addr>, a: Addr)
    ensures (exists i :: 0 <= i < |Without(refs, gone)| && Without(refs, gone)[i].0.Admits(a)) <==>
      exists i :: 0 <= i < |refs| && Keeps(refs[i], gone) && View(refs[i].0.mode, refs[i].0.sources - gone).Admits(a)
  {
    if refs != [] {
      var front, last := refs[..|refs| - 1], refs[|refs| - 1];
      WithoutAdmits(front, gone, a);
      var l, v := Without(front, gone), View(last.0.mode, last.0.sources - gone);
      assert Keeps(last, gone) <==> v.sources != {} by {
        assert last.0.sources <= gone <==> forall b | b in last.0.sources :: b !in v.sources;
      }
      if i :| 0 <= i < |l| && l[i].0.Admits(a) {
        assert Without(refs, gone)[i] == l[i];
        var j :| 0 <= j < |front| && Keeps(front[j], gone) && View(front[j].0.mode, front[j].0.sources - gone).Admits(a);
        assert refs[j] == front[j];
      }
      if Keeps(last, gone) && v.Admits(a) {
        assert Without(refs, gone)[|l|] == (v, last.1) && refs[|front|] == last;
      }
      if i :| 0 <= i < |refs| && Keeps(refs[i], gone) && View(refs[i].0.mode, refs[i].0.sources - gone).Admits(a) {
        assert i < |front| ==> front[i] == refs[i];
      }
      if i :| 0 <= i < |Without(refs, gone)| && Without(refs, gone)[i].0.Admits(a) {
        assert i < |l| ==> l[i] == Without(refs, gone)[i];
        assert i >= |l| ==> Keeps(last, gone) && Without(refs, gone)[i] == (v, last.1);
      }
    }
  }

  /** Some membership that still lists a source admits `a`. */
  ghost predicate AdmittedByKept(refs: seq<State>, gone: set<Addr>, a: Addr) {
    exists i :: 0 <= i < |refs| && Keeps(refs[i], gone) && refs[i].0.Admits(a)
  }

  ghost predicate KeepsExclude(refs: seq<State>, gone: set<Addr>) {
    exists i :: 0 <= i < |refs| && refs[i].0.mode.Exclude? && Keeps(refs[i], gone)
  }

  ghost predicate DropsExclude(refs: seq<State>, gone: set<Addr>) {
    exists i :: 0 <= i < |refs| && refs[i].0.mode.Exclude? && !Keeps(refs[i], gone)
  }

  function AllListed(refs: seq<State>): set<Addr> {
    set i, a | 0 <= i < |refs| && a in refs[i].0.sources :: a
  }

  /** What upstream `k` is asked for: a struck source exactly if some EXCLUDE membership still lists a source, any
      other source exactly if some membership that still lists a source admits it. */
  lemma MutexCovers(cfg: ProxyConfig, g: Addr, refs: seq<State>, known: IfMap, k: nat, a: Addr)
    requires TakesAll(cfg, g, cfg.ups) && k < |cfg.ups|
    ensures
      var gone := StruckAt(cfg, known, k);
      MergeAll(MutexMatch(cfg, g, cfg.ups, refs, known, [])[k].1).Admits(a) <==>
        if a in gone then KeepsExclude(refs, gone) else AdmittedByKept(refs, gone, a)
  {
    hide MutexMatch, StruckAt;
    var gone := StruckAt(cfg, known, k);
    MutexReports(cfg, g, refs, known, k);
    var left := Without(refs, gone);
    MergeAllAdmits(Views(left), a);
    WithoutAdmits(refs, gone, a);
    assert forall i | 0 <= i < |left| :: Views(left)[i].Admits(a) == left[i].0.Admits(a);
    forall i | 0 <= i < |refs| && Keeps(refs[i], gone)
      ensures View(refs[i].0.mode, refs[i].0.sources - gone).Admits(a) <==>
        if a in gone then refs[i].0.mode.Exclude? else refs[i].0.Admits(a)
    {
    }
  }

  /** The report without the sources `gone` is the union of the memberships exactly under this condition. First, a
      struck source is admitted by somebody if and only if some EXCLUDE membership still lists a source. Second,
      if some EXCLUDE membership is dropped, another one still lists a source, and every listed source outside
      `gone` is admitted by a membership that still lists one. */
  ghost predicate ReportsUnion(refs: seq<State>, gone: set<Addr>) {
    && (forall a | a in gone :: SomeAdmits(refs, a) <==> KeepsExclude(refs, gone))
    && (DropsExclude(refs, gone) ==>
          && KeepsExclude(refs, gone)
          && forall a | a in AllListed(refs) && a !in gone :: AdmittedByKept(refs, gone, a))
  }

  lemma FreshAddr(s: set<Addr>) returns (a: Addr)
    ensures a !in s
  {
    a := 0;
    var rest := s;
    while rest != {}
      invariant rest <= s && forall b | b in s && b !in rest :: b < a
      decreases |rest|
    {
      var b :| b in rest;
      rest := rest - {b};
      a := if b < a then a else b + 1;
    }
  }

  lemma UnionIfCovered(refs: seq<State>, gone: set<Addr>, a: Addr)
    requires ReportsUnion(refs, gone) && a !in gone && SomeAdmits(refs, a)
    ensures AdmittedByKept(refs, gone, a)
  {
    var i :| 0 <= i < |refs| && refs[i].0.Admits(a);
    if !Keeps(refs[i], gone) {
      assert refs[i].0.mode.Exclude?;
      assert DropsExclude(refs, gone);
      if a !in AllListed(refs) {
        var j :| 0 <= j < |refs| && refs[j].0.mode.Exclude? && Keeps(refs[j], gone);
        assert refs[j].0.Admits(a);
      }
    }
  }

  lemma CoveredIfUnion(refs: seq<State>, gone: set<Addr>)
    requires DropsExclude(refs, gone) && forall a | a !in gone && SomeAdmits(refs, a) :: AdmittedByKept(refs, gone, a)
    ensures KeepsExclude(refs, gone)
    ensures forall a | a in AllListed(refs) && a !in gone :: AdmittedByKept(refs, gone, a)
  {
    var i :| 0 <= i < |refs| && refs[i].0.mode.Exclude? && !Keeps(refs[i], gone);
    forall a | a !in gone
      ensures SomeAdmits(refs, a)
    {
      assert refs[i].0.sources <= gone;
      assert refs[i].0.Admits(a);
    }
    var unlisted := FreshAddr(gone + AllListed(refs));
    assert AdmittedByKept(refs, gone, unlisted);
    var j :| 0 <= j < |refs| && Keeps(refs[j], gone) && refs[j].0.Admits(unlisted);
    assert refs[j].0.mode.Exclude?;
  }

  /** For any known sources, with filters that accept everything: the report on upstream `k` is the union of all
      memberships if and only if the condition holds for the sources struck there. */
  lemma MutexReportsUnion(cfg: ProxyConfig, g: Addr, refs: seq<State>, known: IfMap, k: nat)
    requires TakesAll(cfg, g, cfg.ups) && k < |cfg.ups|
    ensures
      var sent := MergeAll(MutexMatch(cfg, g, cfg.ups, refs, known, [])[k].1);
      (forall a :: sent.Admits(a) <==> MergeAll(Views(refs)).Admits(a)) <==> ReportsUnion(refs, StruckAt(cfg, known, k))
  {
    hide MutexMatch, MergeAll, StruckAt, AdmittedByKept, AllListed;
    var gone := StruckAt(cfg, known, k);
    var sent := MergeAll(MutexMatch(cfg, g, cfg.ups, refs, known, [])[k].1);
    forall a
      ensures sent.Admits(a) <==> if a in gone then KeepsExclude(refs, gone) else AdmittedByKept(refs, gone, a)
      ensures MergeAll(Views(refs)).Admits(a) <==> SomeAdmits(refs, a)
      ensures AdmittedByKept(refs, gone, a) ==> SomeAdmits(refs, a)
    {
      MutexCovers(cfg, g, refs, known, k, a);
      UnionAdmits(refs, a);
      KeptAdmit(refs, gone, a);
    }
    if ReportsUnion(refs, gone) {
      forall a
        ensures sent.Admits(a) <==> MergeAll(Views(refs)).Admits(a)
      {
        if a !in gone && SomeAdmits(refs, a) {
          UnionIfCovered(refs, gone, a);
        }
      }
    }
    if forall a :: sent.Admits(a) <==> MergeAll(Views(refs)).Admits(a) {
      assert forall a | a in gone :: sent.Admits(a) <==> SomeAdmits(refs, a);
      if DropsExclude(refs, gone) {
        assert forall a | a !in gone && SomeAdmits(refs, a) :: sent.Admits(a);
        CoveredIfUnion(refs, gone);
      }
    }
  }

  lemma UnionAdmits(refs: seq<State>, a: Addr)
    ensures MergeAll(Views(refs)).Admits(a) <==> SomeAdmits(refs, a)
  {
    MergeAllAdmits(Views(refs), a);
    assert forall i | 0 <= i < |refs| :: Views(refs)[i].Admits(a) == refs[i].0.Admits(a);
  }

  lemma KeptAdmit(refs: seq<State>, gone: set<Addr>, a: Addr)
    ensures AdmittedByKept(refs, gone, a) ==> SomeAdmits(refs, a)
  {
  }

  /** A join for any source of a single downstream is lost: it is reported as INCLUDE({}). */
  lemma AnySourceIsLost(cfg: ProxyConfig, g: Addr, d: IfIndex, known: IfMap, k: nat)
    requires TakesAll(cfg, g, cfg.ups) && k < |cfg.ups|
    ensures MergeAll(MutexMatch(cfg, g, cfg.ups, [(EVERYTHING, d)], known, [])[k].1) == NOTHING
  {
    MutexReports(cfg, g, [(EVERYTHING, d)], known, k);
    SingleDropped((EVERYTHING, d), StruckAt(cfg, known, k));
  }

  /** So is the join for every source but one that is known to arrive on an interface that is no upstream. */
  lemma AllButKnownIsLost(cfg: ProxyConfig, g: Addr, d: IfIndex, a: Addr, i: IfIndex, k: nat)
    requires TakesAll(cfg, g, cfg.ups) && k < |cfg.ups| && !cfg.IsUpstream(i)
    ensures MergeAll(MutexMatch(cfg, g, cfg.ups, [(View(Exclude, {a}), d)], map[a := i], [])[k].1) == NOTHING
  {
    MutexReports(cfg, g, [(View(Exclude, {a}), d)], map[a := i], k);
    assert a in StruckAt(cfg, map[a := i], k);
    SingleDropped((View(Exclude, {a}), d), StruckAt(cfg, map[a := i], k));
  }

  lemma SingleDropped(st: State, gone: set<Addr>)
    requires !Keeps(st, gone)
    ensures MergeAll(Views(Without([st], gone))) == NOTHING
  {
    assert [st][..0] == [];
    assert Without([st], gone) == [];
  }

  /** A state without listed sources takes no part in the rule. */
  lemma {:induction false} StepIgnoresEmpty(cfg: ProxyConfig, g: Addr, u: IfIndex, refs: seq<State>, known: IfMap, k: nat, v: View)
    requires k < |refs| && refs[k].0.sources == {} && v.sources == {}
    ensures
      var refs' := refs[k := (v, refs[k].1)];
      && TakenStates(cfg, g, u, refs', known) == TakenStates(cfg, g, u, refs, known)
      && Remaining(cfg, g, u, refs', known) == Remaining(cfg, g, u, refs, known)
      && AllSettled(cfg, g, u, refs', known) == AllSettled(cfg, g, u, refs, known)
  {
    var n := |refs| - 1;
    var refs' := refs[k := (v, refs[k].1)];
    forall st | st == refs[k] || st == refs'[k]
      ensures Taken(cfg, g, u, st, known) == {} && Settled(cfg, g, u, st, known) == {} && st.0.sources - {} == {}
    {
    }
    if k < n {
      assert refs'[..n] == refs[..n][k := (v, refs[k].1)];
      StepIgnoresEmpty(cfg, g, u, refs[..n], known, k, v);
    } else {
      assert refs'[..n] == refs[..n];
    }
  }

  lemma MatchIgnoresEmpty(cfg: ProxyConfig, g: Addr, ups: seq<IfIndex>, refs: seq<State>, known: IfMap, data: Reports, k: nat, v: View)
    requires k < |refs| && refs[k].0.sources == {} && v.sources == {}
    ensures MutexMatch(cfg, g, ups, refs[k := (v, refs[k].1)], known, data) == MutexMatch(cfg, g, ups, refs, known, data)
  {
    if ups != [] {
      StepIgnoresEmpty(cfg, g, ups[0], refs, known, k, v);
    }
  }
}
