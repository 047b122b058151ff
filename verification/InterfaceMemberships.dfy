/** The per-upstream database of memberships that is built for one report and then read entry by entry. */
module Memberships {
  import opened Defs
  import opened Aggregation
  import opened MutexAggregation

  /** The reports of the rule "first", one entry per upstream. */
  function FirstReports(cfg: ProxyConfig, g: Addr, ups: seq<IfIndex>, sts: seq<State>): (r: Reports)
    ensures |r| == |ups|
    ensures forall k | 0 <= k < |ups| :: r[k] == (ups[k], Views(FirstMatch(cfg, g, ups, sts)[k]))
  {
    if ups == [] then []
    else
      [(ups[0], Views(KeptStates(cfg, g, ups[0], sts)))] + FirstReports(cfg, g, ups[1..], PassedStates(cfg, g, ups[0], sts))
  }

  lemma FirstReportsStep(cfg: ProxyConfig, g: Addr, n: nat, sts: seq<State>, data: Reports)
    requires n < |cfg.ups|
    ensures
      var u := cfg.ups[n];
      data + FirstReports(cfg, g, cfg.ups[n..], sts) ==
        data + [(u, Views(KeptStates(cfg, g, u, sts)))] + FirstReports(cfg, g, cfg.ups[n + 1..], PassedStates(cfg, g, u, sts))
  {
    hide KeptStates, PassedStates, Views, FirstMatch;
    var u, ups := cfg.ups[n], cfg.ups[n..];
    assert ups[0] == u && ups[1..] == cfg.ups[n + 1..];
    assert FirstReports(cfg, g, ups, sts) ==
      [(u, Views(KeptStates(cfg, g, u, sts)))] + FirstReports(cfg, g, ups[1..], PassedStates(cfg, g, u, sts));
  }

  /** What is reported on every upstream, in the order of the upstreams. */
  function Aggregated(cfg: ProxyConfig, g: Addr, sts: seq<State>, known: IfMap): (r: Reports)
    ensures |r| == |cfg.ups| && forall k | 0 <= k < |cfg.ups| :: r[k].0 == cfg.ups[k]
  {
    if cfg.inRule.MatchFirst? then FirstReports(cfg, g, cfg.ups, sts)
    else MutexMatch(cfg, g, cfg.ups, sts, known, [])
  }

  // ---------------------------------------------------------------- cleaning step by step

  /** No view of the reports is without sources. */
  predicate NoneEmpty(data: Reports) {
    forall k | 0 <= k < |data| :: AllList(data[k].1)
  }

  lemma {:induction false} CleanedAllList(views: seq<View>, gone: set<Addr>)
    ensures AllList(CleanViews(views, gone))
  {
    if views != [] {
      CleanedAllList(views[..|views| - 1], gone);
    }
  }

  lemma {:induction false} TakenAllList(cfg: ProxyConfig, g: Addr, u: IfIndex, refs: seq<State>, known: IfMap)
    ensures AllList(TakenStates(cfg, g, u, refs, known))
  {
    if refs != [] {
      TakenAllList(cfg, g, u, refs[..|refs| - 1], known);
    }
  }

  lemma {:induction false} CleanViewsTwice(views: seq<View>, s: set<Addr>, t: set<Addr>)
    ensures CleanViews(CleanViews(views, s), t) == CleanViews(views, s + t)
  {
    if views != [] {
      var front, last := views[..|views| - 1], views[|views| - 1];
      CleanViewsTwice(front, s, t);
      var once := View(last.mode, last.sources - s);
      assert once.sources - t == last.sources - (s + t);
      var f := CleanViews(front, s);
      if once.sources != {} {
        assert (f + [once])[..|f|] == f;
      } else {
        assert CleanViews(views, s) == f;
      }
    }
  }

  lemma CleanTwice(data: Reports, s: set<Addr>, t: set<Addr>)
    ensures Clean(Clean(data, s), t) == Clean(data, s + t)
  {
    forall k | 0 <= k < |data|
      ensures CleanViews(CleanViews(data[k].1, s), t) == CleanViews(data[k].1, s + t)
    {
      CleanViewsTwice(data[k].1, s, t);
    }
  }

  lemma CleanOfNothing(data: Reports)
    requires NoneEmpty(data)
    ensures Clean(data, {}) == data
  {
    forall k | 0 <= k < |data|
      ensures Clean(data, {})[k] == data[k]
    {
      assert AllList(data[k].1);
      CleanNothing(data[k].1);
    }
  }

  lemma StepNoneEmpty(cfg: ProxyConfig, g: Addr, u: IfIndex, refs: seq<State>, known: IfMap, data: Reports)
    ensures NoneEmpty(MutexStep(cfg, g, u, refs, known, data))
  {
    var gone := AllSettled(cfg, g, u, refs, known);
    forall k | 0 <= k < |data|
      ensures AllList(CleanViews(data[k].1, gone))
    {
      CleanedAllList(data[k].1, gone);
    }
    TakenAllList(cfg, g, u, refs, known);
  }

  /** Appending one state to the walked part. */
  lemma WalkedOneMore(cfg: ProxyConfig, g: Addr, u: IfIndex, refs: seq<State>, known: IfMap, p: nat)
    requires p < |refs|
    ensures Remaining(cfg, g, u, refs[..p + 1], known) == Remaining(cfg, g, u, refs[..p], known)
      + IfAny(View(refs[p].0.mode, refs[p].0.sources - Settled(cfg, g, u, refs[p], known)), refs[p].1)
    ensures TakenStates(cfg, g, u, refs[..p + 1], known) == TakenStates(cfg, g, u, refs[..p], known)
      + NonEmpty(View(refs[p].0.mode, Taken(cfg, g, u, refs[p], known)))
    ensures AllSettled(cfg, g, u, refs[..p + 1], known) == AllSettled(cfg, g, u, refs[..p], known) + Settled(cfg, g, u, refs[p], known)
  {
    assert refs[..p + 1][..p] == refs[..p];
  }

  /** The first `p` states are walked: `left` holds what remains of them, up to `i`, and the others. */
  ghost predicate Walked(cfg: ProxyConfig, g: Addr, u: IfIndex, sts: seq<State>, known: IfMap, p: nat, left: seq<State>, i: nat, views: seq<View>) {
    && p <= |sts|
    && left == Remaining(cfg, g, u, sts[..p], known) + sts[p..] && i == |Remaining(cfg, g, u, sts[..p], known)|
    && views == TakenStates(cfg, g, u, sts[..p], known)
  }

  lemma WalkStart(cfg: ProxyConfig, g: Addr, u: IfIndex, sts: seq<State>, known: IfMap)
    ensures Walked(cfg, g, u, sts, known, 0, sts, 0, []) && AllSettled(cfg, g, u, sts[..0], known) == {}
  {
  }

  lemma WalkEnd(cfg: ProxyConfig, g: Addr, u: IfIndex, sts: seq<State>, known: IfMap, p: nat, left: seq<State>, i: nat, views: seq<View>)
    requires Walked(cfg, g, u, sts, known, p, left, i, views) && i >= |left|
    ensures p == |sts| && left == Remaining(cfg, g, u, sts, known) && views == TakenStates(cfg, g, u, sts, known)
  {
    hide Remaining, TakenStates;
    assert sts[p..] == [];
    assert sts[..p] == sts;
  }

  lemma WalkStep(cfg: ProxyConfig, g: Addr, u: IfIndex, sts: seq<State>, known: IfMap, p: nat, left: seq<State>, i: nat, views: seq<View>)
    requires Walked(cfg, g, u, sts, known, p, left, i, views) && i < |left|
    ensures p < |sts| && left[i] == sts[p]
    ensures
      var st := sts[p];
      var rest := View(st.0.mode, st.0.sources - Settled(cfg, g, u, st, known));
      var left' := left[..i] + IfAny(rest, st.1) + left[i + 1..];
      Walked(cfg, g, u, sts, known, p + 1, left', i + |IfAny(rest, st.1)|, views + NonEmpty(View(st.0.mode, Taken(cfg, g, u, st, known))))
  {
    hide Remaining, TakenStates, Settled, Taken;
    WalkedOneMore(cfg, g, u, sts, known, p);
    var done := Remaining(cfg, g, u, sts[..p], known);
    assert sts[p..][1..] == sts[p + 1..];
    assert left[..i] == done && left[i + 1..] == sts[p..][1..];
  }

  lemma CleanedNone(gone: set<Addr>)
    ensures CleanViews([], gone) == []
  {
  }

  lemma CleanedOneMore(views: seq<View>, gone: set<Addr>, p: nat)
    requires p < |views|
    ensures CleanViews(views[..p + 1], gone) == CleanViews(views[..p], gone) + NonEmpty(View(views[p].mode, views[p].sources - gone))
  {
    assert views[..p + 1][..p] == views[..p];
  }

  /** The walk replaces the front state by what remains of it. */
  lemma Replaced<T>(done: seq<T>, rest: seq<T>, st: T)
    requires rest != []
    ensures (done + rest)[..|done|] + [st] + (done + rest)[|done| + 1..] == done + [st] + rest[1..]
    ensures (done + rest)[..|done|] + (done + rest)[|done| + 1..] == done + rest[1..]
  {
  }

  class InterfaceMemberships {
    var data: Reports

    /** Builds the database for group `g` from the memberships of the downstream interfaces. */
    constructor (cfg: ProxyConfig, g: Addr, sts: seq<State>, known: IfMap)
      ensures data == Aggregated(cfg, g, sts, known)
    {
      data := [];
      new;
      if cfg.inRule.MatchFirst? {
        ProcessUpstreamInFirst(cfg, g, sts);
      } else {
        ProcessUpstreamInMutex(cfg, g, sts, known);
      }
    }

    /** Sorts the sources of one state: those kept on `u` and those left to the next upstream. */
    static method SortOut(cfg: ProxyConfig, g: Addr, u: IfIndex, st: State) returns (kept: set<Addr>, passed: set<Addr>)
      ensures kept == KeptAt(cfg, g, u, st) && passed == PassedOn(cfg, g, u, st)
    {
      kept, passed := st.0.sources, {};
      var todo := st.0.sources;
      while todo != {}
        invariant todo <= kept <= st.0.sources
        invariant forall a :: a in kept <==> a in todo || (a in st.0.sources && cfg.DownOut(st.1, u, g, a) && cfg.UpIn(u, g, a))
        invariant forall a :: a in passed <==> a in st.0.sources && a !in todo && cfg.DownOut(st.1, u, g, a) && !cfg.UpIn(u, g, a)
      {
        var a :| a in todo;
        todo := todo - {a};
        if !cfg.DownOut(st.1, u, g, a) {
          kept := kept - {a};
        } else if !cfg.UpIn(u, g, a) {
          passed := passed + {a};
          kept := kept - {a};
        }
      }
    }

    /** One upstream of the rule "first". */
    static method TakeFirst(cfg: ProxyConfig, g: Addr, u: IfIndex, sts: seq<State>) returns (views: seq<View>, left: seq<State>)
      ensures views == Views(KeptStates(cfg, g, u, sts)) && left == PassedStates(cfg, g, u, sts)
    {
      var init := sts;
      left := [];
      for i := 0 to |sts|
        invariant |init| == |sts|
        invariant forall j | i <= j < |sts| :: init[j] == sts[j]
        invariant forall j | 0 <= j < i :: init[j] == KeptStates(cfg, g, u, sts)[j]
        invariant left == PassedStates(cfg, g, u, sts[..i])
      {
        var st := init[i];
        var kept, passed := SortOut(cfg, g, u, st);
        init := init[i := (View(st.0.mode, kept), st.1)];
        if passed != {} {
          left := left + [(View(st.0.mode, passed), st.1)];
        }
        assert sts[..i + 1][..i] == sts[..i];
      }
      assert sts[..|sts|] == sts;
      views := [];
      for i := 0 to |init|
        invariant |views| == i && forall j | 0 <= j < i :: views[j] == init[j].0
      {
        views := views + [init[i].0];
      }
    }

    method ProcessUpstreamInFirst(cfg: ProxyConfig, g: Addr, sts: seq<State>)
      requires data == []
      modifies this
      ensures data == FirstReports(cfg, g, cfg.ups, sts)
    {
      hide FirstReports;
      var init := sts;
      for n := 0 to |cfg.ups|
        invariant data + FirstReports(cfg, g, cfg.ups[n..], init) == FirstReports(cfg, g, cfg.ups, sts)
      {
        var u := cfg.ups[n];
        FirstReportsStep(cfg, g, n, init, data);
        var views, left := TakeFirst(cfg, g, u, init);
        data := data + [(u, views)];
        init := left;
      }
    }

    /** Erases source `a` from a list of views and drops the views that become empty. */
    static method EraseSource(before: seq<View>, a: Addr) returns (views: seq<View>)
      ensures views == CleanViews(before, {a})
    {
      hide CleanViews;
      CleanedNone({a});
      views := before;
      var i := 0;
      ghost var p := 0;
      while i < |views|
        invariant 0 <= p <= |before|
        invariant views == CleanViews(before[..p], {a}) + before[p..] && i == |CleanViews(before[..p], {a})|
        decreases |views| - i
      {
        CleanedOneMore(before, {a}, p);
        assert views[i] == before[p] && before[p..][1..] == before[p + 1..];
        var v := View(views[i].mode, views[i].sources - {a});
        Replaced(CleanViews(before[..p], {a}), before[p..], v);
        if v.sources == {} {
          views := views[..i] + views[i + 1..];
        } else {
          views := views[..i] + [v] + views[i + 1..];
          i := i + 1;
        }
        p := p + 1;
      }
      assert before[..p] == before;
    }

    /** Takes source `a` out of all reports made so far. */
    method CleanData(a: Addr)
      modifies this
      ensures data == Clean(old(data), {a})
    {
      for k := 0 to |data|
        invariant |data| == |old(data)|
        invariant forall j | k <= j < |data| :: data[j] == old(data)[j]
        invariant forall j | 0 <= j < k :: data[j] == (old(data)[j].0, CleanViews(old(data)[j].1, {a}))
      {
        var views := EraseSource(data[k].1, a);
        data := data[k := (data[k].0, views)];
      }
    }

    /** One downstream state at one upstream: what is taken there and what remains. */
    method TakeSources(cfg: ProxyConfig, g: Addr, u: IfIndex, st: State, known: IfMap) returns (taken: set<Addr>, rest: set<Addr>)
      requires NoneEmpty(data)
      modifies this
      ensures taken == Taken(cfg, g, u, st, known)
      ensures rest == st.0.sources - Settled(cfg, g, u, st, known)
      ensures data == Clean(old(data), Settled(cfg, g, u, st, known)) && NoneEmpty(data)
    {
      taken, rest := {}, st.0.sources;
      var todo := st.0.sources;
      ghost var gone := {};
      CleanOfNothing(data);
      while todo != {}
        invariant todo <= st.0.sources && gone !! todo
        invariant forall a :: a in gone <==> a in Settled(cfg, g, u, st, known) && a !in todo
        invariant rest == st.0.sources - gone
        invariant forall a :: a in taken <==> a in Taken(cfg, g, u, st, known) && a !in todo
        invariant data == Clean(old(data), gone) && NoneEmpty(data)
      {
        var a :| a in todo;
        todo := todo - {a};
        if cfg.DownOut(st.1, u, g, a) && cfg.UpIn(u, g, a) {
          if a in known {
            if cfg.IsUpstream(known[a]) {
              taken := taken + {a};
            }
            CleanData(a);
            CleanTwice(old(data), gone, {a});
            CleanedNoneEmpty(old(data), gone + {a});
            gone := gone + {a};
            rest := rest - {a};
          } else {
            taken := taken + {a};
          }
        }
      }
      assert gone == Settled(cfg, g, u, st, known);
    }

    /** One upstream of the rule "mutex". */
    method TakeMutex(cfg: ProxyConfig, g: Addr, u: IfIndex, sts: seq<State>, known: IfMap) returns (left: seq<State>)
      requires NoneEmpty(data)
      modifies this
      ensures data == MutexStep(cfg, g, u, sts, known, old(data)) && NoneEmpty(data)
      ensures left == Remaining(cfg, g, u, sts, known)
    {
      hide Taken, Settled, Remaining, TakenStates, AllSettled, CleanViews, Walked;
      left := sts;
      var views: seq<View> := [];
      var i := 0;
      ghost var p := 0;
      WalkStart(cfg, g, u, sts, known);
      CleanOfNothing(data);
      while i < |left|
        invariant 0 <= p <= |sts| && Walked(cfg, g, u, sts, known, p, left, i, views)
        invariant data == Clean(old(data), AllSettled(cfg, g, u, sts[..p], known)) && NoneEmpty(data)
        decreases |left| - i
      {
        WalkStep(cfg, g, u, sts, known, p, left, i, views);
        WalkedOneMore(cfg, g, u, sts, known, p);
        var st := left[i];
        CleanTwice(old(data), AllSettled(cfg, g, u, sts[..p], known), Settled(cfg, g, u, st, known));
        var taken, rest := TakeSources(cfg, g, u, st, known);
        views := views + NonEmpty(View(st.0.mode, taken));
        if rest == {} {
          left := left[..i] + [] + left[i + 1..];
        } else {
          left := left[..i] + [(View(st.0.mode, rest), st.1)] + left[i + 1..];
          i := i + 1;
        }
        p := p + 1;
      }
      WalkEnd(cfg, g, u, sts, known, p, left, i, views);
      assert sts[..p] == sts;
      data := data + [(u, views)];
      StepNoneEmpty(cfg, g, u, sts, known, old(data));
    }

    method ProcessUpstreamInMutex(cfg: ProxyConfig, g: Addr, sts: seq<State>, known: IfMap)
      requires data == []
      modifies this
      ensures data == MutexMatch(cfg, g, cfg.ups, sts, known, [])
    {
      var refs := sts;
      for n := 0 to |cfg.ups|
        invariant NoneEmpty(data)
        invariant MutexMatch(cfg, g, cfg.ups[n..], refs, known, data) == MutexMatch(cfg, g, cfg.ups, sts, known, [])
      {
        assert cfg.ups[n..][1..] == cfg.ups[n + 1..];
        refs := TakeMutex(cfg, g, cfg.ups[n], refs, known);
      }
    }

    /** Adds what `from` admits to `to`, by the list operations of the four pairs of modes. */
    static method MergeMembershipInfos(to: View, from: View) returns (merged: View)
      ensures merged == Merge(to, from)
      ensures forall a :: merged.Admits(a) <==> to.Admits(a) || from.Admits(a)
    {
      merged := to;
      if merged.mode.Include? {
        if from.mode.Include? {
          merged := merged.(sources := merged.sources + from.sources);
        } else {
          merged := merged.(mode := Exclude);
          merged := merged.(sources := from.sources - merged.sources);
        }
      } else if from.mode.Include? {
        merged := merged.(sources := merged.sources - from.sources);
      } else {
        merged := merged.(sources := merged.sources * from.sources);
      }
    }

    /** Merges the front entry and removes it, provided it belongs to upstream `u`. */
    method GetGroupMemberships(u: IfIndex) returns (result: View)
      requires data != []
      modifies this
      ensures old(data)[0].0 == u ==> result == MergeAll(old(data)[0].1) && data == old(data)[1..]
      ensures old(data)[0].0 != u ==> result == NOTHING && data == old(data)
    {
      result := NOTHING;
      if data[0].0 != u {
        return;
      }
      var views := data[0].1;
      for i := 0 to |views|
        invariant result == MergeAll(views[..i])
        modifies {}
      {
        assert views[..i + 1][..i] == views[..i];
        result := MergeMembershipInfos(result, views[i]);
      }
      assert views[..|views|] == views;
      data := data[1..];
    }
  }

  lemma CleanedNoneEmpty(data: Reports, gone: set<Addr>)
    ensures NoneEmpty(Clean(data, gone))
  {
    forall k | 0 <= k < |data|
      ensures AllList(CleanViews(data[k].1, gone))
    {
      CleanedAllList(data[k].1, gone);
    }
  }
}
