/** The routing layer as objects that update their tables in place. Every method is proved against
    the function of `RoutingSpec` it carries out. */
module Routing {
  import opened Defs
  import opened Aggregation
  import opened MutexAggregation
  import opened Memberships
  import Spec = RoutingSpec
  import opened RoutingSpec

  // ---------------------------------------------------------------- known sources

  class SimpleRoutingData {
    var data: RoutingData

    constructor ()
      ensures data == map[]
    {
      data := map[];
    }

    /** Adds or replaces a source together with its input interface. */
    method SetSource(i: IfIndex, g: Addr, a: Addr, t: SourceTimer, packets: nat)
      modifies this
      ensures data == Spec.SetSource(old(data), i, g, a, t, packets)
    {
      if g in data {
        var entry := data[g];
        if a !in entry.sources {
          entry := entry.(sources := entry.sources[a := Known(t, NEVER_COUNTED)]);
        } else {
          var s := Known(t, packets);
          assert (entry.sources - {a})[a := s] == entry.sources[a := s];
          entry := entry.(sources := entry.sources - {a});
          entry := entry.(sources := entry.sources[a := s]);
        }
        entry := entry.(ifMap := entry.ifMap[a := i]);
        data := data[g := entry];
      } else {
        data := data[g := GroupSources(map[a := Known(t, NEVER_COUNTED)], map[a := i])];
      }
    }

    method DelSource(g: Addr, a: Addr)
      modifies this
      ensures data == Spec.DelSource(old(data), g, a)
    {
      if g in data {
        var entry := GroupSources(data[g].sources - {a}, data[g].ifMap - {a});
        assert entry.sources.Keys == data[g].sources.Keys - {a};
        data := data[g := entry];
        if entry.sources == map[] {
          data := data - {g};
        }
      }
    }

    /** A source whose packet count has not moved is forgotten; otherwise the count is noted. */
    method RefreshSourceOrDelItIfUnused(g: Addr, a: Addr, packets: nat) returns (refreshed: bool)
      modifies this
      ensures refreshed == (a in Sources(old(data), g) && Sources(old(data), g)[a].packets != packets)
      ensures data ==
        if refreshed then Refreshed(old(data), g, a, Sources(old(data), g)[a].(packets := packets))
        else Spec.DelSource(old(data), g, a)
    {
      if g in data {
        if a in data[g].sources {
          if data[g].sources[a].packets == packets {
            data := data[g := GroupSources(data[g].sources - {a}, data[g].ifMap - {a})];
          } else {
            data := data[g := data[g].(sources := data[g].sources[a := data[g].sources[a].(packets := packets)])];
            return true;
          }
        }
        ghost var before := old(data)[g];
        assert data[g].sources - {a} == before.sources - {a} && data[g].ifMap - {a} == before.ifMap - {a};
        assert (before.sources - {a}).Keys == before.sources.Keys - {a};
        data := data[g := GroupSources(data[g].sources - {a}, data[g].ifMap - {a})];
        if data[g].sources == map[] {
          data := data - {g};
        }
      }
      return false;
    }

    method GetAvailableSources(g: Addr) returns (sources: map<Addr, Known>)
      ensures sources == Sources(data, g)
      ensures DataOk(data) ==> sources.Keys == InterfaceMap(data, g).Keys
    {
      sources := map[];
      if g in data {
        sources := data[g].sources;
      }
    }

    method GetInterfaceMap(g: Addr) returns (ifMap: IfMap)
      ensures ifMap == InterfaceMap(data, g)
      ensures DataOk(data) ==> ifMap.Keys == Sources(data, g).Keys
    {
      ifMap := map[];
      if g in data {
        ifMap := data[g].ifMap;
      }
    }
  }

  // ---------------------------------------------------------------- output lists

  /** Sources with the interfaces their traffic goes out of. */
  type RouteList = seq<(Addr, seq<IfIndex>)>

  function Ifs(s: seq<IfIndex>): set<IfIndex> {
    set i | i in s
  }

  lemma IfsAppended(s: seq<IfIndex>, o: IfIndex)
    ensures Ifs(s + [o]) == Ifs(s) + {o} && s + [] == s
  {
  }

  /** Every source of `who` has exactly one place in the list, and nothing else has one. */
  ghost predicate ListsOnce(rt: RouteList, who: set<Addr>) {
    && (forall i | 0 <= i < |rt| :: rt[i].0 in who)
    && (forall a | a in who :: exists i :: 0 <= i < |rt| && rt[i].0 == a)
    && (forall i, j | 0 <= i < j < |rt| :: rt[i].0 != rt[j].0)
  }

  /** The sources that have a place in the list. */
  function ListedSources(rt: RouteList): set<Addr> {
    set i | 0 <= i < |rt| :: rt[i].0
  }

  lemma ListsOnceAll(rt: RouteList, who: set<Addr>)
    requires ListsOnce(rt, who)
    ensures ListedSources(rt) == who
  {
  }

  lemma ListsOneMore(rt: RouteList, who: set<Addr>, a: Addr, out: seq<IfIndex>)
    requires ListsOnce(rt, who) && a !in who
    ensures ListsOnce(rt + [(a, out)], who + {a})
  {
    var rt' := rt + [(a, out)];
    forall b | b in who + {a}
      ensures exists i :: 0 <= i < |rt'| && rt'[i].0 == b
    {
      if b in who {
        var i :| 0 <= i < |rt| && rt[i].0 == b;
        assert rt'[i].0 == b;
      } else {
        assert rt'[|rt|].0 == b;
      }
    }
  }

  lemma DownstreamOneMore(cfg: ProxyConfig, g: Addr, a: Addr, input: IfIndex, sts: seq<State>, k: nat)
    requires k < |sts|
    ensures DownstreamOutputs(cfg, g, a, input, sts[..k + 1]) ==
      DownstreamOutputs(cfg, g, a, input, sts[..k]) + if Interested(cfg, g, a, input, sts[k]) then {sts[k].1} else {}
  {
    var now, next := sts[..k], sts[..k + 1];
    forall o
      ensures o in DownstreamOutputs(cfg, g, a, input, next) <==>
        o in DownstreamOutputs(cfg, g, a, input, now) || (Interested(cfg, g, a, input, sts[k]) && o == sts[k].1)
    {
      if o in DownstreamOutputs(cfg, g, a, input, next) {
        var j :| 0 <= j < |next| && Interested(cfg, g, a, input, next[j]) && o == next[j].1;
        assert j < k ==> now[j] == next[j];
      }
      if o in DownstreamOutputs(cfg, g, a, input, now) {
        var j :| 0 <= j < |now| && Interested(cfg, g, a, input, now[j]) && o == now[j].1;
        assert next[j] == now[j];
      }
      assert next[k] == sts[k];
    }
  }

  class SimpleMcProxyRouting {
    const cfg: ProxyConfig
    const data: SimpleRoutingData
    var kernel: Kernel
    var sent: SentLog
    var nextId: nat

    ghost function State(): RState
      reads this, data
    {
      RState(data.data, kernel, sent, nextId)
    }

    ghost predicate Valid()
      reads this, data
    {
      DataOk(data.data)
    }

    constructor (cfg: ProxyConfig)
      ensures Valid() && this.cfg == cfg && State() == NO_ROUTES && fresh(data)
    {
      this.cfg := cfg;
      data := new SimpleRoutingData();
      kernel, sent, nextId := map[], map[], 0;
    }

    /** The verdict of the filter of interface `checking`, which has to be an interface of the proxy. */
    method CheckInterface(ty: IfType, dir: Direction, checking: IfIndex, input: IfIndex, g: Addr, a: Addr) returns (accepted: bool)
      ensures accepted <==>
        (if ty.Upstream? then cfg.IsUpstream(checking) else cfg.IsDownstream(checking)) && cfg.accepts(ty, dir, checking, input, g, a)
    {
      if ty.Upstream? && checking !in cfg.ups {
        return false;
      }
      if ty.Downstream? && checking !in cfg.downs {
        return false;
      }
      accepted := cfg.accepts(ty, dir, checking, input, g, a);
    }

    /** The upstreams that get the traffic of a source which comes in on downstream `input`. */
    method UpstreamsFor(g: Addr, a: Addr, input: IfIndex) returns (list: seq<IfIndex>)
      requires cfg.IsDownstream(input)
      ensures Ifs(list) == UpstreamOutputs(cfg, g, a, input)
    {
      list := [];
      for n := 0 to |cfg.ups|
        invariant cfg.outRule.MatchAll? ==> forall u :: u in list <==> u in cfg.ups[..n] && cfg.accepts(Upstream, Out, u, input, g, a)
        invariant !cfg.outRule.MatchAll? ==> list == []
        invariant cfg.outRule.MatchFirst? ==> forall j | 0 <= j < n :: !cfg.accepts(Upstream, Out, cfg.ups[j], input, g, a)
      {
        var u := cfg.ups[n];
        var accepted := CheckInterface(Upstream, Out, u, input, g, a);
        if accepted {
          if cfg.outRule.MatchAll? {
            list := list + [u];
          } else if cfg.outRule.MatchFirst? {
            assert u in FirstAccepting(cfg, cfg.ups, g, a, input);
            return [u];
          }
        }
      }
      assert cfg.ups[..|cfg.ups|] == cfg.ups;
    }

    /** The upstream part of the output lists; the list ends early at a source without input interface. */
    method CollectUpstreams(g: Addr, slist: set<Addr>) returns (rt: RouteList)
      ensures ListedSources(rt) <= slist && ListedSources(rt) <= InterfaceMap(data.data, g).Keys && ListsOnce(rt, ListedSources(rt))
      ensures slist <= InterfaceMap(data.data, g).Keys ==> ListedSources(rt) == slist
      ensures forall i | 0 <= i < |rt| ::
        rt[i].0 in InterfaceMap(data.data, g) && Ifs(rt[i].1) == UpstreamOutputs(cfg, g, rt[i].0, InterfaceMap(data.data, g)[rt[i].0])
    {
      hide UpstreamOutputs;
      var known := data.GetInterfaceMap(g);
      rt := [];
      ghost var seen := {};
      ListsOnceAll(rt, seen);
      var todo := slist;
      while todo != {}
        invariant todo <= slist && seen == slist - todo && ListsOnce(rt, seen) && seen <= known.Keys && ListedSources(rt) == seen
        invariant forall i | 0 <= i < |rt| :: Ifs(rt[i].1) == UpstreamOutputs(cfg, g, rt[i].0, known[rt[i].0])
      {
        var a :| a in todo;
        if a !in known {
          return;
        }
        var list := [];
        if cfg.IsDownstream(known[a]) {
          list := UpstreamsFor(g, a, known[a]);
        } else {
          NotFromDownstream(cfg, g, a, known[a]);
        }
        ListsOneMore(rt, seen, a, list);
        rt := rt + [(a, list)];
        seen := seen + {a};
        ListsOnceAll(rt, seen);
        todo := todo - {a};
      }
    }

    /** Adds downstream `st.1` to the outputs of every source that its membership admits, if it is not
        the input interface and its output filter accepts the source. */
    method SuggestToForward(g: Addr, known: IfMap, st: State, rt: RouteList) returns (list: RouteList)
      requires cfg.IsDownstream(st.1) && forall i | 0 <= i < |rt| :: rt[i].0 in known
      ensures |list| == |rt|
      ensures forall i | 0 <= i < |rt| ::
        && list[i].0 == rt[i].0
        && list[i].1 == rt[i].1 + if Interested(cfg, g, rt[i].0, known[rt[i].0], st) then [st.1] else []
    {
      list := rt;
      for n := 0 to |rt|
        invariant |list| == |rt|
        invariant forall i | n <= i < |rt| :: list[i] == rt[i]
        invariant forall i | 0 <= i < n ::
          && list[i].0 == rt[i].0
          && list[i].1 == rt[i].1 + if Interested(cfg, g, rt[i].0, known[rt[i].0], st) then [st.1] else []
      {
        var a := list[n].0;
        if st.0.Admits(a) && st.1 != known[a] {
          var accepted := CheckInterface(Downstream, Out, st.1, known[a], g, a);
          if accepted {
            list := list[n := (a, list[n].1 + [st.1])];
          }
        }
      }
    }

    /** Where the traffic of the sources `slist` goes. The list is complete if the input interface of
        every source is known. */
    method CollectInterestedInterfaces(g: Addr, slist: set<Addr>, sts: seq<State>) returns (rt: RouteList)
      requires forall k | 0 <= k < |sts| :: cfg.IsDownstream(sts[k].1)
      ensures ListedSources(rt) <= slist && ListedSources(rt) <= InterfaceMap(data.data, g).Keys && ListsOnce(rt, ListedSources(rt))
      ensures slist <= InterfaceMap(data.data, g).Keys ==> ListedSources(rt) == slist
      ensures forall i | 0 <= i < |rt| ::
        rt[i].0 in InterfaceMap(data.data, g) && Ifs(rt[i].1) == Outputs(cfg, g, rt[i].0, InterfaceMap(data.data, g)[rt[i].0], sts)
    {
      hide UpstreamOutputs, DownstreamOutputs, ListsOnce, Interested, ListedSources;
      var known := data.GetInterfaceMap(g);
      rt := CollectUpstreams(g, slist);
      ghost var ups := rt;
      NoDownstreams(cfg, g, sts);
      for k := 0 to |sts|
        invariant |rt| == |ups|
        invariant forall i | 0 <= i < |rt| :: rt[i].0 == ups[i].0
        invariant forall i | 0 <= i < |rt| ::
          Ifs(rt[i].1) == Ifs(ups[i].1) + DownstreamOutputs(cfg, g, rt[i].0, known[rt[i].0], sts[..k])
      {
        ghost var before := rt;
        rt := SuggestToForward(g, known, sts[k], rt);
        forall i | 0 <= i < |rt|
          ensures Ifs(rt[i].1) == Ifs(ups[i].1) + DownstreamOutputs(cfg, g, rt[i].0, known[rt[i].0], sts[..k + 1])
        {
          DownstreamOneMore(cfg, g, rt[i].0, known[rt[i].0], sts, k);
          IfsAppended(before[i].1, sts[k].1);
        }
      }
      assert sts[..|sts|] == sts;
      SameListed(ups, rt, ListedSources(ups));
      ListsOnceAll(rt, ListedSources(ups));
    }

    /** Sets or deletes the forwarding entries of the listed sources. */
    method SetRoutes(g: Addr, rt: RouteList, ghost who: set<Addr>)
      requires ListsOnce(rt, who)
      modifies `kernel
      ensures forall i | 0 <= i < |rt| && rt[i].0 in InterfaceMap(data.data, g) ::
        Lookup(kernel, (g, rt[i].0)) ==
          NewEntry(cfg, g, rt[i].0, InterfaceMap(data.data, g)[rt[i].0], Ifs(rt[i].1), Lookup(old(kernel), (g, rt[i].0)))
      ensures forall key: (Addr, Addr) | !(key.0 == g && key.1 in who && key.1 in InterfaceMap(data.data, g)) ::
        Lookup(kernel, key) == Lookup(old(kernel), key)
    {
      hide NewEntry, Ifs, Lookup;
      var known := data.GetInterfaceMap(g);
      for n := 0 to |rt|
        invariant forall i | 0 <= i < n && rt[i].0 in known ::
          Lookup(kernel, (g, rt[i].0)) == NewEntry(cfg, g, rt[i].0, known[rt[i].0], Ifs(rt[i].1), Lookup(old(kernel), (g, rt[i].0)))
        invariant forall key: (Addr, Addr) | !(key.0 == g && key.1 in who && key.1 in known) :: Lookup(kernel, key) == Lookup(old(kernel), key)
        invariant forall i | n <= i < |rt| :: Lookup(kernel, (g, rt[i].0)) == Lookup(old(kernel), (g, rt[i].0))
      {
        if rt[n].0 in known {
          SetRoute(g, rt[n].0, known[rt[n].0], rt[n].1);
        }
      }
    }

    /** Deletes the entry of a source without outputs; otherwise sets it if the input is accepted. */
    method SetRoute(g: Addr, a: Addr, input: IfIndex, outputs: seq<IfIndex>)
      modifies `kernel
      ensures Lookup(kernel, (g, a)) == NewEntry(cfg, g, a, input, Ifs(outputs), Lookup(old(kernel), (g, a)))
      ensures forall key: (Addr, Addr) | key != (g, a) :: Lookup(kernel, key) == Lookup(old(kernel), key)
    {
      if outputs == [] {
        DelRoute(g, a);
      } else {
        assert outputs[0] in Ifs(outputs);
        var use := UseInput(g, a, input);
        if use {
          kernel := kernel[(g, a) := Route(input, Ifs(outputs))];
        }
      }
    }

    method UseInput(g: Addr, a: Addr, input: IfIndex) returns (use: bool)
      ensures use == InputAccepted(cfg, g, a, input)
    {
      use := false;
      if cfg.IsUpstream(input) {
        use := CheckInterface(Upstream, In, input, input, g, a);
      }
      if !use && cfg.IsDownstream(input) {
        use := CheckInterface(Downstream, In, input, input, g, a);
      }
    }

    method DelRoute(g: Addr, a: Addr)
      modifies `kernel
      ensures kernel == old(kernel) - {(g, a)}
    {
      kernel := kernel - {(g, a)};
    }

    /** Recomputes the routes of the sources `slist`. */
    method RouteCalculation(g: Addr, slist: set<Addr>, sts: seq<State>)
      requires forall k | 0 <= k < |sts| :: cfg.IsDownstream(sts[k].1)
      requires slist <= InterfaceMap(data.data, g).Keys
      modifies `kernel
      ensures kernel == Rerouted(cfg, old(kernel), g, InterfaceMap(data.data, g), slist, sts)
    {
      hide Outputs, NewEntry, Rerouted;
      var rt := CollectInterestedInterfaces(g, slist, sts);
      SetRoutes(g, rt, slist);
      ghost var known := InterfaceMap(data.data, g);
      forall key: (Addr, Addr)
        ensures Lookup(kernel, key) == EntryAfter(cfg, old(kernel), g, known, slist, sts, key)
      {
        if key.0 == g && key.1 in slist {
          var i :| 0 <= i < |rt| && rt[i].0 == key.1;
          assert key == (g, rt[i].0);
        }
      }
      SameKernel(kernel, Rerouted(cfg, old(kernel), g, known, slist, sts));
    }

    /** Sends every upstream its record; the entries come in the order of the upstreams, so none is
        refused as unexpected. */
    method ProcessMembershipAggregation(g: Addr, sts: seq<State>)
      modifies `sent
      ensures sent == if cfg.inRule.MatchAll? then old(sent) else Reported(cfg, old(sent), g, sts, InterfaceMap(data.data, g))
    {
      hide Aggregated, MergeAll;
      if cfg.inRule.MatchAll? {
        return;
      }
      var known := data.GetInterfaceMap(g);
      ghost var reports := Aggregated(cfg, g, sts, known);
      var im := new InterfaceMemberships(cfg, g, sts, known);
      for n := 0 to |cfg.ups|
        invariant im.data == reports[n..]
        invariant sent == SentAfter(old(sent), g, reports[..n])
        modifies `sent, im
      {
        var view := im.GetGroupMemberships(cfg.ups[n]);
        SendRecord(cfg.ups[n], g, view);
        assert reports[..n + 1][..n] == reports[..n];
      }
      assert reports[..|cfg.ups|] == reports;
    }

    method SendRecord(u: IfIndex, g: Addr, view: View)
      modifies `sent
      ensures sent == old(sent)[(u, g) := view]
    {
      sent := sent[(u, g) := view];
    }

    method SetSourceTimer(i: IfIndex, g: Addr, a: Addr) returns (t: SourceTimer)
      modifies `nextId
      ensures t == SourceTimer(old(nextId), i, g, a) && nextId == old(nextId) + 1
    {
      t := SourceTimer(nextId, i, g, a);
      nextId := nextId + 1;
    }

    // -------------------------------------------------------------- events

    method EventNewSource(i: IfIndex, g: Addr, a: Addr, packets: nat, sts: seq<State>)
      requires Valid() && forall k | 0 <= k < |sts| :: cfg.IsDownstream(sts[k].1)
      modifies this, data
      ensures Valid() && State() == NewSource(cfg, old(State()), i, g, a, packets, sts)
    {
      hide Reported, Rerouted, Spec.SetSource;
      var t := SetSourceTimer(i, g, a);
      SetSourceFacts(data.data, i, g, a, t, packets);
      data.SetSource(i, g, a, t, packets);
      RouteCalculation(g, {a}, sts);
      if cfg.inRule.MatchMutex? {
        ProcessMembershipAggregation(g, sts);
      }
    }

    method EventQuerierStateChange(g: Addr, sts: seq<State>)
      requires Valid() && forall k | 0 <= k < |sts| :: cfg.IsDownstream(sts[k].1)
      modifies this
      ensures Valid() && State() == QuerierStateChange(cfg, old(State()), g, sts)
    {
      hide Reported, Rerouted;
      var available := data.GetAvailableSources(g);
      RouteCalculation(g, available.Keys, sts);
      if cfg.inRule.MatchFirst? || cfg.inRule.MatchMutex? {
        ProcessMembershipAggregation(g, sts);
      }
    }

    method TimerTriggeredMaintainRoutingTable(t: SourceTimer, packets: nat, sts: seq<State>)
      requires Valid()
      modifies this, data
      ensures Valid() && State() == MaintainRoutingTable(cfg, old(State()), t, packets, sts)
    {
      hide Reported, Spec.DelSource;
      var g, a := t.gaddr, t.saddr;
      var known := data.GetAvailableSources(g);
      if a in known && known[a].timer == t {
        DelSourceFacts(data.data, g, a);
        var refreshed := data.RefreshSourceOrDelItIfUnused(g, a, packets);
        if !refreshed {
          DelRoute(g, a);
          if cfg.inRule.MatchMutex? {
            ProcessMembershipAggregation(g, sts);
          }
        } else {
          var t' := SetSourceTimer(t.ifIndex, g, a);
          ghost var was := old(data.data)[g].sources;
          assert was[a := was[a].(packets := packets)][a := Known(t', packets)] == was[a := Known(t', packets)];
          data.data := data.data[g := data.data[g].(sources := data.data[g].sources[a := Known(t', packets)])];
          RefreshedFacts(old(data.data), g, a, t', packets);
          assert data.data == Refreshed(old(data.data), g, a, Known(t', packets));
        }
      }
    }
  }

  lemma NotFromDownstream(cfg: ProxyConfig, g: Addr, a: Addr, input: IfIndex)
    requires !cfg.IsDownstream(input)
    ensures UpstreamOutputs(cfg, g, a, input) == Ifs([])
  {
  }

  lemma NoDownstreams(cfg: ProxyConfig, g: Addr, sts: seq<State>)
    ensures forall a, input :: DownstreamOutputs(cfg, g, a, input, sts[..0]) == {}
  {
  }

  lemma SameListed(rt: RouteList, rt': RouteList, who: set<Addr>)
    requires ListsOnce(rt, who) && |rt'| == |rt| && forall i | 0 <= i < |rt| :: rt'[i].0 == rt[i].0
    ensures ListsOnce(rt', who)
  {
    forall a | a in who
      ensures exists i :: 0 <= i < |rt'| && rt'[i].0 == a
    {
      var i :| 0 <= i < |rt| && rt[i].0 == a;
      assert rt'[i].0 == a;
    }
  }
}
