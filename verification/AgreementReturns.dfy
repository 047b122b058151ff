/** What becomes of a forwarding entry, or of the records sent for a group, that does not agree with what the queriers
    know: exactly which events bring the agreement back, which end it, and what holds after a whole run. */
module AgreementReturns {
  import opened Defs
  import opened MembershipDb
  import opened QuerierSpec
  import opened QuerierInvariant
  import opened QuerierViews
  import opened Aggregation
  import opened MutexAggregation
  import opened Memberships
  import opened RoutingSpec
  import opened ProxyRuns

  // ---------------------------------------------------------------- one entry

  predicate EntryAgrees(cfg: ProxyConfig, p: Proxy, g: Addr, a: Addr)
    requires |p.queriers| == |cfg.downs|
  {
    Lookup(p.routing.kernel, (g, a)) == Wished(cfg, p, g, a)
  }

  /** Somebody wants the source, the input filter rejects it, and an entry is there: it is left as it is. */
  predicate Stuck(cfg: ProxyConfig, kernel: Kernel, g: Addr, a: Addr, input: IfIndex, sts: seq<State>) {
    Outputs(cfg, g, a, input, sts) != {} && !InputAccepted(cfg, g, a, input) && (g, a) in kernel
  }

  /** From any kernel: setting the route of a known source gives the entry it should have unless the entry is stuck. */
  lemma RewrittenEntry(cfg: ProxyConfig, kernel: Kernel, g: Addr, ifMap: IfMap, who: set<Addr>, sts: seq<State>, a: Addr)
    requires a in who && a in ifMap
    ensures Lookup(Rerouted(cfg, kernel, g, ifMap, who, sts), (g, a)) == Decision(cfg, g, a, ifMap[a], sts)
      <==> !Stuck(cfg, kernel, g, a, ifMap[a], sts)
  {
    hide Rerouted, Outputs, InputAccepted;
  }

  /** The last notice of the event, if the event makes one, is for group `g`. */
  predicate Announces(qcfg: Config, p: Proxy, e: ProxyEvent, g: Addr) {
    && e.Downlink? && e.k < |p.queriers|
    && var was, now := p.queriers[e.k].notices, Step(qcfg, p.queriers[e.k], e.e).notices;
       now != was && now != [] && now[|now| - 1].gaddr == g
  }

  /** The views that the routing layer sees when the querier of downstream `e.k` announces group `g`. */
  function SeenViews(cfg: ProxyConfig, qcfg: Config, p: Proxy, e: ProxyEvent, g: Addr): seq<State>
    requires |p.queriers| == |cfg.downs| && e.Downlink? && e.k < |p.queriers|
  {
    var view := if SilentDownlink(qcfg, p, e) then EVERYTHING else Step(qcfg, p.queriers[e.k], e.e).Membership(g);
    States(cfg, p.queriers, g)[e.k := (view, cfg.downs[e.k])]
  }

  /** The source check `e` finds source `a` of group `g` unused and forgets it. */
  predicate Forgets(p: Proxy, e: ProxyEvent, g: Addr, a: Addr) {
    && e.SourceCheck? && e.t.gaddr == g && e.t.saddr == a
    && var known := Sources(p.routing.data, g); a in known && known[a].timer == e.t && known[a].packets == e.packets
  }

  /** The event sets the entry of a source right, whatever it was. */
  predicate Repairs(cfg: ProxyConfig, qcfg: Config, p: Proxy, e: ProxyEvent, g: Addr, a: Addr)
    requires |p.queriers| == |cfg.downs|
  {
    var known := InterfaceMap(p.routing.data, g);
    match e
    case Downlink(k, _) =>
      && Announces(qcfg, p, e, g) && a in known
      && !Stuck(cfg, p.routing.kernel, g, a, known[a], SeenViews(cfg, qcfg, p, e, g))
      && !(SilentDownlink(qcfg, p, e) && JoinsWrongly(cfg, p, k, g, a))
    case SourceSeen(i, h, b, _) => h == g && b == a && !Stuck(cfg, p.routing.kernel, g, a, i, States(cfg, p.queriers, g))
    case SourceCheck(_, _) => Forgets(p, e, g, a)
    case Wait(_, _) => false
  }

  /** The event leaves the entry of a source wrong, whatever it was. */
  predicate Breaks(cfg: ProxyConfig, qcfg: Config, p: Proxy, e: ProxyEvent, g: Addr, a: Addr)
    requires |p.queriers| == |cfg.downs|
  {
    var known := InterfaceMap(p.routing.data, g);
    match e
    case Downlink(k, _) =>
      && Announces(qcfg, p, e, g) && a in known
      && (|| Stuck(cfg, p.routing.kernel, g, a, known[a], SeenViews(cfg, qcfg, p, e, g))
          || (SilentDownlink(qcfg, p, e) && JoinsWrongly(cfg, p, k, g, a)))
    case SourceSeen(i, h, b, _) => h == g && b == a && Stuck(cfg, p.routing.kernel, g, a, i, States(cfg, p.queriers, g))
    case SourceCheck(_, _) => false
    case Wait(_, _) => false
  }

  /** The entry of group `g` after an announcement that the routing layer answers with the views `seen`. */
  lemma AnnouncedEntry(cfg: ProxyConfig, p: Proxy, p': Proxy, g: Addr, seen: seq<State>, h: Addr, a: Addr)
    requires |p.queriers| == |p'.queriers| == |cfg.downs| && DataOk(p.routing.data)
    requires p'.routing == QuerierStateChange(cfg, p.routing, g, seen)
    ensures
      var known := InterfaceMap(p.routing.data, g);
      && InterfaceMap(p'.routing.data, h) == InterfaceMap(p.routing.data, h)
      && (h != g || a !in known ==> Lookup(p'.routing.kernel, (h, a)) == Lookup(p.routing.kernel, (h, a)))
      && (h == g && a in known ==>
            (Lookup(p'.routing.kernel, (g, a)) == Decision(cfg, g, a, known[a], seen) <==> !Stuck(cfg, p.routing.kernel, g, a, known[a], seen)))
  {
    hide Rerouted, Reported, Outputs, InputAccepted, Stuck, Decision;
    var known := InterfaceMap(p.routing.data, g);
    if h == g && a in known {
      RewrittenEntry(cfg, p.routing.kernel, g, known, Sources(p.routing.data, g).Keys, seen, a);
    }
  }

  /** An entry set by the views with a false join is right for the true views unless the join changes it. */
  lemma FalselyJoined(cfg: ProxyConfig, kernel: Kernel, g: Addr, a: Addr, input: IfIndex, sts: seq<State>, k: nat, entry: Option<Route>)
    requires k < |sts| && sts[k].0 == NOTHING
    requires
      var st := (EVERYTHING, sts[k].1);
      entry == NewEntry(cfg, g, a, input, Outputs(cfg, g, a, input, sts[k := st]), Lookup(kernel, (g, a)))
    ensures
      var st := (EVERYTHING, sts[k].1);
      entry == Decision(cfg, g, a, input, sts) <==>
        && !Stuck(cfg, kernel, g, a, input, sts[k := st])
        && !(InputAccepted(cfg, g, a, input) && Interested(cfg, g, a, input, st) && st.1 !in Outputs(cfg, g, a, input, sts))
  {
    hide Outputs, InputAccepted, Interested;
    var st := (EVERYTHING, sts[k].1);
    JoinedOutputs(cfg, g, a, input, sts, k);
    var out, out' := Outputs(cfg, g, a, input, sts), Outputs(cfg, g, a, input, sts[k := st]);
    assert Interested(cfg, g, a, input, st) ==> st.1 in out';
    assert out == out' <==> !(Interested(cfg, g, a, input, st) && st.1 !in out);
  }

  lemma SilentEntryLaw(cfg: ProxyConfig, qcfg: Config, p: Proxy, e: ProxyEvent, g: Addr, a: Addr)
    requires qcfg.Ok() && ProxyInv(cfg, qcfg, p) && Possible(cfg, qcfg, p, e) && SilentDownlink(qcfg, p, e)
    ensures EntryAgrees(cfg, Next(cfg, qcfg, p, e), g, a) <==>
      Repairs(cfg, qcfg, p, e, g, a) || (EntryAgrees(cfg, p, g, a) && !Breaks(cfg, qcfg, p, e, g, a))
  {
    hide Inv, Next, DataOk, Outputs, InputAccepted, Interested, QuerierStateChange, Decision, Stuck;
    var k, h := e.k, e.e.r.gaddr;
    var p' := Next(cfg, qcfg, p, e);
    SilentDownlinkFacts(cfg, qcfg, p, e);
    SilentAnnounces(cfg, qcfg, p, e, g);
    var known, sts := InterfaceMap(p.routing.data, g), States(cfg, p.queriers, g);
    var seen := States(cfg, p.queriers, h)[k := (EVERYTHING, cfg.downs[k])];
    AnnouncedEntry(cfg, p, p', h, seen, g, a);
    if g == h && a in known {
      RewrittenIs(cfg, p, p', g, seen, a);
      FalselyJoined(cfg, p.routing.kernel, g, a, known[a], sts, k, Lookup(p'.routing.kernel, (g, a)));
    }
  }

  lemma RewrittenIs(cfg: ProxyConfig, p: Proxy, p': Proxy, g: Addr, seen: seq<State>, a: Addr)
    requires DataOk(p.routing.data) && p'.routing == QuerierStateChange(cfg, p.routing, g, seen) && a in InterfaceMap(p.routing.data, g)
    ensures
      var known := InterfaceMap(p.routing.data, g);
      Lookup(p'.routing.kernel, (g, a)) == NewEntry(cfg, g, a, known[a], Outputs(cfg, g, a, known[a], seen), Lookup(p.routing.kernel, (g, a)))
  {
    hide Rerouted, Reported, Outputs, NewEntry;
  }

  lemma SilentAnnounces(cfg: ProxyConfig, qcfg: Config, p: Proxy, e: ProxyEvent, g: Addr)
    requires qcfg.Ok() && ProxyInv(cfg, qcfg, p) && Possible(cfg, qcfg, p, e) && SilentDownlink(qcfg, p, e)
    ensures Announces(qcfg, p, e, g) <==> g == e.e.r.gaddr
  {
    hide Inv, ReceiveRecord, DataOk;
    RecordViews(qcfg, p.queriers[e.k], e.e.r);
  }

  /** What an event of a querier that is no silent leave does: nothing at all, or the change of one group with the
      routing layer run for it. */
  lemma DownlinkFacts(cfg: ProxyConfig, qcfg: Config, p: Proxy, e: ProxyEvent)
    requires qcfg.Ok() && ProxyInv(cfg, qcfg, p) && Possible(cfg, qcfg, p, e) && e.Downlink? && !SilentDownlink(qcfg, p, e)
    ensures
      var p' := Next(cfg, qcfg, p, e);
      forall h ::
        && (!Announces(qcfg, p, e, h) ==> States(cfg, p'.queriers, h) == States(cfg, p.queriers, h))
        && (Announces(qcfg, p, e, h) ==>
              && States(cfg, p'.queriers, h) == SeenViews(cfg, qcfg, p, e, h)
              && p'.routing == QuerierStateChange(cfg, p.routing, h, SeenViews(cfg, qcfg, p, e, h)))
    ensures (forall h :: !Announces(qcfg, p, e, h)) ==> Next(cfg, qcfg, p, e).routing == p.routing
  {
    hide Inv, DataOk, Step, Enabled, SilentLeave, QuerierStateChange;
    var q := p.queriers[e.k];
    var q' := Step(qcfg, q, e.e);
    QuerierStepViews(qcfg, q, e.e);
    var p' := Next(cfg, qcfg, p, e);
    if q'.notices != q.notices {
      assert Announces(qcfg, p, e, q'.notices[|q'.notices| - 1].gaddr);
    }
    forall h
      ensures States(cfg, p'.queriers, h) == States(cfg, p.queriers, h)[e.k := (q'.Membership(h), cfg.downs[e.k])]
    {
    }
  }

  lemma DownlinkEntryLaw(cfg: ProxyConfig, qcfg: Config, p: Proxy, e: ProxyEvent, g: Addr, a: Addr)
    requires qcfg.Ok() && ProxyInv(cfg, qcfg, p) && Possible(cfg, qcfg, p, e) && e.Downlink? && !SilentDownlink(qcfg, p, e)
    ensures EntryAgrees(cfg, Next(cfg, qcfg, p, e), g, a) <==>
      Repairs(cfg, qcfg, p, e, g, a) || (EntryAgrees(cfg, p, g, a) && !Breaks(cfg, qcfg, p, e, g, a))
  {
    hide Inv, Next, DataOk, Announces, SeenViews, QuerierStateChange, Decision, Stuck, JoinsWrongly, SilentDownlink, States;
    var p' := Next(cfg, qcfg, p, e);
    DownlinkFacts(cfg, qcfg, p, e);
    if h :| Announces(qcfg, p, e, h) {
      AnnouncedEntry(cfg, p, p', h, SeenViews(cfg, qcfg, p, e, h), g, a);
      AnnouncesOne(qcfg, p, e, g, h);
    }
  }

  lemma AnnouncesOne(qcfg: Config, p: Proxy, e: ProxyEvent, g: Addr, h: Addr)
    requires Announces(qcfg, p, e, h)
    ensures Announces(qcfg, p, e, g) <==> g == h
  {
  }

  lemma SourceEntryLaw(cfg: ProxyConfig, qcfg: Config, p: Proxy, e: ProxyEvent, g: Addr, a: Addr)
    requires ProxyInv(cfg, qcfg, p) && Possible(cfg, qcfg, p, e) && !e.Downlink?
    ensures EntryAgrees(cfg, Next(cfg, qcfg, p, e), g, a) <==>
      Repairs(cfg, qcfg, p, e, g, a) || (EntryAgrees(cfg, p, g, a) && !Breaks(cfg, qcfg, p, e, g, a))
  {
    hide Inv, DataOk, Enabled, Outputs, InputAccepted, SetSource, DelSource, Rerouted, Reported, Stuck, Decision;
    var p' := Next(cfg, qcfg, p, e);
    var r := p.routing;
    match e
    case SourceSeen(i, h, b, packets) =>
      SetSourceFacts(r.data, i, h, b, SourceTimer(r.nextId, i, h, b), packets);
      if h == g && b == a {
        RewrittenEntry(cfg, r.kernel, g, InterfaceMap(p'.routing.data, g), {a}, States(cfg, p.queriers, g), a);
      }
    case SourceCheck(t, packets) => CheckEntryLaw(cfg, qcfg, p, e, g, a);
    case Wait(to, lag) =>
      assert States(cfg, p'.queriers, g) == States(cfg, p.queriers, g);
  }

  lemma CheckEntryLaw(cfg: ProxyConfig, qcfg: Config, p: Proxy, e: ProxyEvent, g: Addr, a: Addr)
    requires ProxyInv(cfg, qcfg, p) && e.SourceCheck?
    ensures EntryAgrees(cfg, Next(cfg, qcfg, p, e), g, a) <==> Forgets(p, e, g, a) || EntryAgrees(cfg, p, g, a)
  {
    hide Inv, Decision, DelSource, Reported, States, DataOk, InterfaceMap, RoutingSpec.Refreshed;
    var h, b := e.t.gaddr, e.t.saddr;
    var p', r := Next(cfg, qcfg, p, e), p.routing;
    var known := Sources(r.data, h);
    if b in known && known[b].timer == e.t {
      if known[b].packets == e.packets {
        DelSourceFacts(r.data, h, b);
        assert p'.routing.kernel == r.kernel - {(h, b)};
      } else {
        RefreshKeepsMap(r.data, h, b, r.nextId, e.packets);
        assert p'.routing.kernel == r.kernel;
      }
    }
  }

  lemma RefreshKeepsMap(data: RoutingData, g: Addr, a: Addr, id: nat, packets: nat)
    requires DataOk(data) && a in Sources(data, g)
    ensures
      var t := Sources(data, g)[a].timer;
      forall h :: InterfaceMap(RoutingSpec.Refreshed(data, g, a, Known(SourceTimer(id, t.ifIndex, g, a), packets)), h) == InterfaceMap(data, h)
  {
    RefreshedFacts(data, g, a, SourceTimer(id, Sources(data, g)[a].timer.ifIndex, g, a), packets);
  }

  /** One event, from any state: the entry of a source agrees afterwards if and only if the event repairs it, or it
      agreed before and the event does not break it. */
  lemma EntryLaw(cfg: ProxyConfig, qcfg: Config, p: Proxy, e: ProxyEvent, g: Addr, a: Addr)
    requires qcfg.Ok() && ProxyInv(cfg, qcfg, p) && Possible(cfg, qcfg, p, e)
    ensures EntryAgrees(cfg, Next(cfg, qcfg, p, e), g, a) <==>
      Repairs(cfg, qcfg, p, e, g, a) || (EntryAgrees(cfg, p, g, a) && !Breaks(cfg, qcfg, p, e, g, a))
  {
    hide ProxyInv, Next, EntryAgrees, Repairs, Breaks, Possible;
    if !e.Downlink? {
      SourceEntryLaw(cfg, qcfg, p, e, g, a);
    } else if SilentDownlink(qcfg, p, e) {
      SilentEntryLaw(cfg, qcfg, p, e, g, a);
    } else {
      DownlinkEntryLaw(cfg, qcfg, p, e, g, a);
    }
  }

  /** No event of the run breaks the entry. */
  predicate NeverBroken(cfg: ProxyConfig, qcfg: Config, p: Proxy, es: seq<ProxyEvent>, g: Addr, a: Addr)
    requires |p.queriers| == |cfg.downs| && ProxyRun(cfg, qcfg, p, es)
    decreases |es|
  {
    es == [] || (!Breaks(cfg, qcfg, p, es[0], g, a) && NeverBroken(cfg, qcfg, Next(cfg, qcfg, p, es[0]), es[1..], g, a))
  }

  /** Some event of the run repairs the entry and no later one breaks it. */
  predicate RepairedIn(cfg: ProxyConfig, qcfg: Config, p: Proxy, es: seq<ProxyEvent>, g: Addr, a: Addr)
    requires |p.queriers| == |cfg.downs| && ProxyRun(cfg, qcfg, p, es)
    decreases |es|
  {
    es != [] &&
    var p1 := Next(cfg, qcfg, p, es[0]);
    (Repairs(cfg, qcfg, p, es[0], g, a) && NeverBroken(cfg, qcfg, p1, es[1..], g, a)) || RepairedIn(cfg, qcfg, p1, es[1..], g, a)
  }

  /** Whole runs, from any state, broken or not: the entry of a source agrees at the end if and only if some event
      repairs it and no later one breaks it, or it agreed at the start and no event breaks it. */
  lemma {:induction false} EntryInRuns(cfg: ProxyConfig, qcfg: Config, p: Proxy, es: seq<ProxyEvent>, g: Addr, a: Addr)
    requires qcfg.Ok() && ProxyInv(cfg, qcfg, p) && ProxyRun(cfg, qcfg, p, es)
    ensures EntryAgrees(cfg, ProxyAfter(cfg, qcfg, p, es), g, a) <==>
      RepairedIn(cfg, qcfg, p, es, g, a) || (EntryAgrees(cfg, p, g, a) && NeverBroken(cfg, qcfg, p, es, g, a))
    decreases |es|
  {
    hide Inv, DataOk, Next, EntryAgrees, Repairs, Breaks, Possible;
    if es != [] {
      EntryLaw(cfg, qcfg, p, es[0], g, a);
      NextInv(cfg, qcfg, p, es[0]);
      EntryInRuns(cfg, qcfg, Next(cfg, qcfg, p, es[0]), es[1..], g, a);
    }
  }

  // ---------------------------------------------------------------- the records of one group

  ghost predicate GroupRecordsAgree(cfg: ProxyConfig, p: Proxy, g: Addr)
    requires |p.queriers| == |cfg.downs|
  {
    forall k | 0 <= k < |cfg.ups| :: LastSent(p.routing.sent, cfg.ups[k], g) == Due(cfg, p, g, k)
  }

  /** A leave that is announced as a join under the rule "first" while the first upstream is not to be asked for
      everything: the records sent for the group are wrong. */
  predicate Misreports(cfg: ProxyConfig, qcfg: Config, p: Proxy, e: ProxyEvent, g: Addr)
    requires |p.queriers| == |cfg.downs|
  {
    && SilentDownlink(qcfg, p, e) && e.e.r.gaddr == g && cfg.inRule.MatchFirst? && cfg.ups != []
    && Due(cfg, p, g, 0) != EVERYTHING
  }

  /** The event makes the proxy send records for the group, and they are right. */
  predicate Renews(cfg: ProxyConfig, qcfg: Config, p: Proxy, e: ProxyEvent, g: Addr)
    requires |p.queriers| == |cfg.downs|
  {
    match e
    case Downlink(_, _) => Announces(qcfg, p, e, g) && !Misreports(cfg, qcfg, p, e, g)
    case SourceSeen(_, h, _, _) => h == g && cfg.inRule.MatchMutex?
    case SourceCheck(t, _) => cfg.inRule.MatchMutex? && Forgets(p, e, g, t.saddr)
    case Wait(_, _) => false
  }

  /** Records sent for the views `seen` are right for the views of the new state if these are the same. */
  lemma ReportedAgree(cfg: ProxyConfig, p: Proxy, p': Proxy, g: Addr, h: Addr)
    requires |p.queriers| == |p'.queriers| == |cfg.downs| && Distinct(cfg.ups)
    requires p'.routing.sent == Reported(cfg, p.routing.sent, h, States(cfg, p'.queriers, h), InterfaceMap(p'.routing.data, h))
    ensures g == h ==> GroupRecordsAgree(cfg, p', g)
    ensures g != h ==> forall u :: LastSent(p'.routing.sent, u, g) == LastSent(p.routing.sent, u, g)
  {
    hide Aggregated, States, MergeAll, SentAfter, Distinct;
    SentFacts(p.routing.sent, h, cfg.ups, Aggregated(cfg, h, States(cfg, p'.queriers, h), InterfaceMap(p'.routing.data, h)));
  }

  /** Neither what was sent for the group nor what is due for it changed. */
  lemma SameRecords(cfg: ProxyConfig, p: Proxy, p': Proxy, g: Addr)
    requires |p.queriers| == |p'.queriers| == |cfg.downs| && States(cfg, p'.queriers, g) == States(cfg, p.queriers, g)
    requires forall u :: LastSent(p'.routing.sent, u, g) == LastSent(p.routing.sent, u, g)
    requires cfg.inRule.MatchFirst? || InterfaceMap(p'.routing.data, g) == InterfaceMap(p.routing.data, g)
    ensures GroupRecordsAgree(cfg, p', g) <==> GroupRecordsAgree(cfg, p, g)
  {
    hide FirstReports, MutexMatch, States, MergeAll, LastSent;
    forall k | 0 <= k < |cfg.ups|
      ensures Due(cfg, p', g, k) == Due(cfg, p, g, k)
    {
    }
  }

  lemma SilentRecordLaw(cfg: ProxyConfig, qcfg: Config, p: Proxy, e: ProxyEvent, g: Addr)
    requires qcfg.Ok() && ProxyInv(cfg, qcfg, p) && Possible(cfg, qcfg, p, e) && SilentDownlink(qcfg, p, e)
    requires Distinct(cfg.ups) && !cfg.inRule.MatchAll?
    ensures GroupRecordsAgree(cfg, Next(cfg, qcfg, p, e), g) <==>
      Renews(cfg, qcfg, p, e, g) || (GroupRecordsAgree(cfg, p, g) && !Misreports(cfg, qcfg, p, e, g))
  {
    hide Inv, Next, DataOk, Aggregated, MergeAll, SentAfter, Rerouted, Distinct, States, Announces;
    var k, h := e.k, e.e.r.gaddr;
    var p' := Next(cfg, qcfg, p, e);
    SilentDownlinkFacts(cfg, qcfg, p, e);
    SilentAnnounces(cfg, qcfg, p, e, g);
    var sts, known := States(cfg, p.queriers, h), InterfaceMap(p.routing.data, h);
    SentFacts(p.routing.sent, h, cfg.ups, Aggregated(cfg, h, sts[k := (EVERYTHING, cfg.downs[k])], known));
    if g == h {
      forall j | 0 <= j < |cfg.ups|
        ensures Due(cfg, p', g, j) == Due(cfg, p, g, j)
        ensures LastSent(p'.routing.sent, cfg.ups[j], g) == if cfg.inRule.MatchFirst? && j == 0 then EVERYTHING else Due(cfg, p, g, j)
      {
        JoinedAggregate(cfg, g, sts, known, k, j);
      }
    } else {
      SameRecords(cfg, p, p', g);
    }
  }

  lemma DownlinkRecordLaw(cfg: ProxyConfig, qcfg: Config, p: Proxy, e: ProxyEvent, g: Addr)
    requires qcfg.Ok() && ProxyInv(cfg, qcfg, p) && Possible(cfg, qcfg, p, e) && e.Downlink? && !SilentDownlink(qcfg, p, e)
    requires Distinct(cfg.ups) && !cfg.inRule.MatchAll?
    ensures GroupRecordsAgree(cfg, Next(cfg, qcfg, p, e), g) <==>
      Renews(cfg, qcfg, p, e, g) || (GroupRecordsAgree(cfg, p, g) && !Misreports(cfg, qcfg, p, e, g))
  {
    hide Inv, Next, DataOk, Announces, SeenViews, Rerouted, Reported, SilentDownlink, States, Distinct, GroupRecordsAgree;
    var p' := Next(cfg, qcfg, p, e);
    DownlinkFacts(cfg, qcfg, p, e);
    if h :| Announces(qcfg, p, e, h) {
      AnnouncesOne(qcfg, p, e, g, h);
      ReportedAgree(cfg, p, p', g, h);
    }
    if !Announces(qcfg, p, e, g) {
      SameRecords(cfg, p, p', g);
    }
  }

  lemma SourceRecordLaw(cfg: ProxyConfig, qcfg: Config, p: Proxy, e: ProxyEvent, g: Addr)
    requires ProxyInv(cfg, qcfg, p) && Possible(cfg, qcfg, p, e) && !e.Downlink? && Distinct(cfg.ups) && !cfg.inRule.MatchAll?
    ensures GroupRecordsAgree(cfg, Next(cfg, qcfg, p, e), g) <==> Renews(cfg, qcfg, p, e, g) || GroupRecordsAgree(cfg, p, g)
  {
    hide Inv, DataOk, Enabled, SetSource, DelSource, Rerouted, Reported, Distinct, GroupRecordsAgree;
    var p', r := Next(cfg, qcfg, p, e), p.routing;
    assert States(cfg, p'.queriers, g) == States(cfg, p.queriers, g);
    match e
    case SourceSeen(i, h, b, packets) =>
      SetSourceFacts(r.data, i, h, b, SourceTimer(r.nextId, i, h, b), packets);
      if cfg.inRule.MatchMutex? {
        ReportedAgree(cfg, p, p', g, h);
      }
      if !Renews(cfg, qcfg, p, e, g) {
        SameRecords(cfg, p, p', g);
      }
    case SourceCheck(t, packets) => CheckRecordLaw(cfg, qcfg, p, e, g);
    case Wait(_, _) => SameRecords(cfg, p, p', g);
  }

  lemma CheckRecordLaw(cfg: ProxyConfig, qcfg: Config, p: Proxy, e: ProxyEvent, g: Addr)
    requires ProxyInv(cfg, qcfg, p) && e.SourceCheck? && Distinct(cfg.ups) && !cfg.inRule.MatchAll?
    ensures GroupRecordsAgree(cfg, Next(cfg, qcfg, p, e), g) <==> Renews(cfg, qcfg, p, e, g) || GroupRecordsAgree(cfg, p, g)
  {
    hide Inv, DelSource, Reported, States, Distinct, GroupRecordsAgree;
    var h, b := e.t.gaddr, e.t.saddr;
    var p', r := Next(cfg, qcfg, p, e), p.routing;
    var known := Sources(r.data, h);
    if b in known && known[b].timer == e.t {
      DelSourceFacts(r.data, h, b);
      RefreshedFacts(r.data, h, b, SourceTimer(r.nextId, e.t.ifIndex, h, b), e.packets);
      if known[b].packets == e.packets && cfg.inRule.MatchMutex? {
        ReportedAgree(cfg, p, p', g, h);
      }
    }
    if !Renews(cfg, qcfg, p, e, g) {
      SameRecords(cfg, p, p', g);
    }
  }

  /** One event, from any state: the records of a group agree afterwards if and only if the event renews them, or
      they agreed before and the event does not misreport. */
  lemma RecordLaw(cfg: ProxyConfig, qcfg: Config, p: Proxy, e: ProxyEvent, g: Addr)
    requires qcfg.Ok() && ProxyInv(cfg, qcfg, p) && Possible(cfg, qcfg, p, e) && Distinct(cfg.ups) && !cfg.inRule.MatchAll?
    ensures GroupRecordsAgree(cfg, Next(cfg, qcfg, p, e), g) <==>
      Renews(cfg, qcfg, p, e, g) || (GroupRecordsAgree(cfg, p, g) && !Misreports(cfg, qcfg, p, e, g))
  {
    hide Inv, DataOk, Next, GroupRecordsAgree, Renews, Possible, Distinct, SilentLeave, Due;
    if !e.Downlink? {
      SourceRecordLaw(cfg, qcfg, p, e, g);
    } else if SilentDownlink(qcfg, p, e) {
      SilentRecordLaw(cfg, qcfg, p, e, g);
    } else {
      DownlinkRecordLaw(cfg, qcfg, p, e, g);
    }
  }

  predicate NeverMisreported(cfg: ProxyConfig, qcfg: Config, p: Proxy, es: seq<ProxyEvent>, g: Addr)
    requires |p.queriers| == |cfg.downs| && ProxyRun(cfg, qcfg, p, es)
    decreases |es|
  {
    es == [] || (!Misreports(cfg, qcfg, p, es[0], g) && NeverMisreported(cfg, qcfg, Next(cfg, qcfg, p, es[0]), es[1..], g))
  }

  predicate RenewedIn(cfg: ProxyConfig, qcfg: Config, p: Proxy, es: seq<ProxyEvent>, g: Addr)
    requires |p.queriers| == |cfg.downs| && ProxyRun(cfg, qcfg, p, es)
    decreases |es|
  {
    es != [] &&
    var p1 := Next(cfg, qcfg, p, es[0]);
    (Renews(cfg, qcfg, p, es[0], g) && NeverMisreported(cfg, qcfg, p1, es[1..], g)) || RenewedIn(cfg, qcfg, p1, es[1..], g)
  }

  /** Whole runs, from any state: the records of a group agree at the end if and only if some event renews them and no
      later one misreports, or they agreed at the start and no event misreports. */
  lemma {:induction false} RecordsInRuns(cfg: ProxyConfig, qcfg: Config, p: Proxy, es: seq<ProxyEvent>, g: Addr)
    requires qcfg.Ok() && ProxyInv(cfg, qcfg, p) && ProxyRun(cfg, qcfg, p, es) && Distinct(cfg.ups) && !cfg.inRule.MatchAll?
    ensures GroupRecordsAgree(cfg, ProxyAfter(cfg, qcfg, p, es), g) <==>
      RenewedIn(cfg, qcfg, p, es, g) || (GroupRecordsAgree(cfg, p, g) && NeverMisreported(cfg, qcfg, p, es, g))
    decreases |es|
  {
    hide Inv, DataOk, Next, GroupRecordsAgree, Renews, Misreports, Possible, Distinct;
    if es != [] {
      RecordLaw(cfg, qcfg, p, es[0], g);
      NextInv(cfg, qcfg, p, es[0]);
      RecordsInRuns(cfg, qcfg, Next(cfg, qcfg, p, es[0]), es[1..], g);
    }
  }

  // ---------------------------------------------------------------- the way back

  /** After the stale route of `RejectedMoveHappens` the source is seen again where its input filter accepts it: the
      entry agrees. A check that finds the source unused does it too. */
  lemma StaleRouteRepaired(cfg: ProxyConfig, qcfg: Config, p: Proxy, e: ProxyEvent)
    requires qcfg.Ok() && ProxyInv(cfg, qcfg, p) && Possible(cfg, qcfg, p, e)
    ensures e.SourceSeen? && InputAccepted(cfg, e.g, e.a, e.i) ==> EntryAgrees(cfg, Next(cfg, qcfg, p, e), e.g, e.a)
    ensures e.SourceCheck? && Forgets(p, e, e.t.gaddr, e.t.saddr) ==> EntryAgrees(cfg, Next(cfg, qcfg, p, e), e.t.gaddr, e.t.saddr)
  {
    hide Inv, DataOk, Next, EntryAgrees, Possible, InputAccepted;
    if e.SourceSeen? {
      EntryLaw(cfg, qcfg, p, e, e.g, e.a);
    } else if e.SourceCheck? {
      EntryLaw(cfg, qcfg, p, e, e.t.gaddr, e.t.saddr);
    }
  }
}
