/** A whole proxy instance: the queriers of its downstream interfaces and the routing layer above
    them, driven by records, timers and new sources. The forwarding entries of the kernel and the
    records sent upstream always agree with what the queriers know. */
module ProxyRuns {
  import opened Defs
  import opened MembershipDb
  import opened QuerierSpec
  import opened QuerierInvariant
  import opened QuerierViews
  import LeaveLatency
  import opened Aggregation
  import opened MutexAggregation
  import opened Memberships
  import opened RoutingSpec

  /** One querier per downstream interface, in the order of `ProxyConfig.downs`. */
  datatype Proxy = Proxy(queriers: seq<QState>, routing: RState)

  /** The memberships of group `g` on all downstream interfaces. */
  function States(cfg: ProxyConfig, queriers: seq<QState>, g: Addr): (sts: seq<State>)
    requires |queriers| == |cfg.downs|
    ensures |sts| == |cfg.downs|
    ensures forall k | 0 <= k < |sts| :: sts[k] == (queriers[k].Membership(g), cfg.downs[k])
  {
    seq(|cfg.downs|, k requires 0 <= k < |cfg.downs| => (queriers[k].Membership(g), cfg.downs[k]))
  }

  /** A message for the querier of downstream `k`, a source seen on an interface, a source timer with
      the packet count of the kernel at that moment, or the passage of time. */
  datatype ProxyEvent =
    | Downlink(k: nat, e: Event)
    | SourceSeen(i: IfIndex, g: Addr, a: Addr, packets: nat)
    | SourceCheck(t: SourceTimer, packets: nat)
    | Wait(to: int, lag: nat)

  predicate Possible(cfg: ProxyConfig, qcfg: Config, p: Proxy, e: ProxyEvent) {
    match e
    case Downlink(k, qe) => k < |p.queriers| && !qe.Tick? && Enabled(qcfg, p.queriers[k], qe)
    case SourceSeen(_, _, _, _) => true
    case SourceCheck(_, _) => true
    case Wait(to, lag) => forall k | 0 <= k < |p.queriers| :: Enabled(qcfg, p.queriers[k], Tick(to, lag))
  }

  /** A notification runs the routing layer while the view in the notice holds. */
  function Notified(cfg: ProxyConfig, p: Proxy, k: nat, q: QState): RState
    requires |p.queriers| == |cfg.downs| && k < |p.queriers|
  {
    if q.notices == p.queriers[k].notices || q.notices == [] then p.routing
    else
      var n := q.notices[|q.notices| - 1];
      QuerierStateChange(cfg, p.routing, n.gaddr, States(cfg, p.queriers, n.gaddr)[k := (n.view, cfg.downs[k])])
  }

  function Waited(queriers: seq<QState>, to: int, lag: nat): (r: seq<QState>)
    ensures |r| == |queriers| && forall k | 0 <= k < |r| :: r[k] == queriers[k].(now := to, lag := lag)
  {
    seq(|queriers|, k requires 0 <= k < |queriers| => queriers[k].(now := to, lag := lag))
  }

  function Next(cfg: ProxyConfig, qcfg: Config, p: Proxy, e: ProxyEvent): (p': Proxy)
    requires |p.queriers| == |cfg.downs| && Possible(cfg, qcfg, p, e)
    ensures |p'.queriers| == |cfg.downs|
  {
    match e
    case Downlink(k, qe) =>
      var q := Step(qcfg, p.queriers[k], qe);
      Proxy(p.queriers[k := q], Notified(cfg, p, k, q))
    case SourceSeen(i, g, a, packets) =>
      p.(routing := NewSource(cfg, p.routing, i, g, a, packets, States(cfg, p.queriers, g)))
    case SourceCheck(t, packets) =>
      p.(routing := MaintainRoutingTable(cfg, p.routing, t, packets, States(cfg, p.queriers, t.gaddr)))
    case Wait(to, lag) => p.(queriers := Waited(p.queriers, to, lag))
  }

  ghost predicate ProxyInv(cfg: ProxyConfig, qcfg: Config, p: Proxy) {
    && |p.queriers| == |cfg.downs|
    && (forall k | 0 <= k < |p.queriers| :: Inv(qcfg, p.queriers[k]))
    && DataOk(p.routing.data)
  }

  /** The kernel has an entry exactly for the known sources that have somewhere to go, and it is the
      decision on the current memberships. */
  ghost predicate KernelAgrees(cfg: ProxyConfig, p: Proxy)
    requires |p.queriers| == |cfg.downs|
  {
    forall g, a :: Lookup(p.routing.kernel, (g, a)) == Wished(cfg, p, g, a)
  }

  function Wished(cfg: ProxyConfig, p: Proxy, g: Addr, a: Addr): Option<Route>
    requires |p.queriers| == |cfg.downs|
  {
    var known := InterfaceMap(p.routing.data, g);
    if a in known then Decision(cfg, g, a, known[a], States(cfg, p.queriers, g)) else None
  }

  /** The last record sent on every upstream is the aggregate of the current memberships. */
  ghost predicate RecordsAgree(cfg: ProxyConfig, p: Proxy)
    requires |p.queriers| == |cfg.downs|
  {
    forall g, k | 0 <= k < |cfg.ups| :: LastSent(p.routing.sent, cfg.ups[k], g) == Due(cfg, p, g, k)
  }

  function Due(cfg: ProxyConfig, p: Proxy, g: Addr, k: nat): View
    requires |p.queriers| == |cfg.downs| && k < |cfg.ups|
  {
    MergeAll(Aggregated(cfg, g, States(cfg, p.queriers, g), InterfaceMap(p.routing.data, g))[k].1)
  }

  /** A source with a forwarding entry turns up on an interface whose input filter rejects it while
      somebody still wants it: the old entry stays. */
  predicate RejectedMove(cfg: ProxyConfig, p: Proxy, e: ProxyEvent)
    requires |p.queriers| == |cfg.downs|
  {
    && e.SourceSeen?
    && (e.g, e.a) in p.routing.kernel
    && Outputs(cfg, e.g, e.a, e.i, States(cfg, p.queriers, e.g)) != {}
    && !InputAccepted(cfg, e.g, e.a, e.i)
  }

  /** A leave of an older host for a group nobody has joined is announced as a join. */
  predicate SilentDownlink(qcfg: Config, p: Proxy, e: ProxyEvent) {
    e.Downlink? && e.k < |p.queriers| && SilentLeave(qcfg, p.queriers[e.k], e.e)
  }

  /** The announced join would forward source `a` to downstream `k`, where it does not go otherwise. */
  predicate JoinsWrongly(cfg: ProxyConfig, p: Proxy, k: nat, g: Addr, a: Addr)
    requires |p.queriers| == |cfg.downs| && k < |cfg.downs|
  {
    var known := InterfaceMap(p.routing.data, g);
    && a in known && InputAccepted(cfg, g, a, known[a])
    && Interested(cfg, g, a, known[a], (EVERYTHING, cfg.downs[k]))
    && cfg.downs[k] !in Outputs(cfg, g, a, known[a], States(cfg, p.queriers, g))
  }

  /** Such a leave while some known source of the group could be forwarded to that downstream. */
  ghost predicate FalseJoin(cfg: ProxyConfig, qcfg: Config, p: Proxy, e: ProxyEvent)
    requires |p.queriers| == |cfg.downs|
  {
    SilentDownlink(qcfg, p, e) && exists a :: JoinsWrongly(cfg, p, e.k, e.e.r.gaddr, a)
  }

  /** Such a leave under the rule "first" while the first upstream has not been asked for everything. */
  predicate FalseReport(cfg: ProxyConfig, qcfg: Config, p: Proxy, e: ProxyEvent) {
    && SilentDownlink(qcfg, p, e) && cfg.inRule.MatchFirst? && cfg.ups != []
    && LastSent(p.routing.sent, cfg.ups[0], e.e.r.gaddr) != EVERYTHING
  }

  // ---------------------------------------------------------------- one step

  /** A querier step either leaves every view alone or announces the one view it changes. */
  lemma QuerierStepViews(qcfg: Config, s: QState, e: Event)
    requires qcfg.Ok() && Inv(qcfg, s) && Enabled(qcfg, s, e) && !SilentLeave(qcfg, s, e)
    ensures
      var s' := Step(qcfg, s, e);
      || (s'.notices == s.notices && forall h :: s'.Membership(h) == s.Membership(h))
      || exists g :: s'.notices == s.notices + [Notice(g, s'.Membership(g))] && forall h | h != g :: s'.Membership(h) == s.Membership(h)
  {
    hide ReceiveRecord, TimerTriggered, SilentLeave, Inv;
    match e
    case Record(r) =>
      RecordViews(qcfg, s, r);
      forall h | h != r.gaddr
        ensures ReceiveRecord(qcfg, s, r).Membership(h) == s.Membership(h)
      {
        RecordOthers(qcfg, s, r, h);
      }
    case Fire(t) => TimerViews(qcfg, s, t);
    case Tick(_, _) =>
  }

  lemma NextInv(cfg: ProxyConfig, qcfg: Config, p: Proxy, e: ProxyEvent)
    requires qcfg.Ok() && ProxyInv(cfg, qcfg, p) && Possible(cfg, qcfg, p, e)
    ensures ProxyInv(cfg, qcfg, Next(cfg, qcfg, p, e))
  {
    hide Inv, Enabled, Step, Rerouted, Reported;
    match e
    case Downlink(k, qe) => StepInv(qcfg, p.queriers[k], qe);
    case SourceSeen(i, g, a, packets) =>
      SetSourceFacts(p.routing.data, i, g, a, SourceTimer(p.routing.nextId, i, g, a), packets);
    case SourceCheck(t, packets) =>
      if t.saddr in Sources(p.routing.data, t.gaddr) && Sources(p.routing.data, t.gaddr)[t.saddr].timer == t {
        DelSourceFacts(p.routing.data, t.gaddr, t.saddr);
        RefreshedFacts(p.routing.data, t.gaddr, t.saddr, SourceTimer(p.routing.nextId, t.ifIndex, t.gaddr, t.saddr), packets);
      }
    case Wait(to, lag) =>
      forall k | 0 <= k < |p.queriers|
        ensures Inv(qcfg, Waited(p.queriers, to, lag)[k])
      {
        WaitInv(qcfg, p.queriers[k], to, lag);
      }
  }

  lemma WaitInv(qcfg: Config, s: QState, to: int, lag: nat)
    requires qcfg.Ok() && Inv(qcfg, s) && Enabled(qcfg, s, Tick(to, lag))
    ensures Inv(qcfg, s.(now := to, lag := lag))
  {
    StepInv(qcfg, s, Tick(to, lag));
  }

  /** The views of group `h` did not change and neither did what is known about its sources. */
  lemma SameGroup(cfg: ProxyConfig, p: Proxy, p': Proxy, h: Addr)
    requires |p.queriers| == |p'.queriers| == |cfg.downs|
    requires forall k | 0 <= k < |p.queriers| :: p'.queriers[k].Membership(h) == p.queriers[k].Membership(h)
    ensures States(cfg, p'.queriers, h) == States(cfg, p.queriers, h)
  {
  }

  /** A notified change brings kernel and records of its group up to date. */
  lemma ChangeAgrees(cfg: ProxyConfig, p: Proxy, p': Proxy, g: Addr)
    requires |p.queriers| == |p'.queriers| == |cfg.downs| && DataOk(p.routing.data) && Distinct(cfg.ups)
    requires forall h | h != g :: States(cfg, p'.queriers, h) == States(cfg, p.queriers, h)
    requires p'.routing == QuerierStateChange(cfg, p.routing, g, States(cfg, p'.queriers, g))
    ensures KernelAgrees(cfg, p) ==> KernelAgrees(cfg, p')
    ensures RecordsAgree(cfg, p) && !cfg.inRule.MatchAll? ==> RecordsAgree(cfg, p')
  {
    hide Outputs, InputAccepted, Aggregated, States, MergeAll, SentAfter, Rerouted, Distinct;
    if KernelAgrees(cfg, p) {
      forall h, a
        ensures Lookup(p'.routing.kernel, (h, a)) == Wished(cfg, p', h, a)
      {
        assert Lookup(p.routing.kernel, (h, a)) == Wished(cfg, p, h, a);
      }
    }
    var reports := Aggregated(cfg, g, States(cfg, p'.queriers, g), InterfaceMap(p.routing.data, g));
    SentFacts(p.routing.sent, g, cfg.ups, reports);
    if RecordsAgree(cfg, p) && !cfg.inRule.MatchAll? {
      forall h, k | 0 <= k < |cfg.ups|
        ensures LastSent(p'.routing.sent, cfg.ups[k], h) == Due(cfg, p', h, k)
      {
        assert h != g ==> LastSent(p.routing.sent, cfg.ups[k], h) == Due(cfg, p, h, k);
      }
    }
  }

  lemma DownlinkAgrees(cfg: ProxyConfig, qcfg: Config, p: Proxy, k: nat, qe: Event)
    requires qcfg.Ok() && ProxyInv(cfg, qcfg, p) && Possible(cfg, qcfg, p, Downlink(k, qe))
    requires Distinct(cfg.ups) && !SilentLeave(qcfg, p.queriers[k], qe)
    ensures
      var p' := Next(cfg, qcfg, p, Downlink(k, qe));
      && (KernelAgrees(cfg, p) ==> KernelAgrees(cfg, p'))
      && (RecordsAgree(cfg, p) && !cfg.inRule.MatchAll? ==> RecordsAgree(cfg, p'))
  {
    hide Step, Enabled, Inv, SilentLeave, QuerierStateChange, Decision, Due, Distinct, DataOk;
    var q := p.queriers[k];
    var q' := Step(qcfg, q, qe);
    var p' := Next(cfg, qcfg, p, Downlink(k, qe));
    QuerierStepViews(qcfg, q, qe);
    if q'.notices == q.notices {
      forall h
        ensures States(cfg, p'.queriers, h) == States(cfg, p.queriers, h)
      {
        SameGroup(cfg, p, p', h);
      }
      SameStates(cfg, p, p');
    } else {
      var g :| q'.notices == q.notices + [Notice(g, q'.Membership(g))] && forall h | h != g :: q'.Membership(h) == q.Membership(h);
      forall h | h != g
        ensures States(cfg, p'.queriers, h) == States(cfg, p.queriers, h)
      {
        SameGroup(cfg, p, p', h);
      }
      assert States(cfg, p'.queriers, g) == States(cfg, p.queriers, g)[k := (q'.Membership(g), cfg.downs[k])];
      ChangeAgrees(cfg, p, p', g);
    }
  }

  lemma SameStates(cfg: ProxyConfig, p: Proxy, p': Proxy)
    requires |p.queriers| == |p'.queriers| == |cfg.downs| && p'.routing == p.routing
    requires forall h :: States(cfg, p'.queriers, h) == States(cfg, p.queriers, h)
    ensures (KernelAgrees(cfg, p) ==> KernelAgrees(cfg, p')) && (RecordsAgree(cfg, p) ==> RecordsAgree(cfg, p'))
  {
    hide States, Decision;
    forall h, a
      ensures Wished(cfg, p', h, a) == Wished(cfg, p, h, a)
    {
    }
    forall h, k | 0 <= k < |cfg.ups|
      ensures Due(cfg, p', h, k) == Due(cfg, p, h, k)
    {
    }
  }

  /** A source event of group `g`: the records of the other groups stay as they are. */
  lemma SourceRecordsAgree(cfg: ProxyConfig, p: Proxy, p': Proxy, g: Addr)
    requires |p.queriers| == |cfg.downs| && p'.queriers == p.queriers && Distinct(cfg.ups)
    requires RecordsAgree(cfg, p) && !cfg.inRule.MatchAll?
    requires forall h | h != g :: InterfaceMap(p'.routing.data, h) == InterfaceMap(p.routing.data, h)
    requires
      var known := InterfaceMap(p'.routing.data, g);
      p'.routing.sent ==
        if cfg.inRule.MatchMutex? then Reported(cfg, p.routing.sent, g, States(cfg, p.queriers, g), known) else p.routing.sent
    ensures RecordsAgree(cfg, p')
  {
    hide MutexMatch, FirstReports, States, MergeAll, SentAfter, Distinct;
    var reports := Aggregated(cfg, g, States(cfg, p.queriers, g), InterfaceMap(p'.routing.data, g));
    SentFacts(p.routing.sent, g, cfg.ups, reports);
    forall h, k | 0 <= k < |cfg.ups|
      ensures LastSent(p'.routing.sent, cfg.ups[k], h) == Due(cfg, p', h, k)
    {
      assert LastSent(p.routing.sent, cfg.ups[k], h) == Due(cfg, p, h, k);
    }
  }

  /** The kernel follows a source to its new interface, except exactly on a rejected move. */
  lemma SourceSeenAgrees(cfg: ProxyConfig, qcfg: Config, p: Proxy, e: ProxyEvent)
    requires ProxyInv(cfg, qcfg, p) && e.SourceSeen? && Distinct(cfg.ups)
    ensures
      var p' := Next(cfg, qcfg, p, e);
      && (KernelAgrees(cfg, p) ==> (KernelAgrees(cfg, p') <==> !RejectedMove(cfg, p, e)))
      && (RecordsAgree(cfg, p) && !cfg.inRule.MatchAll? ==> RecordsAgree(cfg, p'))
  {
    hide Inv, DataOk, Outputs, InputAccepted, States, SetSource, Distinct, Rerouted, Reported, InterfaceMap;
    var SourceSeen(i, g, a, packets) := e;
    var p' := Next(cfg, qcfg, p, e);
    SetSourceFacts(p.routing.data, i, g, a, SourceTimer(p.routing.nextId, i, g, a), packets);
    if KernelAgrees(cfg, p) {
      forall h: Addr, b: Addr | (h, b) != (g, a)
        ensures Lookup(p'.routing.kernel, (h, b)) == Wished(cfg, p', h, b)
      {
        assert Lookup(p.routing.kernel, (h, b)) == Wished(cfg, p, h, b);
      }
      assert Lookup(p'.routing.kernel, (g, a)) == Wished(cfg, p', g, a) <==> !RejectedMove(cfg, p, e);
    }
    if RecordsAgree(cfg, p) && !cfg.inRule.MatchAll? {
      SourceRecordsAgree(cfg, p, p', g);
    }
  }

  lemma SourceCheckAgrees(cfg: ProxyConfig, qcfg: Config, p: Proxy, e: ProxyEvent)
    requires ProxyInv(cfg, qcfg, p) && e.SourceCheck? && Distinct(cfg.ups)
    ensures
      var p' := Next(cfg, qcfg, p, e);
      && (KernelAgrees(cfg, p) ==> KernelAgrees(cfg, p'))
      && (RecordsAgree(cfg, p) && !cfg.inRule.MatchAll? ==> RecordsAgree(cfg, p'))
  {
    hide Inv, KernelAgrees, RecordsAgree, States, DelSource, Distinct, Reported;
    var g, a := e.t.gaddr, e.t.saddr;
    var r := p.routing;
    var p' := Next(cfg, qcfg, p, e);
    var known := Sources(r.data, g);
    if a in known && known[a].timer == e.t {
      if known[a].packets != e.packets {
        RefreshedFacts(r.data, g, a, SourceTimer(r.nextId, e.t.ifIndex, g, a), e.packets);
        SameKernelEntries(cfg, p, p');
        SameDue(cfg, p, p');
      } else {
        DelSourceFacts(r.data, g, a);
        if KernelAgrees(cfg, p) {
          ForgottenAgrees(cfg, p, p', g, a);
        }
        if RecordsAgree(cfg, p) && !cfg.inRule.MatchAll? {
          SourceRecordsAgree(cfg, p, p', g);
        }
      }
    }
  }

  lemma SameKernelEntries(cfg: ProxyConfig, p: Proxy, p': Proxy)
    requires |p.queriers| == |cfg.downs| && p'.queriers == p.queriers && p'.routing.kernel == p.routing.kernel
    requires forall h :: InterfaceMap(p'.routing.data, h) == InterfaceMap(p.routing.data, h)
    ensures KernelAgrees(cfg, p) ==> KernelAgrees(cfg, p')
  {
    hide States, Decision;
    forall h, b
      ensures Wished(cfg, p', h, b) == Wished(cfg, p, h, b)
    {
    }
  }

  /** A forgotten source loses its entry and nothing else changes. */
  lemma ForgottenAgrees(cfg: ProxyConfig, p: Proxy, p': Proxy, g: Addr, a: Addr)
    requires |p.queriers| == |cfg.downs| && p'.queriers == p.queriers && KernelAgrees(cfg, p)
    requires p'.routing.kernel == p.routing.kernel - {(g, a)}
    requires InterfaceMap(p'.routing.data, g) == InterfaceMap(p.routing.data, g) - {a}
    requires forall h | h != g :: InterfaceMap(p'.routing.data, h) == InterfaceMap(p.routing.data, h)
    ensures KernelAgrees(cfg, p')
  {
    hide States, Decision, InterfaceMap;
    forall h, b
      ensures Lookup(p'.routing.kernel, (h, b)) == Wished(cfg, p', h, b)
    {
      assert Lookup(p.routing.kernel, (h, b)) == Wished(cfg, p, h, b);
    }
  }

  lemma SameDue(cfg: ProxyConfig, p: Proxy, p': Proxy)
    requires |p.queriers| == |cfg.downs| && p'.queriers == p.queriers && p'.routing.sent == p.routing.sent
    requires forall h :: InterfaceMap(p'.routing.data, h) == InterfaceMap(p.routing.data, h)
    ensures RecordsAgree(cfg, p) ==> RecordsAgree(cfg, p')
  {
    hide States;
    forall h, k | 0 <= k < |cfg.ups|
      ensures Due(cfg, p', h, k) == Due(cfg, p, h, k)
    {
    }
  }

  lemma WaitAgrees(cfg: ProxyConfig, qcfg: Config, p: Proxy, e: ProxyEvent)
    requires ProxyInv(cfg, qcfg, p) && e.Wait? && Possible(cfg, qcfg, p, e)
    ensures
      var p' := Next(cfg, qcfg, p, e);
      (KernelAgrees(cfg, p) ==> KernelAgrees(cfg, p')) && (RecordsAgree(cfg, p) ==> RecordsAgree(cfg, p'))
  {
    hide Inv, Decision, Enabled;
    var p' := Next(cfg, qcfg, p, e);
    forall h
      ensures States(cfg, p'.queriers, h) == States(cfg, p.queriers, h)
    {
    }
    SameStates(cfg, p, p');
  }

  /** The outputs of a source when the view of downstream `k`, which admits nothing, is taken for a join. */
  lemma JoinedOutputs(cfg: ProxyConfig, g: Addr, a: Addr, input: IfIndex, sts: seq<State>, k: nat)
    requires k < |sts| && sts[k].0 == NOTHING
    ensures
      var st := (EVERYTHING, sts[k].1);
      Outputs(cfg, g, a, input, sts[k := st]) ==
        Outputs(cfg, g, a, input, sts) + if Interested(cfg, g, a, input, st) then {st.1} else {}
  {
    var st := (EVERYTHING, sts[k].1);
    var sts' := sts[k := st];
    forall o
      ensures o in DownstreamOutputs(cfg, g, a, input, sts') <==>
        o in DownstreamOutputs(cfg, g, a, input, sts) || (Interested(cfg, g, a, input, st) && o == st.1)
    {
      if o in DownstreamOutputs(cfg, g, a, input, sts') {
        var j :| 0 <= j < |sts'| && Interested(cfg, g, a, input, sts'[j]) && o == sts'[j].1;
        assert j != k ==> sts[j] == sts'[j];
      }
      if o in DownstreamOutputs(cfg, g, a, input, sts) {
        var j :| 0 <= j < |sts| && Interested(cfg, g, a, input, sts[j]) && o == sts[j].1;
        assert sts'[j] == sts[j];
      }
      assert sts'[k] == st;
    }
  }

  /** The entry of one source after its group was announced wrongly. */
  lemma JoinedEntry(cfg: ProxyConfig, p: Proxy, p': Proxy, k: nat, g: Addr, a: Addr)
    requires |p.queriers| == |p'.queriers| == |cfg.downs| && k < |cfg.downs| && DataOk(p.routing.data)
    requires p.queriers[k].Membership(g) == NOTHING && Lookup(p.routing.kernel, (g, a)) == Wished(cfg, p, g, a)
    requires States(cfg, p'.queriers, g) == States(cfg, p.queriers, g)
    requires p'.routing == QuerierStateChange(cfg, p.routing, g, States(cfg, p.queriers, g)[k := (EVERYTHING, cfg.downs[k])])
    ensures Lookup(p'.routing.kernel, (g, a)) == Wished(cfg, p', g, a) <==> !JoinsWrongly(cfg, p, k, g, a)
  {
    hide Outputs, InputAccepted, Interested, Rerouted, Reported;
    var known := InterfaceMap(p.routing.data, g);
    if a in known {
      var sts, st := States(cfg, p.queriers, g), (EVERYTHING, cfg.downs[k]);
      JoinedOutputs(cfg, g, a, known[a], sts, k);
      var out, out' := Outputs(cfg, g, a, known[a], sts), Outputs(cfg, g, a, known[a], sts[k := st]);
      assert Interested(cfg, g, a, known[a], st) ==> st.1 in out';
      assert Lookup(p'.routing.kernel, (g, a)) == NewEntry(cfg, g, a, known[a], out', Lookup(p.routing.kernel, (g, a)));
      assert out == out' <==> !(Interested(cfg, g, a, known[a], st) && st.1 !in out);
    }
  }

  /** What a leave that is announced as a join does: no view changes, and the routing layer runs with a join. */
  lemma SilentDownlinkFacts(cfg: ProxyConfig, qcfg: Config, p: Proxy, e: ProxyEvent)
    requires qcfg.Ok() && ProxyInv(cfg, qcfg, p) && Possible(cfg, qcfg, p, e) && SilentDownlink(qcfg, p, e)
    ensures
      var p', g := Next(cfg, qcfg, p, e), e.e.r.gaddr;
      && (forall h :: States(cfg, p'.queriers, h) == States(cfg, p.queriers, h))
      && p.queriers[e.k].Membership(g) == NOTHING
      && p'.routing == QuerierStateChange(cfg, p.routing, g, States(cfg, p.queriers, g)[e.k := (EVERYTHING, cfg.downs[e.k])])
  {
    hide Inv, ReceiveRecord, DataOk, QuerierStateChange;
    var k, r := e.k, e.e.r;
    var p' := Next(cfg, qcfg, p, e);
    RecordViews(qcfg, p.queriers[k], r);
    forall h
      ensures States(cfg, p'.queriers, h) == States(cfg, p.queriers, h)
    {
      if h != r.gaddr {
        RecordOthers(qcfg, p.queriers[k], r, h);
      }
      SameGroup(cfg, p, p', h);
    }
  }

  /** After a leave that was announced as a join the kernel agrees exactly if no source could follow it. */
  lemma SilentDownlinkAgrees(cfg: ProxyConfig, qcfg: Config, p: Proxy, e: ProxyEvent)
    requires qcfg.Ok() && ProxyInv(cfg, qcfg, p) && Possible(cfg, qcfg, p, e) && SilentDownlink(qcfg, p, e)
    requires KernelAgrees(cfg, p)
    ensures KernelAgrees(cfg, Next(cfg, qcfg, p, e)) <==> !FalseJoin(cfg, qcfg, p, e)
  {
    hide Inv, Next, DataOk, JoinsWrongly, QuerierStateChange, Decision;
    var k, g := e.k, e.e.r.gaddr;
    var p' := Next(cfg, qcfg, p, e);
    SilentDownlinkFacts(cfg, qcfg, p, e);
    forall h, a
      ensures Lookup(p'.routing.kernel, (h, a)) == Wished(cfg, p', h, a) <==> !(h == g && JoinsWrongly(cfg, p, k, g, a))
    {
      assert Lookup(p.routing.kernel, (h, a)) == Wished(cfg, p, h, a);
      if h == g {
        JoinedEntry(cfg, p, p', k, g, a);
      } else {
        OtherEntry(cfg, p, p', k, g, h, a);
      }
    }
    if a :| JoinsWrongly(cfg, p, k, g, a) {
      assert Lookup(p'.routing.kernel, (g, a)) != Wished(cfg, p', g, a);
    }
  }

  /** The aggregate when a view that admits nothing is taken for a join: under "first" the first upstream is
      asked for everything, under "mutex" nothing changes. */
  lemma JoinedAggregate(cfg: ProxyConfig, g: Addr, sts: seq<State>, known: IfMap, k: nat, j: nat)
    requires k < |sts| && sts[k].0 == NOTHING && j < |cfg.ups| && !cfg.inRule.MatchAll?
    ensures
      var sts' := sts[k := (EVERYTHING, sts[k].1)];
      var was, now := MergeAll(Aggregated(cfg, g, sts, known)[j].1), MergeAll(Aggregated(cfg, g, sts', known)[j].1);
      now == if cfg.inRule.MatchFirst? && j == 0 then EVERYTHING else was
  {
    hide MergeAll, FirstMatch, MutexMatch, Views;
    if cfg.inRule.MatchFirst? {
      JoinedFirst(cfg, g, cfg.ups, sts, k, j);
    } else {
      MatchIgnoresEmpty(cfg, g, cfg.ups, sts, known, [], k, EVERYTHING);
    }
  }

  /** After a leave that was announced as a join the records agree exactly if the first upstream of the rule
      "first" was asked for everything anyway. */
  lemma SilentDownlinkRecords(cfg: ProxyConfig, qcfg: Config, p: Proxy, e: ProxyEvent)
    requires qcfg.Ok() && ProxyInv(cfg, qcfg, p) && Possible(cfg, qcfg, p, e) && SilentDownlink(qcfg, p, e)
    requires Distinct(cfg.ups) && !cfg.inRule.MatchAll? && RecordsAgree(cfg, p)
    ensures RecordsAgree(cfg, Next(cfg, qcfg, p, e)) <==> !FalseReport(cfg, qcfg, p, e)
  {
    hide Inv, Next, DataOk, Aggregated, MergeAll, SentAfter, Rerouted, Distinct, States;
    var k, g := e.k, e.e.r.gaddr;
    var p' := Next(cfg, qcfg, p, e);
    SilentDownlinkFacts(cfg, qcfg, p, e);
    var sts, known := States(cfg, p.queriers, g), InterfaceMap(p.routing.data, g);
    SentFacts(p.routing.sent, g, cfg.ups, Aggregated(cfg, g, sts[k := (EVERYTHING, cfg.downs[k])], known));
    forall h, j | 0 <= j < |cfg.ups|
      ensures Due(cfg, p', h, j) == LastSent(p.routing.sent, cfg.ups[j], h)
      ensures LastSent(p'.routing.sent, cfg.ups[j], h) ==
        if h == g && cfg.inRule.MatchFirst? && j == 0 then EVERYTHING else LastSent(p.routing.sent, cfg.ups[j], h)
    {
      assert LastSent(p.routing.sent, cfg.ups[j], h) == Due(cfg, p, h, j);
      JoinedAggregate(cfg, g, sts, known, k, j);
    }
    if FalseReport(cfg, qcfg, p, e) {
      assert LastSent(p'.routing.sent, cfg.ups[0], g) != Due(cfg, p', g, 0);
    }
  }

  lemma OtherEntry(cfg: ProxyConfig, p: Proxy, p': Proxy, k: nat, g: Addr, h: Addr, a: Addr)
    requires |p.queriers| == |p'.queriers| == |cfg.downs| && k < |cfg.downs| && h != g
    requires States(cfg, p'.queriers, h) == States(cfg, p.queriers, h)
    requires p'.routing == QuerierStateChange(cfg, p.routing, g, States(cfg, p.queriers, g)[k := (EVERYTHING, cfg.downs[k])])
    ensures Lookup(p'.routing.kernel, (h, a)) == Lookup(p.routing.kernel, (h, a)) && Wished(cfg, p', h, a) == Wished(cfg, p, h, a)
  {
    hide Outputs, Decision, Rerouted, Reported, States;
  }

  /** Agreement after one event, exactly: the kernel agrees again unless the event is a rejected move or a false
      join, the records agree again unless it is a false report. */
  lemma NextAgrees(cfg: ProxyConfig, qcfg: Config, p: Proxy, e: ProxyEvent)
    requires qcfg.Ok() && ProxyInv(cfg, qcfg, p) && Possible(cfg, qcfg, p, e) && Distinct(cfg.ups)
    ensures
      var p' := Next(cfg, qcfg, p, e);
      && (KernelAgrees(cfg, p) ==> (KernelAgrees(cfg, p') <==> !RejectedMove(cfg, p, e) && !FalseJoin(cfg, qcfg, p, e)))
      && (RecordsAgree(cfg, p) && !cfg.inRule.MatchAll? ==> (RecordsAgree(cfg, p') <==> !FalseReport(cfg, qcfg, p, e)))
  {
    hide Inv, Enabled, KernelAgrees, RecordsAgree, Next, DataOk, Distinct, SilentLeave, JoinsWrongly;
    match e
    case Downlink(k, qe) =>
      if !SilentDownlink(qcfg, p, e) {
        DownlinkAgrees(cfg, qcfg, p, k, qe);
      } else {
        if KernelAgrees(cfg, p) {
          SilentDownlinkAgrees(cfg, qcfg, p, e);
        }
        if RecordsAgree(cfg, p) && !cfg.inRule.MatchAll? {
          SilentDownlinkRecords(cfg, qcfg, p, e);
        }
      }
    case SourceSeen(_, _, _, _) => SourceSeenAgrees(cfg, qcfg, p, e);
    case SourceCheck(_, _) => SourceCheckAgrees(cfg, qcfg, p, e);
    case Wait(_, _) => WaitAgrees(cfg, qcfg, p, e);
  }

  // ---------------------------------------------------------------- runs

  /** The events can happen one after the other. */
  predicate ProxyRun(cfg: ProxyConfig, qcfg: Config, p: Proxy, es: seq<ProxyEvent>)
    requires |p.queriers| == |cfg.downs|
    decreases |es|
  {
    es == [] || (Possible(cfg, qcfg, p, es[0]) && ProxyRun(cfg, qcfg, Next(cfg, qcfg, p, es[0]), es[1..]))
  }

  function ProxyAfter(cfg: ProxyConfig, qcfg: Config, p: Proxy, es: seq<ProxyEvent>): (p': Proxy)
    requires |p.queriers| == |cfg.downs| && ProxyRun(cfg, qcfg, p, es)
    ensures |p'.queriers| == |cfg.downs|
    decreases |es|
  {
    if es == [] then p else ProxyAfter(cfg, qcfg, Next(cfg, qcfg, p, es[0]), es[1..])
  }

  /** No event of the run breaks the agreement of the kernel. */
  ghost predicate KernelSafe(cfg: ProxyConfig, qcfg: Config, p: Proxy, es: seq<ProxyEvent>)
    requires |p.queriers| == |cfg.downs| && ProxyRun(cfg, qcfg, p, es)
    decreases |es|
  {
    || es == []
    || (&& !RejectedMove(cfg, p, es[0]) && !FalseJoin(cfg, qcfg, p, es[0])
        && KernelSafe(cfg, qcfg, Next(cfg, qcfg, p, es[0]), es[1..]))
  }

  /** No event of the run breaks the agreement of the records. */
  predicate RecordsSafe(cfg: ProxyConfig, qcfg: Config, p: Proxy, es: seq<ProxyEvent>)
    requires |p.queriers| == |cfg.downs| && ProxyRun(cfg, qcfg, p, es)
    decreases |es|
  {
    es == [] || (!FalseReport(cfg, qcfg, p, es[0]) && RecordsSafe(cfg, qcfg, Next(cfg, qcfg, p, es[0]), es[1..]))
  }

  lemma {:induction false} RunAgrees(cfg: ProxyConfig, qcfg: Config, p: Proxy, es: seq<ProxyEvent>)
    requires qcfg.Ok() && Distinct(cfg.ups) && ProxyInv(cfg, qcfg, p) && ProxyRun(cfg, qcfg, p, es)
    ensures
      var p' := ProxyAfter(cfg, qcfg, p, es);
      && ProxyInv(cfg, qcfg, p')
      && (KernelAgrees(cfg, p) && KernelSafe(cfg, qcfg, p, es) ==> KernelAgrees(cfg, p'))
      && (RecordsAgree(cfg, p) && !cfg.inRule.MatchAll? && RecordsSafe(cfg, qcfg, p, es) ==> RecordsAgree(cfg, p'))
    decreases |es|
  {
    hide KernelAgrees, RecordsAgree, Next, Inv, DataOk, Distinct, RejectedMove, FalseJoin, FalseReport, Possible;
    if es != [] {
      NextAgrees(cfg, qcfg, p, es[0]);
      NextInv(cfg, qcfg, p, es[0]);
      RunAgrees(cfg, qcfg, Next(cfg, qcfg, p, es[0]), es[1..]);
    }
  }

  function Started(cfg: ProxyConfig): (p: Proxy)
    ensures |p.queriers| == |cfg.downs|
  {
    Proxy(seq(|cfg.downs|, _ => EMPTY), NO_ROUTES)
  }

  /** Nobody wants anything: nothing is reported. */
  lemma {:induction false} NothingReported(cfg: ProxyConfig, g: Addr, ups: seq<IfIndex>, sts: seq<State>, data: Reports, k: nat)
    requires forall i | 0 <= i < |sts| :: sts[i].0 == NOTHING
    requires k < |ups|
    ensures MergeAll(Views(FirstMatch(cfg, g, ups, sts)[k])) == NOTHING
    ensures MutexMatch(cfg, g, ups, sts, map[], data)[|data| + k].1 == []
  {
    NothingKept(cfg, g, ups[0], sts);
    if k > 0 {
      NothingReported(cfg, g, ups[1..], [], MutexStep(cfg, g, ups[0], sts, map[], data), k - 1);
    } else {
      NothingMerged(Views(KeptStates(cfg, g, ups[0], sts)));
      MatchKeepsNothing(cfg, g, ups[1..], MutexStep(cfg, g, ups[0], sts, map[], data), |data|);
    }
  }

  lemma {:induction false} MatchKeepsNothing(cfg: ProxyConfig, g: Addr, ups: seq<IfIndex>, data: Reports, k: nat)
    requires k < |data| && data[k].1 == []
    ensures MutexMatch(cfg, g, ups, [], map[], data)[k].1 == []
  {
    if ups != [] {
      MatchKeepsNothing(cfg, g, ups[1..], MutexStep(cfg, g, ups[0], [], map[], data), k);
    }
  }

  lemma {:induction false} NothingKept(cfg: ProxyConfig, g: Addr, u: IfIndex, sts: seq<State>)
    requires forall i | 0 <= i < |sts| :: sts[i].0 == NOTHING
    ensures forall i | 0 <= i < |sts| :: KeptStates(cfg, g, u, sts)[i].0 == NOTHING
    ensures PassedStates(cfg, g, u, sts) == []
    ensures Remaining(cfg, g, u, sts, map[]) == [] && TakenStates(cfg, g, u, sts, map[]) == []
  {
    if sts != [] {
      var front, last := sts[..|sts| - 1], sts[|sts| - 1];
      NothingKept(cfg, g, u, front);
      assert PassedOn(cfg, g, u, last) == {} && KeptAt(cfg, g, u, last) == {};
      assert Taken(cfg, g, u, last, map[]) == {};
    }
  }

  lemma {:induction false} NothingMerged(views: seq<View>)
    requires forall i | 0 <= i < |views| :: views[i] == NOTHING
    ensures MergeAll(views) == NOTHING
  {
    if views != [] {
      NothingMerged(views[..|views| - 1]);
    }
  }

  lemma NothingDue(cfg: ProxyConfig, g: Addr, k: nat)
    requires k < |cfg.ups|
    ensures Due(cfg, Started(cfg), g, k) == NOTHING
  {
    hide FirstMatch, MutexMatch, MergeAll, Views;
    var sts := States(cfg, Started(cfg).queriers, g);
    NothingReported(cfg, g, cfg.ups, sts, [], k);
    NothingMerged([]);
  }

  lemma StartAgrees(cfg: ProxyConfig, qcfg: Config)
    ensures
      var p := Started(cfg);
      ProxyInv(cfg, qcfg, p) && KernelAgrees(cfg, p) && RecordsAgree(cfg, p)
  {
    hide Due, Decision;
    forall g, k | 0 <= k < |cfg.ups|
      ensures Due(cfg, Started(cfg), g, k) == NOTHING
    {
      NothingDue(cfg, g, k);
    }
  }

  /** Agreement over all runs: unless a rejected move or a false join happens, the kernel holds for each source
      exactly the decision on the current memberships; unless a false report happens, every upstream has been
      sent exactly the aggregate. */
  lemma Agreement(cfg: ProxyConfig, qcfg: Config, es: seq<ProxyEvent>)
    requires qcfg.Ok() && Distinct(cfg.ups) && ProxyRun(cfg, qcfg, Started(cfg), es)
    ensures
      var p := ProxyAfter(cfg, qcfg, Started(cfg), es);
      && ProxyInv(cfg, qcfg, p)
      && (KernelSafe(cfg, qcfg, Started(cfg), es) ==> KernelAgrees(cfg, p))
      && (RecordsSafe(cfg, qcfg, Started(cfg), es) && !cfg.inRule.MatchAll? ==> RecordsAgree(cfg, p))
  {
    StartAgrees(cfg, qcfg);
    RunAgrees(cfg, qcfg, Started(cfg), es);
  }

  /** A rejected move does happen: a source moves from one downstream to another whose input filter
      rejects it, and the entry for the old interface stays. */
  lemma RejectedMoveHappens(qcfg: Config, accepts: (IfType, Direction, IfIndex, IfIndex, Addr, Addr) -> bool) returns (es: seq<ProxyEvent>, p: Proxy)
    requires qcfg.Ok()
    requires forall ty, dir, i, j, g, a :: accepts(ty, dir, i, j, g, a) <==> !(ty == Downstream && dir == In && i == 2)
    ensures
      var cfg := ProxyConfig([0], [1, 2], MatchFirst, MatchAll, accepts);
      && |es| == 2 && ProxyRun(cfg, qcfg, Started(cfg), es[..1])
      && p == ProxyAfter(cfg, qcfg, Started(cfg), es[..1])
      && KernelAgrees(cfg, p) && RejectedMove(cfg, p, es[1]) && !KernelAgrees(cfg, Next(cfg, qcfg, p, es[1]))
  {
    hide KernelAgrees, RecordsAgree, ProxyInv, Next, Outputs, InputAccepted;
    var cfg := ProxyConfig([0], [1, 2], MatchFirst, MatchAll, accepts);
    es := [SourceSeen(1, 7, 9, 0), SourceSeen(2, 7, 9, 0)];
    var start := Started(cfg);
    p := Next(cfg, qcfg, start, es[0]);
    assert es[..1] == [es[0]];
    StartAgrees(cfg, qcfg);
    UpwardEntry(cfg, qcfg, start, 7, 9, 1);
    NextAgrees(cfg, qcfg, start, es[0]);
    NextInv(cfg, qcfg, start, es[0]);
    StillWanted(cfg, p, 7, 9, 2);
    NextAgrees(cfg, qcfg, p, es[1]);
  }

  /** The traffic of downstream `i` is wanted by upstream 0. */
  lemma StillWanted(cfg: ProxyConfig, p: Proxy, g: Addr, a: Addr, i: IfIndex)
    requires |p.queriers| == |cfg.downs| && i in cfg.downs && 0 in cfg.ups && cfg.outRule.MatchAll?
    requires cfg.accepts(Upstream, Out, 0, i, g, a) && i !in cfg.ups
    ensures Outputs(cfg, g, a, i, States(cfg, p.queriers, g)) != {}
    ensures InputAccepted(cfg, g, a, i) <==> cfg.accepts(Downstream, In, i, i, g, a)
  {
    assert 0 in UpstreamOutputs(cfg, g, a, i);
  }

  /** A source seen on downstream `i` for the first time gets an entry. */
  lemma UpwardEntry(cfg: ProxyConfig, qcfg: Config, p: Proxy, g: Addr, a: Addr, i: IfIndex)
    requires |p.queriers| == |cfg.downs| && i in cfg.downs && 0 in cfg.ups && cfg.outRule.MatchAll? && i !in cfg.ups
    requires cfg.accepts(Upstream, Out, 0, i, g, a) && cfg.accepts(Downstream, In, i, i, g, a)
    ensures (g, a) in Next(cfg, qcfg, p, SourceSeen(i, g, a, 0)).routing.kernel
    ensures !RejectedMove(cfg, p, SourceSeen(i, g, a, 0))
  {
    hide Outputs, InputAccepted, Rerouted, Reported;
    StillWanted(cfg, p, g, a, i);
    var p' := Next(cfg, qcfg, p, SourceSeen(i, g, a, 0));
    assert Lookup(p'.routing.kernel, (g, a)).Some?;
  }

  /** A false join does happen: after an IGMPv2 leave for a group nobody has joined, a source that
      arrives on the upstream is forwarded to the downstream of the leave. */
  lemma FalseJoinHappens(qcfg: Config, accepts: (IfType, Direction, IfIndex, IfIndex, Addr, Addr) -> bool) returns (es: seq<ProxyEvent>, p: Proxy)
    requires qcfg.Ok() && qcfg.version == IGMPv3
    requires forall ty, dir, i, j, g, a :: accepts(ty, dir, i, j, g, a)
    ensures
      var cfg := ProxyConfig([0], [1], MatchFirst, MatchAll, accepts);
      && |es| == 2 && ProxyRun(cfg, qcfg, Started(cfg), es[..1])
      && p == ProxyAfter(cfg, qcfg, Started(cfg), es[..1]) && Possible(cfg, qcfg, p, es[1])
      && KernelAgrees(cfg, p) && FalseJoin(cfg, qcfg, p, es[1]) && !KernelAgrees(cfg, Next(cfg, qcfg, p, es[1]))
  {
    hide KernelAgrees, RecordsAgree, ProxyInv, Inv, Rerouted, Reported, Step;
    var cfg := ProxyConfig([0], [1], MatchFirst, MatchAll, accepts);
    es := [SourceSeen(0, 7, 9, 0), Downlink(0, Record(GroupRecord(ToIn, 7, {}, IGMPv2)))];
    var start := Started(cfg);
    p := Next(cfg, qcfg, start, es[0]);
    assert es[..1] == [es[0]];
    StartAgrees(cfg, qcfg);
    NextAgrees(cfg, qcfg, start, es[0]);
    NextInv(cfg, qcfg, start, es[0]);
    assert JoinsWrongly(cfg, p, 0, 7, 9);
    NextAgrees(cfg, qcfg, p, es[1]);
  }

  /** A false report does happen: after an IGMPv2 leave for a group nobody has joined, the upstream is asked for
      every source of the group. */
  lemma FalseReportHappens(qcfg: Config, accepts: (IfType, Direction, IfIndex, IfIndex, Addr, Addr) -> bool) returns (e: ProxyEvent)
    requires qcfg.Ok() && qcfg.version == IGMPv3
    ensures
      var cfg := ProxyConfig([0], [1], MatchFirst, MatchAll, accepts);
      var p := Started(cfg);
      && Possible(cfg, qcfg, p, e) && RecordsAgree(cfg, p) && FalseReport(cfg, qcfg, p, e)
      && !RecordsAgree(cfg, Next(cfg, qcfg, p, e))
  {
    hide KernelAgrees, RecordsAgree, ProxyInv, Inv, Step, Next;
    var cfg := ProxyConfig([0], [1], MatchFirst, MatchAll, accepts);
    e := Downlink(0, Record(GroupRecord(ToIn, 7, {}, IGMPv2)));
    StartAgrees(cfg, qcfg);
    NextAgrees(cfg, qcfg, Started(cfg), e);
  }

  // ---------------------------------------------------------------- what agreement means

  /** No entry sends traffic back to where it comes from or from one upstream to another. */
  lemma NoLoops(cfg: ProxyConfig, p: Proxy, g: Addr, a: Addr)
    requires |p.queriers| == |cfg.downs| && KernelAgrees(cfg, p) && (g, a) in p.routing.kernel
    requires forall i | i in cfg.ups :: i !in cfg.downs
    ensures
      var route := p.routing.kernel[(g, a)];
      && route.input !in route.outputs
      && (cfg.IsUpstream(route.input) ==> forall u | u in cfg.ups :: u !in route.outputs)
      && (forall o | o in route.outputs :: o in cfg.ups || o in cfg.downs)
  {
    assert Lookup(p.routing.kernel, (g, a)) == Wished(cfg, p, g, a);
    var sts := States(cfg, p.queriers, g);
    var route := p.routing.kernel[(g, a)];
    forall o | o in route.outputs
      ensures o in UpstreamOutputs(cfg, g, a, route.input) || (o in cfg.downs && o != route.input)
    {
      if o in DownstreamOutputs(cfg, g, a, route.input, sts) {
        var k :| 0 <= k < |sts| && Interested(cfg, g, a, route.input, sts[k]) && o == sts[k].1;
        assert cfg.downs[k] == o;
      }
    }
  }

  ghost predicate AcceptsAll(cfg: ProxyConfig) {
    forall ty, dir, i, j, g, a :: cfg.accepts(ty, dir, i, j, g, a)
  }

  /** Section 4.2 of RFC 4605: traffic from a downstream goes to all upstreams, and all traffic goes to
      every other downstream whose membership wants it. */
  ghost predicate Rfc4605Forwards(cfg: ProxyConfig, p: Proxy, g: Addr, a: Addr, input: IfIndex, o: IfIndex)
    requires |p.queriers| == |cfg.downs|
  {
    || (input in cfg.downs && o in cfg.ups)
    || exists k :: 0 <= k < |cfg.downs| && cfg.downs[k] == o && o != input && p.queriers[k].Membership(g).Admits(a)
  }

  /** With accept-all filters and the output rule "all", the entry of every source known on an interface
      of the proxy is the decision of RFC 4605; unknown sources have none. */
  lemma KernelIsRfc4605(cfg: ProxyConfig, p: Proxy, g: Addr, a: Addr)
    requires |p.queriers| == |cfg.downs| && KernelAgrees(cfg, p) && AcceptsAll(cfg) && cfg.outRule.MatchAll?
    requires
      var known := InterfaceMap(p.routing.data, g);
      a in known ==> cfg.IsUpstream(known[a]) || cfg.IsDownstream(known[a])
    ensures
      var known := InterfaceMap(p.routing.data, g);
      && (forall o :: ((g, a) in p.routing.kernel && o in p.routing.kernel[(g, a)].outputs)
                        <==> (a in known && Rfc4605Forwards(cfg, p, g, a, known[a], o)))
      && ((g, a) in p.routing.kernel ==>
            a in known && p.routing.kernel[(g, a)].input == known[a] && p.routing.kernel[(g, a)].outputs != {})
  {
    assert Lookup(p.routing.kernel, (g, a)) == Wished(cfg, p, g, a);
    var known := InterfaceMap(p.routing.data, g);
    if a in known {
      var sts := States(cfg, p.queriers, g);
      forall o
        ensures o in Outputs(cfg, g, a, known[a], sts) <==> Rfc4605Forwards(cfg, p, g, a, known[a], o)
      {
        if k :| 0 <= k < |cfg.downs| && cfg.downs[k] == o && o != known[a] && p.queriers[k].Membership(g).Admits(a) {
          assert Interested(cfg, g, a, known[a], sts[k]);
        }
        if o in DownstreamOutputs(cfg, g, a, known[a], sts) {
          var k :| 0 <= k < |sts| && Interested(cfg, g, a, known[a], sts[k]) && o == sts[k].1;
          assert cfg.downs[k] == o;
        }
      }
    }
  }

  /** Some downstream querier admits source `a`. */
  ghost predicate SomeoneAdmits(p: Proxy, g: Addr, a: Addr) {
    exists k :: 0 <= k < |p.queriers| && p.queriers[k].Membership(g).Admits(a)
  }

  /** Section 4.1 of RFC 4605, rule "first" with accept-all filters: the first upstream has been sent
      the union of what all downstream queriers admit, the others INCLUDE({}). */
  lemma UpstreamReportsExact(cfg: ProxyConfig, p: Proxy, g: Addr)
    requires |p.queriers| == |cfg.downs| && RecordsAgree(cfg, p) && AcceptsAll(cfg)
    requires cfg.inRule.MatchFirst? && cfg.ups != []
    ensures forall a :: LastSent(p.routing.sent, cfg.ups[0], g).Admits(a) <==> SomeoneAdmits(p, g, a)
    ensures forall k | 1 <= k < |cfg.ups| :: LastSent(p.routing.sent, cfg.ups[k], g) == NOTHING
  {
    var sts := States(cfg, p.queriers, g);
    assert forall d, a :: cfg.DownOut(d, cfg.ups[0], g, a);
    assert forall a :: cfg.UpIn(cfg.ups[0], g, a);
    FirstMatchExact(cfg, g, cfg.ups, sts);
    assert LastSent(p.routing.sent, cfg.ups[0], g) == Due(cfg, p, g, 0);
    forall a
      ensures LastSent(p.routing.sent, cfg.ups[0], g).Admits(a) <==> SomeoneAdmits(p, g, a)
    {
      assert forall k | 0 <= k < |sts| :: sts[k].0 == p.queriers[k].Membership(g);
    }
  }

  /** Rule "mutex" while all downstream memberships are INCLUDE: a known source is subscribed on upstream `k` if and
      only if it arrives on an upstream and `k` is the last one that is the first for some downstream, so on at most
      one upstream. */
  lemma UpstreamReportsExclusive(cfg: ProxyConfig, p: Proxy, g: Addr, a: Addr)
    requires |p.queriers| == |cfg.downs| && RecordsAgree(cfg, p) && cfg.inRule.MatchMutex?
    requires forall k | 0 <= k < |p.queriers| :: p.queriers[k].Membership(g).mode.Include?
    requires a in InterfaceMap(p.routing.data, g)
    ensures forall k | 0 <= k < |cfg.ups| :: LastSent(p.routing.sent, cfg.ups[k], g).Admits(a) <==>
      cfg.IsUpstream(InterfaceMap(p.routing.data, g)[a]) && SubscribedAt(cfg, g, cfg.ups, States(cfg, p.queriers, g), k, a)
    ensures forall k, l | 0 <= k < l < |cfg.ups| ::
      !(LastSent(p.routing.sent, cfg.ups[k], g).Admits(a) && LastSent(p.routing.sent, cfg.ups[l], g).Admits(a))
  {
    hide MutexMatch, MergeAll, LastSent, States, InterfaceMap, MutexAggregation.Wanted, SubscribedAt;
    var sts, known := States(cfg, p.queriers, g), InterfaceMap(p.routing.data, g);
    var r := MutexMatch(cfg, g, cfg.ups, sts, known, []);
    MutexExclusive(cfg, g, sts, known, a);
    forall k | 0 <= k < |cfg.ups|
      ensures LastSent(p.routing.sent, cfg.ups[k], g) == MergeAll(r[k].1)
    {
      assert LastSent(p.routing.sent, cfg.ups[k], g) == Due(cfg, p, g, k);
    }
  }

  /** Data that arrives makes the proxy unsubscribe it where it arrives: under the rule "mutex" with accept-all filters
      and two upstreams, a host joins a source and the source arrives on the second upstream. */
  lemma ArrivalStopsDelivery(qcfg: Config, accepts: (IfType, Direction, IfIndex, IfIndex, Addr, Addr) -> bool) returns (es: seq<ProxyEvent>)
    requires qcfg.Ok() && forall ty, dir, i, j, g, a :: accepts(ty, dir, i, j, g, a)
    ensures es == [Downlink(0, Record(GroupRecord(IsIn, 7, {9}, qcfg.version))), SourceSeen(1, 7, 9, 0)]
    ensures
      var cfg := ProxyConfig([0, 1], [2], MatchMutex, MatchAll, accepts);
      && ProxyRun(cfg, qcfg, Started(cfg), es)
      && var p := ProxyAfter(cfg, qcfg, Started(cfg), es);
      && LastSent(p.routing.sent, 0, 7) == View(Include, {9}) && LastSent(p.routing.sent, 1, 7) == NOTHING
  {
    hide RecordsAgree, KernelAgrees, ProxyInv, Inv, Rerouted, Reported, Step, MutexMatch, MergeAll;
    var cfg := ProxyConfig([0, 1], [2], MatchMutex, MatchAll, accepts);
    var join := Record(GroupRecord(IsIn, 7, {9}, qcfg.version));
    es := [Downlink(0, join), SourceSeen(1, 7, 9, 0)];
    var st := LeaveLatency.JoinHolds(qcfg, 7, 9);
    var start := Started(cfg);
    var p1 := Next(cfg, qcfg, start, es[0]);
    var p2 := Next(cfg, qcfg, p1, es[1]);
    assert p1.queriers[0] == Step(qcfg, EMPTY, join);
    StartAgrees(cfg, qcfg);
    NextInv(cfg, qcfg, start, es[0]);
    NextAgrees(cfg, qcfg, start, es[0]);
    NextAgrees(cfg, qcfg, p1, es[1]);
    TwoSteps(cfg, qcfg, start, es[0], es[1]);
    var known := map[9 := 1];
    assert InterfaceMap(p2.routing.data, 7) == known by {
      assert InterfaceMap(p1.routing.data, 7) == map[];
    }
    assert States(cfg, p2.queriers, 7) == [(View(Include, {9}), 2)];
    ArrivalIsUnsubscribed(cfg, 7, 2, 9);
    assert forall k | 0 <= k < 2 :: Due(cfg, p2, 7, k) == MergeAll(MutexMatch(cfg, 7, cfg.ups, [(View(Include, {9}), 2)], known, [])[k].1);
    TwoUpstreams(cfg, p2, 7);
  }

  lemma TwoSteps(cfg: ProxyConfig, qcfg: Config, p: Proxy, e: ProxyEvent, f: ProxyEvent)
    requires |p.queriers| == |cfg.downs| && Possible(cfg, qcfg, p, e) && Possible(cfg, qcfg, Next(cfg, qcfg, p, e), f)
    ensures ProxyRun(cfg, qcfg, p, [e, f])
    ensures ProxyAfter(cfg, qcfg, p, [e, f]) == Next(cfg, qcfg, Next(cfg, qcfg, p, e), f)
  {
    hide Possible, Next;
    var p1 := Next(cfg, qcfg, p, e);
    assert [e, f][1..] == [f];
    assert ProxyRun(cfg, qcfg, p1, [f]) && ProxyAfter(cfg, qcfg, p1, [f]) == Next(cfg, qcfg, p1, f) by {
      assert [f][1..] == [];
    }
  }

  lemma TwoUpstreams(cfg: ProxyConfig, p: Proxy, g: Addr)
    requires |p.queriers| == |cfg.downs| && RecordsAgree(cfg, p) && |cfg.ups| == 2
    ensures LastSent(p.routing.sent, cfg.ups[0], g) == Due(cfg, p, g, 0) && LastSent(p.routing.sent, cfg.ups[1], g) == Due(cfg, p, g, 1)
  {
  }

  /** Records of the newest version and sources on the interfaces of the proxy: such an event breaks no agreement
      under accept-all filters. */
  predicate Plain(cfg: ProxyConfig, e: ProxyEvent) {
    match e
    case Downlink(_, qe) => qe.Record? ==> qe.r.version.IsNewest()
    case SourceSeen(i, _, _, _) => cfg.IsUpstream(i) || cfg.IsDownstream(i)
    case _ => true
  }

  lemma PlainIsSafe(cfg: ProxyConfig, qcfg: Config, p: Proxy, e: ProxyEvent)
    requires |p.queriers| == |cfg.downs| && qcfg.Ok() && AcceptsAll(cfg) && Possible(cfg, qcfg, p, e) && Plain(cfg, e)
    ensures !SilentDownlink(qcfg, p, e) && !RejectedMove(cfg, p, e)
  {
  }

  predicate PlainRun(cfg: ProxyConfig, qcfg: Config, p: Proxy, es: seq<ProxyEvent>)
    requires |p.queriers| == |cfg.downs|
    decreases |es|
  {
    || es == []
    || (Possible(cfg, qcfg, p, es[0]) && Plain(cfg, es[0]) && PlainRun(cfg, qcfg, Next(cfg, qcfg, p, es[0]), es[1..]))
  }

  /** Every known source arrives on an interface of the proxy. */
  ghost predicate KnownInside(cfg: ProxyConfig, p: Proxy) {
    forall g, a | a in InterfaceMap(p.routing.data, g) ::
      var i := InterfaceMap(p.routing.data, g)[a];
      cfg.IsUpstream(i) || cfg.IsDownstream(i)
  }

  lemma NextInside(cfg: ProxyConfig, qcfg: Config, p: Proxy, e: ProxyEvent)
    requires ProxyInv(cfg, qcfg, p) && KnownInside(cfg, p) && Possible(cfg, qcfg, p, e) && Plain(cfg, e)
    ensures KnownInside(cfg, Next(cfg, qcfg, p, e))
  {
    hide Inv, Enabled, Step, Rerouted, Reported, SetSource, DelSource;
    match e
    case Downlink(_, _) =>
    case SourceSeen(i, g, a, packets) =>
      SetSourceFacts(p.routing.data, i, g, a, SourceTimer(p.routing.nextId, i, g, a), packets);
    case SourceCheck(t, packets) =>
      if t.saddr in Sources(p.routing.data, t.gaddr) && Sources(p.routing.data, t.gaddr)[t.saddr].timer == t {
        DelSourceFacts(p.routing.data, t.gaddr, t.saddr);
        RefreshedFacts(p.routing.data, t.gaddr, t.saddr, SourceTimer(p.routing.nextId, t.ifIndex, t.gaddr, t.saddr), packets);
      }
    case Wait(_, _) =>
  }

  lemma {:induction false} PlainRunFacts(cfg: ProxyConfig, qcfg: Config, p: Proxy, es: seq<ProxyEvent>)
    requires qcfg.Ok() && AcceptsAll(cfg) && ProxyInv(cfg, qcfg, p) && KnownInside(cfg, p) && PlainRun(cfg, qcfg, p, es)
    ensures ProxyRun(cfg, qcfg, p, es) && KernelSafe(cfg, qcfg, p, es) && RecordsSafe(cfg, qcfg, p, es)
    ensures KnownInside(cfg, ProxyAfter(cfg, qcfg, p, es))
    decreases |es|
  {
    hide Next, Inv, DataOk, KnownInside, RejectedMove, SilentDownlink, Possible, AcceptsAll, JoinsWrongly;
    if es != [] {
      PlainIsSafe(cfg, qcfg, p, es[0]);
      NextInv(cfg, qcfg, p, es[0]);
      NextInside(cfg, qcfg, p, es[0]);
      PlainRunFacts(cfg, qcfg, Next(cfg, qcfg, p, es[0]), es[1..]);
    }
  }

  /** With accept-all filters and the rules "all" and "first", after every run of records of the newest
      version, timers and sources, forwarding and upstream reports are those of RFC 4605. */
  lemma Rfc4605InEveryRun(cfg: ProxyConfig, qcfg: Config, es: seq<ProxyEvent>, g: Addr, a: Addr) returns (p: Proxy)
    requires qcfg.Ok() && Distinct(cfg.ups) && cfg.ups != [] && AcceptsAll(cfg) && cfg.inRule.MatchFirst? && cfg.outRule.MatchAll?
    requires PlainRun(cfg, qcfg, Started(cfg), es)
    ensures ProxyRun(cfg, qcfg, Started(cfg), es) && p == ProxyAfter(cfg, qcfg, Started(cfg), es)
    ensures
      var known := InterfaceMap(p.routing.data, g);
      && (forall o :: ((g, a) in p.routing.kernel && o in p.routing.kernel[(g, a)].outputs)
                        <==> (a in known && Rfc4605Forwards(cfg, p, g, a, known[a], o)))
      && ((g, a) in p.routing.kernel ==> a in known && p.routing.kernel[(g, a)].input == known[a])
    ensures LastSent(p.routing.sent, cfg.ups[0], g).Admits(a) <==> SomeoneAdmits(p, g, a)
    ensures forall k | 1 <= k < |cfg.ups| :: !LastSent(p.routing.sent, cfg.ups[k], g).Admits(a)
  {
    hide KernelAgrees, RecordsAgree, Rfc4605Forwards, SomeoneAdmits, AcceptsAll, Distinct, ProxyRun, PlainRun, ProxyAfter, KernelSafe, RecordsSafe, Inv;
    StartAgrees(cfg, qcfg);
    PlainRunFacts(cfg, qcfg, Started(cfg), es);
    Agreement(cfg, qcfg, es);
    p := ProxyAfter(cfg, qcfg, Started(cfg), es);
    KernelIsRfc4605(cfg, p, g, a);
    UpstreamReportsExact(cfg, p, g);
  }
}
