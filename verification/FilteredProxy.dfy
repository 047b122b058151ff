/** Forwarding and upstream reports under any filters, told by the filters, the interface lists and the
    memberships of the downstream queriers alone. */
module FilteredProxy {
  import opened Defs
  import opened MembershipDb
  import opened QuerierInvariant
  import opened Aggregation
  import opened MutexAggregation
  import opened Memberships
  import opened RoutingSpec
  import opened ProxyRuns

  // ---------------------------------------------------------------- forwarding

  /** The proxy takes source `a` in from interface `i`. */
  predicate ComesIn(cfg: ProxyConfig, g: Addr, a: Addr, i: IfIndex) {
    || (i in cfg.ups && cfg.accepts(Upstream, In, i, i, g, a))
    || (i in cfg.downs && cfg.accepts(Downstream, In, i, i, g, a))
  }

  /** Source `a` of a downstream goes up to `o`: to every upstream that lets it out, or to the first one, or to none. */
  ghost predicate GoesUp(cfg: ProxyConfig, g: Addr, a: Addr, i: IfIndex, o: IfIndex) {
    && i in cfg.downs
    && match cfg.outRule
       case MatchAll => o in cfg.ups && cfg.accepts(Upstream, Out, o, i, g, a)
       case MatchFirst =>
         exists k :: 0 <= k < |cfg.ups| && cfg.ups[k] == o && cfg.accepts(Upstream, Out, o, i, g, a)
           && forall j | 0 <= j < k :: !cfg.accepts(Upstream, Out, cfg.ups[j], i, g, a)
       case MatchMutex => false
  }

  /** Source `a` goes to another downstream `o` that wants it and lets it out. */
  ghost predicate GoesDown(cfg: ProxyConfig, p: Proxy, g: Addr, a: Addr, i: IfIndex, o: IfIndex)
    requires |p.queriers| == |cfg.downs|
  {
    && o != i && cfg.accepts(Downstream, Out, o, i, g, a)
    && exists k :: 0 <= k < |cfg.downs| && cfg.downs[k] == o && p.queriers[k].Membership(g).Admits(a)
  }

  lemma OutputsAre(cfg: ProxyConfig, p: Proxy, g: Addr, a: Addr, i: IfIndex, o: IfIndex)
    requires |p.queriers| == |cfg.downs|
    ensures o in Outputs(cfg, g, a, i, States(cfg, p.queriers, g)) <==> GoesUp(cfg, g, a, i, o) || GoesDown(cfg, p, g, a, i, o)
  {
    var sts := States(cfg, p.queriers, g);
    if k :| 0 <= k < |cfg.downs| && cfg.downs[k] == o && p.queriers[k].Membership(g).Admits(a) && GoesDown(cfg, p, g, a, i, o) {
      assert Interested(cfg, g, a, i, sts[k]);
    }
    if o in DownstreamOutputs(cfg, g, a, i, sts) {
      var k :| 0 <= k < |sts| && Interested(cfg, g, a, i, sts[k]) && o == sts[k].1;
      assert cfg.downs[k] == o;
    }
  }

  /** Whenever the kernel agrees with the memberships: source `a` of group `g` is forwarded to `o` if and only if it is
      known, its interface takes it in, and `o` is an upstream it goes up to or a downstream it goes down to. */
  lemma ForwardsByFilters(cfg: ProxyConfig, p: Proxy, g: Addr, a: Addr)
    requires |p.queriers| == |cfg.downs| && KernelAgrees(cfg, p)
    ensures
      var known, kernel := InterfaceMap(p.routing.data, g), p.routing.kernel;
      && (forall o :: ((g, a) in kernel && o in kernel[(g, a)].outputs) <==>
            (a in known && ComesIn(cfg, g, a, known[a]) && (GoesUp(cfg, g, a, known[a], o) || GoesDown(cfg, p, g, a, known[a], o))))
      && ((g, a) in kernel ==> a in known && kernel[(g, a)].input == known[a] && kernel[(g, a)].outputs != {})
  {
    hide Outputs, GoesUp, GoesDown, States;
    var known := InterfaceMap(p.routing.data, g);
    assert Lookup(p.routing.kernel, (g, a)) == Wished(cfg, p, g, a);
    if a in known {
      forall o
        ensures o in Outputs(cfg, g, a, known[a], States(cfg, p.queriers, g)) <==>
          GoesUp(cfg, g, a, known[a], o) || GoesDown(cfg, p, g, a, known[a], o)
      {
        OutputsAre(cfg, p, g, a, known[a], o);
      }
    }
  }

  /** So it is after every run without a rejected move and a false join, whatever the filters and rules. */
  lemma ForwardsInEveryRun(cfg: ProxyConfig, qcfg: Config, es: seq<ProxyEvent>, g: Addr, a: Addr, o: IfIndex) returns (p: Proxy)
    requires qcfg.Ok() && Distinct(cfg.ups) && ProxyRun(cfg, qcfg, Started(cfg), es) && KernelSafe(cfg, qcfg, Started(cfg), es)
    ensures p == ProxyAfter(cfg, qcfg, Started(cfg), es)
    ensures
      var known, kernel := InterfaceMap(p.routing.data, g), p.routing.kernel;
      ((g, a) in kernel && o in kernel[(g, a)].outputs) <==>
        (a in known && ComesIn(cfg, g, a, known[a]) && (GoesUp(cfg, g, a, known[a], o) || GoesDown(cfg, p, g, a, known[a], o)))
  {
    hide KernelAgrees, RecordsAgree, Inv, DataOk, KernelSafe, RecordsSafe, ProxyRun, ProxyAfter, GoesUp, GoesDown, ComesIn;
    p := ProxyAfter(cfg, qcfg, Started(cfg), es);
    Agreement(cfg, qcfg, es);
    ForwardsByFilters(cfg, p, g, a);
  }

  // ---------------------------------------------------------------- reports under the rule "first"

  /** Source `a` of downstream `d` is left to the upstreams after the first `k`: each of these may have it and refuses it. */
  predicate LeftBy(cfg: ProxyConfig, g: Addr, k: nat, d: IfIndex, a: Addr)
    requires k <= |cfg.ups|
  {
    forall j | 0 <= j < k :: cfg.accepts(Downstream, Out, d, cfg.ups[j], g, a) && !cfg.accepts(Upstream, In, cfg.ups[j], cfg.ups[j], g, a)
  }

  /** Both filters let source `a` of downstream `d` through at upstream `u`. */
  predicate PassesAt(cfg: ProxyConfig, g: Addr, u: IfIndex, d: IfIndex, a: Addr) {
    cfg.accepts(Downstream, Out, d, u, g, a) && cfg.accepts(Upstream, In, u, u, g, a)
  }

  /** Downstream membership `v` on `d` makes the proxy ask upstream `k` for source `a`. An EXCLUDE membership counts on a
      later upstream only if one of its sources gets there, and excludes only the sources that do. */
  ghost predicate AsksFor(cfg: ProxyConfig, g: Addr, k: nat, d: IfIndex, v: View, a: Addr)
    requires k < |cfg.ups|
  {
    var there := a in v.sources && LeftBy(cfg, g, k, d, a) && PassesAt(cfg, g, cfg.ups[k], d, a);
    if v.mode.Include? then there else !there && (k == 0 || exists b :: b in v.sources && LeftBy(cfg, g, k, d, b))
  }

  lemma LeftByIs(cfg: ProxyConfig, g: Addr, k: nat, d: IfIndex, a: Addr)
    requires k <= |cfg.ups|
    ensures GetsPast(cfg, g, cfg.ups[..k], d, a) <==> LeftBy(cfg, g, k, d, a)
  {
    assert forall j | 0 <= j < k :: cfg.ups[..k][j] == cfg.ups[j];
  }

  lemma AsksForIs(cfg: ProxyConfig, g: Addr, k: nat, st: State, a: Addr)
    requires k < |cfg.ups|
    ensures Reaches(cfg, g, cfg.ups, k, st) && ReportOf(cfg, g, cfg.ups, k, st).0.Admits(a) <==> AsksFor(cfg, g, k, st.1, st.0, a)
  {
    hide GetsPast, LeftBy;
    forall b
      ensures GetsPast(cfg, g, cfg.ups[..k], st.1, b) <==> LeftBy(cfg, g, k, st.1, b)
    {
      LeftByIs(cfg, g, k, st.1, b);
    }
  }

  /** Rule "first" under any filters: whenever the records agree with the memberships, upstream `k` has been asked for
      source `a` if and only if some downstream membership makes the proxy ask for it there. */
  lemma ReportsByFilters(cfg: ProxyConfig, p: Proxy, g: Addr, k: nat, a: Addr)
    requires |p.queriers| == |cfg.downs| && RecordsAgree(cfg, p) && cfg.inRule.MatchFirst? && k < |cfg.ups|
    ensures LastSent(p.routing.sent, cfg.ups[k], g).Admits(a) <==>
      exists i :: 0 <= i < |cfg.downs| && AsksFor(cfg, g, k, cfg.downs[i], p.queriers[i].Membership(g), a)
  {
    hide MergeAll, FirstMatch, Reaches, ReportOf, AsksFor, States, LastSent;
    var sts := States(cfg, p.queriers, g);
    var r := FirstMatch(cfg, g, cfg.ups, sts)[k];
    assert LastSent(p.routing.sent, cfg.ups[k], g) == Due(cfg, p, g, k);
    FirstReportsAre(cfg, g, sts, k);
    MergeAllAdmits(Views(r), a);
    if j :| 0 <= j < |r| && Views(r)[j].Admits(a) {
      FirstMatchIs(cfg, g, cfg.ups, sts, k, r[j]);
      var i :| 0 <= i < |sts| && Reaches(cfg, g, cfg.ups, k, sts[i]) && r[j] == ReportOf(cfg, g, cfg.ups, k, sts[i]);
      AsksForIs(cfg, g, k, sts[i], a);
    }
    if i :| 0 <= i < |cfg.downs| && AsksFor(cfg, g, k, cfg.downs[i], p.queriers[i].Membership(g), a) {
      AsksForIs(cfg, g, k, sts[i], a);
      FirstMatchIs(cfg, g, cfg.ups, sts, k, ReportOf(cfg, g, cfg.ups, k, sts[i]));
      var j :| 0 <= j < |r| && r[j] == ReportOf(cfg, g, cfg.ups, k, sts[i]);
      assert Views(r)[j].Admits(a);
    }
  }

  lemma FirstReportsAre(cfg: ProxyConfig, g: Addr, sts: seq<State>, k: nat)
    requires k < |cfg.ups|
    ensures FirstReports(cfg, g, cfg.ups, sts)[k].1 == Views(FirstMatch(cfg, g, cfg.ups, sts)[k])
  {
  }

  // ---------------------------------------------------------------- reports under the rule "mutex"

  /** Upstream `k` is the first one where source `a`, listed by downstream membership `v` on `d`, passes the filters. */
  predicate PassesFirst(cfg: ProxyConfig, g: Addr, k: nat, d: IfIndex, v: View, a: Addr)
    requires k < |cfg.ups|
  {
    a in v.sources && PassesAt(cfg, g, cfg.ups[k], d, a) && forall j | 0 <= j < k :: !PassesAt(cfg, g, cfg.ups[j], d, a)
  }

  ghost predicate FirstOfSome(cfg: ProxyConfig, p: Proxy, g: Addr, k: nat, a: Addr)
    requires |p.queriers| == |cfg.downs| && k < |cfg.ups|
  {
    exists i :: 0 <= i < |cfg.downs| && PassesFirst(cfg, g, k, cfg.downs[i], p.queriers[i].Membership(g), a)
  }

  lemma FirstOfSomeIs(cfg: ProxyConfig, p: Proxy, g: Addr, k: nat, a: Addr)
    requires |p.queriers| == |cfg.downs| && k < |cfg.ups|
    ensures FirstForSome(cfg, g, cfg.ups, States(cfg, p.queriers, g), k, a) <==> FirstOfSome(cfg, p, g, k, a)
  {
    var sts := States(cfg, p.queriers, g);
    forall i | 0 <= i < |cfg.downs|
      ensures FirstPassing(cfg, g, cfg.ups, k, sts[i], a) <==> PassesFirst(cfg, g, k, cfg.downs[i], p.queriers[i].Membership(g), a)
    {
    }
  }

  /** Rule "mutex" under any filters while all downstream memberships are INCLUDE: upstream `k` has been asked for an
      unknown source if and only if some downstream lists it and both filters let it through there; for a known source
      if and only if it arrives on an upstream and `k` is the last one that is the first for some downstream. */
  lemma MutexByFilters(cfg: ProxyConfig, p: Proxy, g: Addr, k: nat, a: Addr)
    requires |p.queriers| == |cfg.downs| && RecordsAgree(cfg, p) && cfg.inRule.MatchMutex? && k < |cfg.ups|
    requires forall i | 0 <= i < |p.queriers| :: p.queriers[i].Membership(g).mode.Include?
    ensures
      var known := InterfaceMap(p.routing.data, g);
      LastSent(p.routing.sent, cfg.ups[k], g).Admits(a) <==>
        if a in known then
          && known[a] in cfg.ups && FirstOfSome(cfg, p, g, k, a)
          && forall l | k < l < |cfg.ups| :: !FirstOfSome(cfg, p, g, l, a)
        else
          exists i :: 0 <= i < |cfg.downs| && a in p.queriers[i].Membership(g).sources && PassesAt(cfg, g, cfg.ups[k], cfg.downs[i], a)
  {
    hide MutexMatch, MergeAll, LastSent, States, InterfaceMap, FirstForSome, FirstOfSome;
    var sts, known := States(cfg, p.queriers, g), InterfaceMap(p.routing.data, g);
    MutexExclusive(cfg, g, sts, known, a);
    assert LastSent(p.routing.sent, cfg.ups[k], g) == Due(cfg, p, g, k);
    forall l | 0 <= l < |cfg.ups|
      ensures FirstForSome(cfg, g, cfg.ups, sts, l, a) <==> FirstOfSome(cfg, p, g, l, a)
    {
      FirstOfSomeIs(cfg, p, g, l, a);
    }
    assert forall i | 0 <= i < |sts| :: a in KeptAt(cfg, g, cfg.ups[k], sts[i]) <==>
      a in p.queriers[i].Membership(g).sources && PassesAt(cfg, g, cfg.ups[k], cfg.downs[i], a);
  }
}
