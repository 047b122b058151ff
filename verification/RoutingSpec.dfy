/** The routing layer as functions: the known sources, the forwarding entries of the kernel and the
    membership records sent upstream. */
module RoutingSpec {
  import opened Defs
  import opened Aggregation
  import opened MutexAggregation
  import opened Memberships

  // ---------------------------------------------------------------- known sources

  /** The message that checks whether a source still sends; `id` is its identity. */
  datatype SourceTimer = SourceTimer(id: nat, ifIndex: IfIndex, gaddr: Addr, saddr: Addr)

  /** A known source: its timer and the packet count seen last. */
  datatype Known = Known(timer: SourceTimer, packets: nat)

  /** The counter of a source that was never looked at: -1 read as an unsigned 64-bit number. */
  const NEVER_COUNTED: nat := 0xFFFF_FFFF_FFFF_FFFF

  datatype GroupSources = GroupSources(sources: map<Addr, Known>, ifMap: IfMap)

  type RoutingData = map<Addr, GroupSources>

  function Sources(data: RoutingData, g: Addr): map<Addr, Known> {
    if g in data then data[g].sources else map[]
  }

  function InterfaceMap(data: RoutingData, g: Addr): IfMap {
    if g in data then data[g].ifMap else map[]
  }

  function SetSource(data: RoutingData, i: IfIndex, g: Addr, a: Addr, t: SourceTimer, packets: nat): RoutingData {
    var known := Sources(data, g);
    data[g := GroupSources(known[a := Known(t, if a in known then packets else NEVER_COUNTED)], InterfaceMap(data, g)[a := i])]
  }

  function DelSource(data: RoutingData, g: Addr, a: Addr): RoutingData {
    if g !in data then data
    else if data[g].sources.Keys - {a} == {} then data - {g}
    else data[g := GroupSources(data[g].sources - {a}, data[g].ifMap - {a})]
  }

  function Refreshed(data: RoutingData, g: Addr, a: Addr, k: Known): RoutingData
    requires g in data
  {
    data[g := data[g].(sources := data[g].sources[a := k])]
  }

  /** Each group's source list and interface map have the same keys and are not empty; the timer of a
      source carries its addresses and its input interface. */
  ghost predicate DataOk(data: RoutingData) {
    forall g | g in data ::
      && data[g].sources.Keys == data[g].ifMap.Keys != {}
      && forall a | a in data[g].sources ::
           var t := data[g].sources[a].timer;
           t.gaddr == g && t.saddr == a && t.ifIndex == data[g].ifMap[a]
  }

  lemma SetSourceFacts(data: RoutingData, i: IfIndex, g: Addr, a: Addr, t: SourceTimer, packets: nat)
    requires DataOk(data) && t.ifIndex == i && t.gaddr == g && t.saddr == a
    ensures
      var data' := SetSource(data, i, g, a, t, packets);
      && DataOk(data')
      && InterfaceMap(data', g) == InterfaceMap(data, g)[a := i]
      && forall h | h != g :: InterfaceMap(data', h) == InterfaceMap(data, h)
  {
  }

  lemma DelSourceFacts(data: RoutingData, g: Addr, a: Addr)
    requires DataOk(data)
    ensures
      var data' := DelSource(data, g, a);
      && DataOk(data')
      && InterfaceMap(data', g) == InterfaceMap(data, g) - {a}
      && forall h | h != g :: InterfaceMap(data', h) == InterfaceMap(data, h)
  {
    if g in data {
      var rest := data[g].ifMap - {a};
      assert rest.Keys == data[g].ifMap.Keys - {a} == (data[g].sources - {a}).Keys;
      assert rest.Keys == {} ==> rest == map[];
    } else {
      assert InterfaceMap(data, g) - {a} == InterfaceMap(data, g);
    }
  }

  lemma RefreshedFacts(data: RoutingData, g: Addr, a: Addr, t: SourceTimer, packets: nat)
    requires DataOk(data) && g in data && a in data[g].sources
    requires t.gaddr == g && t.saddr == a && t.ifIndex == data[g].ifMap[a]
    ensures
      var data' := Refreshed(data, g, a, Known(t, packets));
      && DataOk(data')
      && forall h :: InterfaceMap(data', h) == InterfaceMap(data, h)
  {
    assert data[g].sources[a := Known(t, packets)].Keys == data[g].sources.Keys;
  }

  // ---------------------------------------------------------------- forwarding decision

  datatype Route = Route(input: IfIndex, outputs: set<IfIndex>)

  /** Forwarding entries by group and source. */
  type Kernel = map<(Addr, Addr), Route>

  function Lookup(kernel: Kernel, key: (Addr, Addr)): Option<Route> {
    if key in kernel then Some(kernel[key]) else None
  }

  /** The first upstream whose output filter accepts the source. */
  function FirstAccepting(cfg: ProxyConfig, ups: seq<IfIndex>, g: Addr, a: Addr, input: IfIndex): (r: set<IfIndex>)
    ensures forall u :: u in r <==>
      exists k :: 0 <= k < |ups| && ups[k] == u && cfg.accepts(Upstream, Out, u, input, g, a)
        && forall j | 0 <= j < k :: !cfg.accepts(Upstream, Out, ups[j], input, g, a)
  {
    if ups == [] then {}
    else if cfg.accepts(Upstream, Out, ups[0], input, g, a) then {ups[0]}
    else
      var r := FirstAccepting(cfg, ups[1..], g, a, input);
      assert forall k | 1 <= k < |ups| :: ups[k] == ups[1..][k - 1];
      assert forall k | 0 <= k < |ups| - 1 :: ups[k + 1] == ups[1..][k];
      r
  }

  /** Traffic from a downstream goes up as the output rule says; traffic from elsewhere does not go up. */
  function UpstreamOutputs(cfg: ProxyConfig, g: Addr, a: Addr, input: IfIndex): set<IfIndex> {
    if !cfg.IsDownstream(input) then {}
    else
      match cfg.outRule
      case MatchAll => set u | u in cfg.ups && cfg.accepts(Upstream, Out, u, input, g, a)
      case MatchFirst => FirstAccepting(cfg, cfg.ups, g, a, input)
      case MatchMutex => {}
  }

  /** A downstream state makes its interface an output. */
  predicate Interested(cfg: ProxyConfig, g: Addr, a: Addr, input: IfIndex, st: State) {
    st.0.Admits(a) && st.1 != input && cfg.accepts(Downstream, Out, st.1, input, g, a)
  }

  function DownstreamOutputs(cfg: ProxyConfig, g: Addr, a: Addr, input: IfIndex, sts: seq<State>): set<IfIndex> {
    set k | 0 <= k < |sts| && Interested(cfg, g, a, input, sts[k]) :: sts[k].1
  }

  function Outputs(cfg: ProxyConfig, g: Addr, a: Addr, input: IfIndex, sts: seq<State>): set<IfIndex> {
    UpstreamOutputs(cfg, g, a, input) + DownstreamOutputs(cfg, g, a, input, sts)
  }

  /** The input filter of the interface the source arrives on accepts it. */
  predicate InputAccepted(cfg: ProxyConfig, g: Addr, a: Addr, input: IfIndex) {
    || (cfg.IsUpstream(input) && cfg.accepts(Upstream, In, input, input, g, a))
    || (cfg.IsDownstream(input) && cfg.accepts(Downstream, In, input, input, g, a))
  }

  /** The forwarding entry that a source should have. */
  function Decision(cfg: ProxyConfig, g: Addr, a: Addr, input: IfIndex, sts: seq<State>): Option<Route> {
    var out := Outputs(cfg, g, a, input, sts);
    if out == {} || !InputAccepted(cfg, g, a, input) then None else Some(Route(input, out))
  }

  /** What becomes of an entry: a rejected input leaves it alone. */
  function NewEntry(cfg: ProxyConfig, g: Addr, a: Addr, input: IfIndex, out: set<IfIndex>, entry: Option<Route>): Option<Route> {
    if out == {} then None
    else if InputAccepted(cfg, g, a, input) then Some(Route(input, out))
    else entry
  }

  /** The entry of `key` after the routes of the sources `who` of group `g` are set. */
  function EntryAfter(cfg: ProxyConfig, kernel: Kernel, g: Addr, ifMap: IfMap, who: set<Addr>, sts: seq<State>, key: (Addr, Addr)): Option<Route> {
    if key.0 == g && key.1 in who && key.1 in ifMap then
      NewEntry(cfg, g, key.1, ifMap[key.1], Outputs(cfg, g, key.1, ifMap[key.1], sts), Lookup(kernel, key))
    else Lookup(kernel, key)
  }

  function Rerouted(cfg: ProxyConfig, kernel: Kernel, g: Addr, ifMap: IfMap, who: set<Addr>, sts: seq<State>): (k: Kernel)
    ensures forall key :: Lookup(k, key) == EntryAfter(cfg, kernel, g, ifMap, who, sts, key)
  {
    var keys := kernel.Keys + set a | a in who :: (g, a);
    map key | key in keys && EntryAfter(cfg, kernel, g, ifMap, who, sts, key).Some? ::
      EntryAfter(cfg, kernel, g, ifMap, who, sts, key).value
  }

  lemma SameKernel(k: Kernel, l: Kernel)
    requires forall key :: Lookup(k, key) == Lookup(l, key)
    ensures k == l
  {
    forall key
      ensures key in k <==> key in l
      ensures key in k ==> k[key] == l[key]
    {
      assert Lookup(k, key) == Lookup(l, key);
    }
  }

  // ---------------------------------------------------------------- records sent upstream

  /** The last record sent for an upstream and a group. */
  type SentLog = map<(IfIndex, Addr), View>

  function LastSent(sent: SentLog, u: IfIndex, g: Addr): View {
    if (u, g) in sent then sent[(u, g)] else NOTHING
  }

  function SentAfter(sent: SentLog, g: Addr, reports: Reports): SentLog {
    if reports == [] then sent
    else
      var last := reports[|reports| - 1];
      SentAfter(sent, g, reports[..|reports| - 1])[(last.0, g) := MergeAll(last.1)]
  }

  predicate Distinct(s: seq<IfIndex>) {
    forall i, j | 0 <= i < j < |s| :: s[i] != s[j]
  }

  lemma {:induction false} SentFacts(sent: SentLog, g: Addr, ups: seq<IfIndex>, reports: Reports)
    requires |ups| == |reports| && Distinct(ups) && forall k | 0 <= k < |ups| :: reports[k].0 == ups[k]
    ensures forall k | 0 <= k < |ups| :: LastSent(SentAfter(sent, g, reports), ups[k], g) == MergeAll(reports[k].1)
    ensures forall u, h | h != g :: LastSent(SentAfter(sent, g, reports), u, h) == LastSent(sent, u, h)
  {
    if reports != [] {
      SentFacts(sent, g, ups[..|ups| - 1], reports[..|reports| - 1]);
    }
  }

  // ---------------------------------------------------------------- the three events

  datatype RState = RState(data: RoutingData, kernel: Kernel, sent: SentLog, nextId: nat)

  const NO_ROUTES := RState(map[], map[], map[], 0)

  function Reported(cfg: ProxyConfig, sent: SentLog, g: Addr, sts: seq<State>, known: IfMap): SentLog {
    SentAfter(sent, g, Aggregated(cfg, g, sts, known))
  }

  function NewSource(cfg: ProxyConfig, r: RState, i: IfIndex, g: Addr, a: Addr, packets: nat, sts: seq<State>): RState {
    var data := SetSource(r.data, i, g, a, SourceTimer(r.nextId, i, g, a), packets);
    var known := InterfaceMap(data, g);
    RState(
      data,
      Rerouted(cfg, r.kernel, g, known, {a}, sts),
      if cfg.inRule.MatchMutex? then Reported(cfg, r.sent, g, sts, known) else r.sent,
      r.nextId + 1)
  }

  function QuerierStateChange(cfg: ProxyConfig, r: RState, g: Addr, sts: seq<State>): RState {
    var known := InterfaceMap(r.data, g);
    r.(kernel := Rerouted(cfg, r.kernel, g, known, Sources(r.data, g).Keys, sts),
       sent := if cfg.inRule.MatchAll? then r.sent else Reported(cfg, r.sent, g, sts, known))
  }

  function MaintainRoutingTable(cfg: ProxyConfig, r: RState, t: SourceTimer, packets: nat, sts: seq<State>): RState {
    var g, a := t.gaddr, t.saddr;
    var known := Sources(r.data, g);
    if a !in known || known[a].timer != t then r
    else if known[a].packets != packets then
      r.(data := Refreshed(r.data, g, a, Known(SourceTimer(r.nextId, t.ifIndex, g, a), packets)), nextId := r.nextId + 1)
    else
      var data := DelSource(r.data, g, a);
      r.(data := data,
         kernel := r.kernel - {(g, a)},
         sent := if cfg.inRule.MatchMutex? then Reported(cfg, r.sent, g, sts, InterfaceMap(data, g)) else r.sent)
  }
}
