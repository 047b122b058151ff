/** What each step of a querier does, as functions on its state. Reports follow the tables
    of `ReportTables`; the actions are carried out in the order: source queries, group query,
    source timers, filter timer, notification. */
module QuerierSpec {
  import opened Defs
  import opened MembershipDb
  import opened ReportTables

  function NewTimer(s: QState, kind: TimerKind, g: Addr, delay: nat): Timer {
    Timer(s.nextId, kind, g, s.now + delay)
  }

  /** Registers a timer made by `NewTimer`. */
  function Arm(s: QState, t: Timer): QState {
    s.(nextId := s.nextId + 1, pending := s.pending + {t})
  }

  function SetGroup(s: QState, g: Addr, gi: GroupInfo): QState {
    s.(groups := s.groups[g := gi])
  }

  function DropGroup(s: QState, g: Addr): QState {
    s.(groups := s.groups - {g})
  }

  function Notify(s: QState, g: Addr): QState {
    s.(notices := s.notices + [Notice(g, s.Membership(g))])
  }

  /** The list over `keys`; known sources keep their timer and counter, others are fresh. */
  function Listed(old_: SrcMap, keys: set<Addr>): SrcMap {
    map a | a in keys :: if a in old_ then old_[a] else FRESH
  }

  function Refreshed(list: SrcMap, who: set<Addr>, t: Timer): SrcMap {
    map a | a in list :: if a in who then Src(Some(t), -1) else list[a]
  }

  /** The sources of `ask` that are not in a retransmission already. */
  function Startable(list: SrcMap, ask: set<Addr>): set<Addr> {
    set a | a in ask && a in list && list[a].count < 1
  }

  function Lowered(list: SrcMap, who: set<Addr>, t: Timer, llqc: nat): SrcMap {
    map a | a in list :: if a in who then Src(Some(t), llqc) else list[a]
  }

  /** The sources that still have queries to be sent. */
  function Asking(list: SrcMap): set<Addr> {
    set a | a in list && list[a].count > 0
  }

  function CountedDown(list: SrcMap): SrcMap {
    map a | a in list :: if list[a].count > 0 then Src(list[a].timer, list[a].count - 1) else list[a]
  }

  /** The asking sources whose timer lasts up to `limit` or longer, or those whose timer does not. */
  function AskingBeyond(list: SrcMap, limit: int, beyond: bool): set<Addr> {
    set a | a in list && list[a].count > 0 && list[a].timer.Some? && (list[a].timer.value.deadline >= limit) == beyond
  }

  function QueriesFor(g: Addr, sources: set<Addr>, suppress: bool): seq<Query> {
    if sources == {} then [] else [SourceQuery(g, sources, suppress)]
  }

  function SourceQueries(g: Addr, list: SrcMap, limit: int): seq<Query> {
    QueriesFor(g, AskingBeyond(list, limit, true), true) + QueriesFor(g, AskingBeyond(list, limit, false), false)
  }

  /** `r` differs from `s` at most in timers, counters and queries of group `g`. */
  ghost predicate SameMembership(s: QState, r: QState, g: Addr)
    requires g in s.groups && g in r.groups
  {
    var a, b := s.groups[g], r.groups[g];
    && r.now == s.now && r.notices == s.notices
    && (forall h | h != g && h in s.groups :: h in r.groups && r.groups[h] == s.groups[h])
    && b.mode == a.mode && b.requested.Keys == a.requested.Keys && b.excluded == a.excluded
    && b.compat == a.compat && b.olderHost == a.olderHost
  }

  function RefreshSources(cfg: Config, s: QState, g: Addr, who: set<Addr>): (r: QState)
    requires g in s.groups
    ensures r.groups.Keys == s.groups.Keys
    ensures SameMembership(s, r, g)
  {
    if who == {} then s
    else
      var t := NewTimer(s, SourceT, g, cfg.mali);
      var gi := s.groups[g];
      Arm(SetGroup(s, g, gi.(requested := Refreshed(gi.requested, who, t))), t)
  }

  function RefreshFilter(cfg: Config, s: QState, g: Addr): (r: QState)
    requires g in s.groups
    ensures r.groups.Keys == s.groups.Keys
    ensures SameMembership(s, r, g)
  {
    var t := NewTimer(s, FilterT, g, cfg.mali);
    Arm(SetGroup(s, g, s.groups[g].(filterTimer := Some(t))), t)
  }

  /** The sender asks every asking source once; another round follows if counters remain. */
  function QueryRound(cfg: Config, s: QState, g: Addr): (r: QState)
    requires g in s.groups
    ensures r.groups.Keys == s.groups.Keys
    ensures SameMembership(s, r, g)
  {
    var gi := s.groups[g];
    var list := CountedDown(gi.requested);
    var s1 := SetGroup(s, g, gi.(requested := list)).(log := s.log + SourceQueries(g, gi.requested, s.now + s.lag + cfg.Llqt()));
    if Asking(list) == {} then s1
    else
      var t := NewTimer(s, RetSourceT, g, cfg.llqi);
      Arm(SetGroup(s1, g, s1.groups[g].(sourceRetrans := Some(t))), t)
  }

  /** Lowers the timers of the startable sources of `ask` to LLQT and starts their queries. */
  function StartQueries(cfg: Config, s: QState, g: Addr, ask: set<Addr>): (r: QState)
    requires g in s.groups
    ensures r.groups.Keys == s.groups.Keys
    ensures SameMembership(s, r, g)
  {
    var gi := s.groups[g];
    var who := Startable(gi.requested, ask);
    if who == {} then s
    else
      var t := NewTimer(s, SourceT, g, cfg.Llqt());
      Arm(SetGroup(s, g, gi.(requested := Lowered(gi.requested, who, t, cfg.llqc))), t)
  }

  /** Send Q(MA, ask). */
  function SendSourceQuery(cfg: Config, s: QState, g: Addr, ask: set<Addr>, retransmission: bool): (r: QState)
    requires g in s.groups
    ensures r.groups.Keys == s.groups.Keys
    ensures SameMembership(s, r, g)
  {
    var s1 := StartQueries(cfg, s, g, ask);
    if Startable(s.groups[g].requested, ask) != {} || retransmission then QueryRound(cfg, s1, g) else s1
  }

  /** A group query burst begins only if no retransmission timer is held. */
  function StartBurst(cfg: Config, s: QState, g: Addr): (r: QState)
    requires g in s.groups
    ensures r.groups.Keys == s.groups.Keys
    ensures SameMembership(s, r, g)
  {
    var gi := s.groups[g];
    if gi.groupRetrans.Some? then s
    else
      var t := NewTimer(s, FilterT, g, cfg.Llqt());
      Arm(SetGroup(s, g, gi.(groupCount := cfg.llqc, filterTimer := Some(t))), t)
  }

  function BurstRound(cfg: Config, s: QState, g: Addr): (r: QState)
    requires g in s.groups
    ensures r.groups.Keys == s.groups.Keys
    ensures SameMembership(s, r, g)
  {
    var gi := s.groups[g];
    if gi.groupCount > 0 then
      var query := GroupQuery(g, gi.filterTimer.Some? && gi.filterTimer.value.deadline >= s.now + s.lag + cfg.Llqt());
      var s1 := s.(log := s.log + [query]);
      if gi.groupCount > 1 then
        var t := NewTimer(s, RetGroupT, g, cfg.llqi);
        Arm(SetGroup(s1, g, gi.(groupCount := gi.groupCount - 1, groupRetrans := Some(t))), t)
      else
        SetGroup(s1, g, gi.(groupCount := gi.groupCount - 1))
    else
      SetGroup(s, g, gi.(groupRetrans := None, groupCount := -1))
  }

  /** Send Q(MA). */
  function SendGroupQuery(cfg: Config, s: QState, g: Addr): (r: QState)
    requires g in s.groups
    ensures r.groups.Keys == s.groups.Keys
    ensures SameMembership(s, r, g)
  {
    BurstRound(cfg, StartBurst(cfg, s, g), g)
  }

  function SetLists(s: QState, g: Addr, row: Row): (r: QState)
    requires g in s.groups
    ensures r.groups.Keys == s.groups.Keys
  {
    var gi := s.groups[g];
    SetGroup(s, g, gi.(mode := row.mode, requested := Listed(gi.requested, row.x), excluded := Listed(gi.excluded, row.y)))
  }

  function Queried(cfg: Config, s: QState, g: Addr, row: Row): (r: QState)
    requires g in s.groups
    ensures r.groups.Keys == s.groups.Keys
    ensures SameMembership(s, r, g)
  {
    var s1 := SendSourceQuery(cfg, s, g, row.ask, false);
    if row.askGroup then SendGroupQuery(cfg, s1, g) else s1
  }

  function Timed(cfg: Config, s: QState, g: Addr, row: Row): (r: QState)
    requires g in s.groups
    ensures r.groups.Keys == s.groups.Keys
    ensures SameMembership(s, r, g)
  {
    var s1 := RefreshSources(cfg, s, g, row.refresh);
    if row.refreshFilter then RefreshFilter(cfg, s1, g) else s1
  }

  function ApplyRow(cfg: Config, s: QState, g: Addr, row: Row): (r: QState)
    requires g in s.groups
    ensures r.groups.Keys == s.groups.Keys
    ensures r.groups[g].mode == row.mode && r.groups[g].requested.Keys == row.x && r.groups[g].excluded.Keys == row.y
    ensures r.groups[g].compat == s.groups[g].compat && r.groups[g].olderHost == s.groups[g].olderHost
    ensures r.now == s.now && forall h | h != g && h in s.groups :: r.groups[h] == s.groups[h]
    ensures r.notices == s.notices + if row.notify then [Notice(g, r.Membership(g))] else []
  {
    var s1 := Timed(cfg, Queried(cfg, SetLists(s, g, row), g, row), g, row);
    if row.notify then Notify(s1, g) else s1
  }

  predicate FromOlderHost(cfg: Config, r: GroupRecord) {
    !r.version.IsNewest() && r.version.OlderOrEqual(cfg.version)
  }

  /** An unknown group gets an empty record first. */
  function Opened(cfg: Config, s: QState, g: Addr): (r: QState)
    ensures r.groups.Keys == s.groups.Keys + {g}
  {
    if g in s.groups then s else SetGroup(s, g, NewGroup(cfg.version))
  }

  /** A report of an older version switches the group to that version for a while. */
  function Downgraded(cfg: Config, s: QState, r: GroupRecord): (s': QState)
    requires r.gaddr in s.groups
    ensures s'.groups.Keys == s.groups.Keys
  {
    if FromOlderHost(cfg, r) then
      var t := NewTimer(s, OlderHostT, r.gaddr, cfg.ohpi);
      Arm(SetGroup(s, r.gaddr, s.groups[r.gaddr].(compat := r.version, olderHost := Some(t))), t)
    else s
  }

  /** The row that decides how record `r` is treated in state `s`. */
  function RowFor(s: QState, r: GroupRecord): Row
    requires r.gaddr in s.groups
  {
    var gi := s.groups[r.gaddr];
    var list := if gi.InCompatibilityMode() && r.rtype.ToEx? then {} else r.sources;
    TableRow(gi.mode, r.rtype, gi.requested.Keys, gi.excluded.Keys, list)
  }

  /** A record that is in INCLUDE mode and empty is not kept. */
  function Closed(s: QState, g: Addr, wasInclude: bool): QState
    requires g in s.groups
  {
    if wasInclude && s.groups[g].mode.Include? && s.groups[g].requested == map[] then DropGroup(s, g) else s
  }

  function ReceiveRecord(cfg: Config, s: QState, r: GroupRecord): QState {
    var s1 := Downgraded(cfg, Opened(cfg, s, r.gaddr), r);
    if s1.groups[r.gaddr].InCompatibilityMode() && r.rtype.Block? then s1
    else Closed(ApplyRow(cfg, s1, r.gaddr, RowFor(s1, r)), r.gaddr, s1.groups[r.gaddr].mode.Include?)
  }

  function FilterTimerFired(s: QState, g: Addr, t: Timer): QState
    requires g in s.groups
  {
    var gi := s.groups[g];
    if gi.filterTimer != Some(t) || gi.mode.Include? then s
    else if gi.requested == map[] then Notify(DropGroup(s, g), g)
    else Notify(SetGroup(s, g, gi.(mode := Include, filterTimer := None, excluded := map[])), g)
  }

  /** The sources of `list` that wait for timer `t`. */
  function Expired(list: SrcMap, t: Timer): set<Addr> {
    set a | a in list && list[a].timer == Some(t)
  }

  function Stopped(list: SrcMap, who: set<Addr>): SrcMap {
    map a | a in who && a in list :: Src(None, list[a].count)
  }

  function SourceTimerFired(s: QState, g: Addr, t: Timer): QState
    requires g in s.groups
  {
    var gi := s.groups[g];
    var gone := Expired(gi.requested, t);
    if gi.mode.Include? then
      if gi.requested.Keys == gone then Notify(DropGroup(s, g), g)
      else Notify(SetGroup(s, g, gi.(requested := gi.requested - gone)), g)
    else
      // a source that is excluded already stays as it is
      Notify(SetGroup(s, g, gi.(requested := gi.requested - gone, excluded := Stopped(gi.requested, gone) + gi.excluded)), g)
  }

  function OlderHostTimerFired(cfg: Config, s: QState, g: Addr, t: Timer): QState
    requires g in s.groups
  {
    var gi := s.groups[g];
    if gi.olderHost != Some(t) then s
    else if gi.compat.IsNewest() then Notify(SetGroup(s, g, gi.(olderHost := None)), g)
    else
      var v := NextNewer(gi.compat);
      var t' := NewTimer(s, OlderHostT, g, if v.IsNewest() then cfg.mali else cfg.ohpi);
      Arm(SetGroup(s, g, gi.(compat := v, olderHost := Some(t'))), t')
  }

  /** A timer leaves the register and is handled if some record still points to it. */
  function TimerTriggered(cfg: Config, s: QState, t: Timer): QState {
    var s0 := s.(pending := s.pending - {t});
    var g := t.gaddr;
    if !s0.InUse(t) || g !in s0.groups then s0
    else
      match t.kind
      case FilterT => FilterTimerFired(s0, g, t)
      case SourceT => SourceTimerFired(s0, g, t)
      case RetGroupT => if s0.groups[g].groupRetrans == Some(t) then SendGroupQuery(cfg, s0, g) else s0
      case RetSourceT => if s0.groups[g].sourceRetrans == Some(t) then SendSourceQuery(cfg, s0, g, {}, true) else s0
      case OlderHostT => OlderHostTimerFired(cfg, s0, g, t)
  }

  /** Events of a run. Time passes only up to the earliest registered deadline. */
  datatype Event = Record(r: GroupRecord) | Fire(t: Timer) | Tick(to: int, lag: nat)

  /** Records come from hosts of the querier's own address family. Reports of an older version
      are joins and leaves, so they neither block sources nor carry an unknown type. */
  predicate Receivable(cfg: Config, r: GroupRecord) {
    && r.version.IsIPv4() == cfg.version.IsIPv4()
    && (r.version.IsNewest() || !(r.rtype.Block? || r.rtype.Unknown?))
  }

  predicate Enabled(cfg: Config, s: QState, e: Event) {
    match e
    case Record(r) => Receivable(cfg, r)
    case Fire(t) => t in s.pending && t.deadline <= s.now
    case Tick(to, _) => s.now <= to && forall t | t in s.pending :: to <= t.deadline
  }

  function Step(cfg: Config, s: QState, e: Event): QState {
    match e
    case Record(r) => ReceiveRecord(cfg, s, r)
    case Fire(t) => TimerTriggered(cfg, s, t)
    case Tick(to, lag) => s.(now := to, lag := lag)
  }

  predicate IsRun(cfg: Config, s: QState, es: seq<Event>)
    decreases |es|
  {
    es == [] || (Enabled(cfg, s, es[0]) && IsRun(cfg, Step(cfg, s, es[0]), es[1..]))
  }

  /** The state after the events `es`. */
  function After(cfg: Config, s: QState, es: seq<Event>): QState
    decreases |es|
  {
    if es == [] then s else After(cfg, Step(cfg, s, es[0]), es[1..])
  }
}
