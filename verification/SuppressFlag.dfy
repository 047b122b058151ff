/** Which queries carry the "Suppress Router-Side Processing" flag. The flag is meant for sources and groups
    whose timer has more than LLQT left; the program sets it if LLQT or more is left when the query is sent,
    `lag` after the timers of the event were armed. */
module SuppressFlag {
  import opened Defs
  import opened MembershipDb
  import opened ReportTables
  import opened QuerierSpec
  import opened QuerierInvariant
  import opened QuerierViews
  import SoftState
  import QueryAccounting
  import LeaveLatency

  /** The number of queries in a log that ask for source `a` of group `g` with the flag. */
  function Flagged(log: seq<Query>, g: Addr, a: Addr): nat {
    if log == [] then 0
    else
      var q := log[|log| - 1];
      Flagged(log[..|log| - 1], g, a) + if q.SourceQuery? && q.suppress && q.gaddr == g && a in q.sources then 1 else 0
  }

  lemma FlaggedAppend(log: seq<Query>, q: Query, g: Addr, a: Addr)
    ensures Flagged(log + [q], g, a) ==
      Flagged(log, g, a) + if q.SourceQuery? && q.suppress && q.gaddr == g && a in q.sources then 1 else 0
  {
    assert (log + [q])[..|log|] == log;
  }

  lemma FlaggedFor(log: seq<Query>, h: Addr, sources: set<Addr>, suppress: bool, g: Addr, a: Addr)
    ensures Flagged(log + QueriesFor(h, sources, suppress), g, a) ==
      Flagged(log, g, a) + if suppress && g == h && a in sources then 1 else 0
  {
    if sources != {} {
      FlaggedAppend(log, SourceQuery(h, sources, suppress), g, a);
    } else {
      assert log + [] == log;
    }
  }

  lemma FlaggedRound(log: seq<Query>, h: Addr, list: SrcMap, limit: int, g: Addr, a: Addr)
    ensures Flagged(log + SourceQueries(h, list, limit), g, a) ==
      Flagged(log, g, a) + if g == h && a in AskingBeyond(list, limit, true) then 1 else 0
  {
    var higher, lower := AskingBeyond(list, limit, true), AskingBeyond(list, limit, false);
    var mid := log + QueriesFor(h, higher, true);
    assert log + SourceQueries(h, list, limit) == mid + QueriesFor(h, lower, false);
    FlaggedFor(log, h, higher, true, g, a);
    FlaggedFor(mid, h, lower, false, g, a);
  }

  // ---------------------------------------------------------------- one round

  /** The asking sources have timers that end by `limit`. */
  ghost predicate Near(list: SrcMap, limit: int) {
    forall a | a in list && list[a].count > 0 :: list[a].timer.Some? && list[a].timer.value.deadline <= limit
  }

  /** Source `a` has queries to come and its timer was set to LLQT at this very instant. */
  predicate JustStarted(list: SrcMap, a: Addr, end: int) {
    a in list && list[a].count > 0 && list[a].timer.Some? && list[a].timer.value.deadline == end
  }

  ghost predicate NoneJustStarted(list: SrcMap, end: int) {
    forall a | a in list :: !JustStarted(list, a, end)
  }

  /** A round asks with the flag exactly for the sources started at this instant, and only without lag. */
  lemma RoundFlags(cfg: Config, s: QState, g: Addr, h: Addr, a: Addr)
    requires g in s.groups && Near(s.groups[g].requested, s.now + cfg.Llqt())
    ensures Flagged(QueryRound(cfg, s, g).log, h, a) == Flagged(s.log, h, a) +
      if h == g && s.lag == 0 && JustStarted(s.groups[g].requested, a, s.now + cfg.Llqt()) then 1 else 0
  {
    hide Flagged, SourceQueries, CountedDown;
    FlaggedRound(s.log, g, s.groups[g].requested, s.now + s.lag + cfg.Llqt(), h, a);
  }

  /** Send Q(MA, ask) carries the flag for a source exactly if no time passes between arming and sending
      and the source starts now or has started at this instant before. */
  predicate AskFlags(cfg: Config, s: QState, g: Addr, ask: set<Addr>, retransmission: bool, a: Addr)
    requires g in s.groups
  {
    var list := s.groups[g].requested;
    && s.lag == 0 && (retransmission || Startable(list, ask) != {})
    && (JustStarted(list, a, s.now + cfg.Llqt()) || (a in Startable(list, ask) && 0 < cfg.llqc))
  }

  lemma StartedList(cfg: Config, s: QState, g: Addr, ask: set<Addr>, a: Addr)
    requires g in s.groups && Near(s.groups[g].requested, s.now + cfg.Llqt())
    ensures
      var s1 := StartQueries(cfg, s, g, ask);
      var list := s.groups[g].requested;
      && s1.log == s.log && s1.now == s.now && s1.lag == s.lag && Near(s1.groups[g].requested, s.now + cfg.Llqt())
      && (JustStarted(s1.groups[g].requested, a, s.now + cfg.Llqt()) <==>
            JustStarted(list, a, s.now + cfg.Llqt()) || (a in Startable(list, ask) && 0 < cfg.llqc))
  {
  }

  lemma SourceQueryFlags(cfg: Config, s: QState, g: Addr, ask: set<Addr>, retransmission: bool, h: Addr, a: Addr)
    requires g in s.groups && Near(s.groups[g].requested, s.now + cfg.Llqt())
    ensures Flagged(SendSourceQuery(cfg, s, g, ask, retransmission).log, h, a) == Flagged(s.log, h, a) +
      if h == g && AskFlags(cfg, s, g, ask, retransmission, a) then 1 else 0
  {
    hide Flagged, QueryRound, StartQueries, Near, JustStarted;
    StartedList(cfg, s, g, ask, a);
    RoundFlags(cfg, StartQueries(cfg, s, g, ask), g, h, a);
  }

  lemma GroupQueryFlagsNoSource(cfg: Config, s: QState, g: Addr, h: Addr, a: Addr)
    requires g in s.groups
    ensures Flagged(SendGroupQuery(cfg, s, g).log, h, a) == Flagged(s.log, h, a)
  {
    var s1 := StartBurst(cfg, s, g);
    var gi := s1.groups[g];
    FlaggedAppend(s1.log, GroupQuery(g, gi.filterTimer.Some? && gi.filterTimer.value.deadline >= s1.now + s1.lag + cfg.Llqt()), h, a);
  }

  lemma TimedLog(cfg: Config, s: QState, g: Addr, row: Row)
    requires g in s.groups
    ensures Timed(cfg, s, g, row).log == s.log
  {
  }

  lemma RowFlags(cfg: Config, s: QState, g: Addr, row: Row, h: Addr, a: Addr)
    requires g in s.groups && Near(s.groups[g].requested, s.now + cfg.Llqt())
    ensures Flagged(ApplyRow(cfg, s, g, row).log, h, a) == Flagged(s.log, h, a) +
      if h == g && AskFlags(cfg, SetLists(s, g, row), g, row.ask, false, a) then 1 else 0
  {
    hide SendSourceQuery, SendGroupQuery, Timed, Flagged, AskFlags;
    var s1 := SetLists(s, g, row);
    assert Near(s1.groups[g].requested, s.now + cfg.Llqt());
    SourceQueryFlags(cfg, s1, g, row.ask, false, h, a);
    GroupQueryFlagsNoSource(cfg, SendSourceQuery(cfg, s1, g, row.ask, false), g, h, a);
    TimedLog(cfg, Queried(cfg, s1, g, row), g, row);
  }

  // ---------------------------------------------------------------- retransmissions

  /** The retransmission timer is set no earlier than LLQI after the timers of the asking sources. */
  ghost predicate GroupSpaced(cfg: Config, gi: GroupInfo) {
    forall a | a in gi.requested && gi.requested[a].count > 0 ::
      && gi.requested[a].timer.Some? && gi.sourceRetrans.Some?
      && gi.requested[a].timer.value.deadline + cfg.llqi <= gi.sourceRetrans.value.deadline + cfg.Llqt()
  }

  ghost predicate Spaced(cfg: Config, s: QState) {
    forall g | g in s.groups :: GroupSpaced(cfg, s.groups[g])
  }

  lemma SourceQuerySpaced(cfg: Config, s: QState, g: Addr, ask: set<Addr>, retransmission: bool)
    requires g in s.groups && Near(s.groups[g].requested, s.now + cfg.Llqt()) && GroupSpaced(cfg, s.groups[g])
    ensures GroupSpaced(cfg, SendSourceQuery(cfg, s, g, ask, retransmission).groups[g])
  {
    hide StartQueries, SourceQueries;
    var s1 := StartQueries(cfg, s, g, ask);
    StartedList(cfg, s, g, ask, 0);
    RoundSpaced(cfg, s1, g);
    NothingStarted(cfg, s, g, ask);
  }

  lemma RoundSpaced(cfg: Config, s: QState, g: Addr)
    requires g in s.groups && Near(s.groups[g].requested, s.now + cfg.Llqt())
    ensures GroupSpaced(cfg, QueryRound(cfg, s, g).groups[g])
  {
    hide SourceQueries;
    var list := CountedDown(s.groups[g].requested);
    assert forall a | a in list && list[a].count > 0 :: a in Asking(list);
  }

  lemma NothingStarted(cfg: Config, s: QState, g: Addr, ask: set<Addr>)
    requires g in s.groups
    ensures Startable(s.groups[g].requested, ask) == {} ==> StartQueries(cfg, s, g, ask) == s
  {
  }

  lemma GroupQueryKeepsLists(cfg: Config, s: QState, g: Addr)
    requires g in s.groups
    ensures
      var r := SendGroupQuery(cfg, s, g);
      r.groups[g].requested == s.groups[g].requested && r.groups[g].sourceRetrans == s.groups[g].sourceRetrans
  {
  }

  lemma TimedSpaced(cfg: Config, s: QState, g: Addr, row: Row)
    requires g in s.groups && GroupSpaced(cfg, s.groups[g])
    ensures GroupSpaced(cfg, Timed(cfg, s, g, row).groups[g])
  {
  }

  lemma RowSpaced(cfg: Config, s: QState, g: Addr, row: Row)
    requires g in s.groups && Near(s.groups[g].requested, s.now + cfg.Llqt()) && GroupSpaced(cfg, s.groups[g])
    ensures GroupSpaced(cfg, ApplyRow(cfg, s, g, row).groups[g])
  {
    hide SendSourceQuery, SendGroupQuery, Timed;
    var s1 := SetLists(s, g, row);
    assert Near(s1.groups[g].requested, s.now + cfg.Llqt()) && GroupSpaced(cfg, s1.groups[g]);
    SourceQuerySpaced(cfg, s1, g, row.ask, false);
    GroupQueryKeepsLists(cfg, SendSourceQuery(cfg, s1, g, row.ask, false), g);
    TimedSpaced(cfg, Queried(cfg, s1, g, row), g, row);
  }

  lemma InvNear(cfg: Config, s: QState, g: Addr)
    requires Inv(cfg, s) && g in s.groups
    ensures Near(s.groups[g].requested, s.now + cfg.Llqt())
  {
    hide BurstOk, ModeOk;
    assert GroupInv(cfg, s, g);
  }

  lemma PreparedNear(cfg: Config, s: QState, r: GroupRecord)
    requires Inv(cfg, s)
    ensures
      var s1 := Prepared(cfg, s, r);
      && Near(s1.groups[r.gaddr].requested, s1.now + cfg.Llqt()) && s1.lag == s.lag
      && (Spaced(cfg, s) ==> Spaced(cfg, s1))
  {
    hide Inv;
    PreparedFrame(cfg, s, r);
    if r.gaddr in s.groups {
      InvNear(cfg, s, r.gaddr);
    }
  }

  lemma RecordSpaced(cfg: Config, s: QState, r: GroupRecord)
    requires Inv(cfg, s) && Spaced(cfg, s)
    ensures Spaced(cfg, ReceiveRecord(cfg, s, r))
  {
    hide Inv, ApplyRow, GroupSpaced, Near, Downgraded, Opened;
    var s1 := Prepared(cfg, s, r);
    PreparedNear(cfg, s, r);
    RowSpaced(cfg, s1, r.gaddr, RowFor(s1, r));
  }

  lemma TimerSpaced(cfg: Config, s: QState, t: Timer)
    requires Inv(cfg, s) && Spaced(cfg, s)
    ensures Spaced(cfg, TimerTriggered(cfg, s, t))
  {
    hide Inv, SendSourceQuery, SendGroupQuery, FilterTimerFired, SourceTimerFired, OlderHostTimerFired, Near, GroupSpaced;
    var s0 := s.(pending := s.pending - {t});
    if t.gaddr in s.groups {
      InvNear(cfg, s, t.gaddr);
      SourceQuerySpaced(cfg, s0, t.gaddr, {}, true);
      GroupQuerySpaced(cfg, s0, t.gaddr);
      ExpirySpaced(cfg, s0, t.gaddr, t);
    }
  }

  lemma GroupQuerySpaced(cfg: Config, s: QState, g: Addr)
    requires g in s.groups && GroupSpaced(cfg, s.groups[g])
    ensures GroupSpaced(cfg, SendGroupQuery(cfg, s, g).groups[g])
  {
    hide SendGroupQuery;
    GroupQueryKeepsLists(cfg, s, g);
  }

  lemma ExpirySpaced(cfg: Config, s: QState, g: Addr, t: Timer)
    requires g in s.groups && Spaced(cfg, s)
    ensures Spaced(cfg, FilterTimerFired(s, g, t)) && Spaced(cfg, SourceTimerFired(s, g, t)) && Spaced(cfg, OlderHostTimerFired(cfg, s, g, t))
  {
    hide SourceTimerFired;
    assert GroupSpaced(cfg, s.groups[g]);
    SourceExpirySpaced(cfg, s, g, t);
  }

  lemma SourceExpirySpaced(cfg: Config, s: QState, g: Addr, t: Timer)
    requires g in s.groups && Spaced(cfg, s)
    ensures Spaced(cfg, SourceTimerFired(s, g, t))
  {
    assert GroupSpaced(cfg, s.groups[g]);
  }

  lemma StepSpaced(cfg: Config, s: QState, e: Event)
    requires Inv(cfg, s) && Spaced(cfg, s)
    ensures Spaced(cfg, Step(cfg, s, e))
  {
    hide ReceiveRecord, TimerTriggered, Inv;
    match e
    case Record(r) => RecordSpaced(cfg, s, r);
    case Fire(t) => TimerSpaced(cfg, s, t);
    case Tick(_, _) =>
  }

  // ---------------------------------------------------------------- events and runs

  /** A record whose row asks for source `a` of its group with the flag. */
  predicate RecordFlags(cfg: Config, s: QState, r: GroupRecord, a: Addr) {
    var s1 := Prepared(cfg, s, r);
    var row := RowFor(s1, r);
    && !(s1.groups[r.gaddr].InCompatibilityMode() && r.rtype.Block?)
    && AskFlags(cfg, SetLists(s1, r.gaddr, row), r.gaddr, row.ask, false, a)
  }

  /** Exactly which events send a flagged source query: records that start sources, without lag. No timer
      does, so no retransmission carries the flag. */
  lemma StepFlags(cfg: Config, s: QState, e: Event, g: Addr, a: Addr)
    requires cfg.Ok() && Inv(cfg, s) && Spaced(cfg, s) && Enabled(cfg, s, e)
    ensures Flagged(Step(cfg, s, e).log, g, a) == Flagged(s.log, g, a) +
      if e.Record? && e.r.gaddr == g && RecordFlags(cfg, s, e.r, a) then 1 else 0
  {
    hide Inv, ApplyRow, SendSourceQuery, SendGroupQuery, Near, Flagged, AskFlags, Spaced, GroupSpaced, TimerTriggered;
    match e
    case Record(r) =>
      var s1 := Prepared(cfg, s, r);
      PreparedFrame(cfg, s, r);
      PreparedNear(cfg, s, r);
      RowFlags(cfg, s1, r.gaddr, RowFor(s1, r), g, a);
    case Fire(t) => TimerFlags(cfg, s, t, g, a);
    case Tick(_, _) =>
  }

  lemma TimerFlags(cfg: Config, s: QState, t: Timer, g: Addr, a: Addr)
    requires cfg.Ok() && Inv(cfg, s) && Spaced(cfg, s) && t in s.pending && t.deadline <= s.now
    ensures Flagged(TimerTriggered(cfg, s, t).log, g, a) == Flagged(s.log, g, a)
  {
    hide Inv, SendSourceQuery, SendGroupQuery, Near, Flagged;
    var s0 := s.(pending := s.pending - {t});
    if t.gaddr in s.groups {
      InvNear(cfg, s, t.gaddr);
      assert GroupSpaced(cfg, s.groups[t.gaddr]);
      SourceQueryFlags(cfg, s0, t.gaddr, {}, true, g, a);
      GroupQueryFlagsNoSource(cfg, s0, t.gaddr, g, a);
    }
  }

  /** Without lag a record asks with the flag exactly for the sources it starts, provided no source of the
      group was started at the same instant before. */
  lemma StartedCarryTheFlag(cfg: Config, s: QState, r: GroupRecord, a: Addr)
    requires cfg.Ok() && Inv(cfg, s) && 0 < cfg.llqc && s.lag == 0
    requires r.gaddr in s.groups ==> NoneJustStarted(s.groups[r.gaddr].requested, s.now + cfg.Llqt())
    ensures
      var s1 := Prepared(cfg, s, r);
      var row := RowFor(s1, r);
      RecordFlags(cfg, s, r, a) <==>
        && !(s1.groups[r.gaddr].InCompatibilityMode() && r.rtype.Block?)
        && a in Startable(SetLists(s1, r.gaddr, row).groups[r.gaddr].requested, row.ask)
  {
    hide Inv, RowFor, Prepared;
    PreparedFrame(cfg, s, r);
    PreparedNear(cfg, s, r);
    var s1 := Prepared(cfg, s, r);
    var row := RowFor(s1, r);
    var list, now := s1.groups[r.gaddr].requested, SetLists(s1, r.gaddr, row).groups[r.gaddr].requested;
    assert NoneJustStarted(list, s.now + cfg.Llqt());
    assert JustStarted(now, a, s.now + cfg.Llqt()) ==> JustStarted(list, a, s.now + cfg.Llqt());
  }

  /** It happens: BLOCK({a}) after IS_IN({a}), without lag, asks for the source with the flag. */
  lemma FirstQueryCarriesFlag(cfg: Config, g: Addr, a: Addr)
    requires cfg.Ok() && 0 < cfg.llqc
    ensures
      var join, block := Record(GroupRecord(IsIn, g, {a}, cfg.version)), Record(GroupRecord(Block, g, {a}, cfg.version));
      var s := Step(cfg, EMPTY, join);
      && IsRun(cfg, EMPTY, [join, block]) && s.lag == 0
      && Flagged(Step(cfg, s, block).log, g, a) == Flagged(s.log, g, a) + 1
  {
    hide Inv, Step, Flagged, Spaced;
    var join, block := Record(GroupRecord(IsIn, g, {a}, cfg.version)), GroupRecord(Block, g, {a}, cfg.version);
    var st := LeaveLatency.JoinHolds(cfg, g, a);
    var s := Step(cfg, EMPTY, join);
    SoftState.TwoEvents(cfg, EMPTY, join, Record(block));
    NothingSpaced(cfg);
    StepSpaced(cfg, EMPTY, join);
    StepFlags(cfg, s, Record(block), g, a);
    StartedCarryTheFlag(cfg, s, block, a);
    LeaveLatency.CompatNewest(cfg, s, g);
    assert Prepared(cfg, s, block) == s;
    assert RowFor(s, block).ask == {a};
  }

  lemma NothingSpaced(cfg: Config)
    ensures Spaced(cfg, EMPTY)
  {
  }

  /** At every record of the run time passes between arming and sending. */
  predicate AlwaysLate(cfg: Config, s: QState, es: seq<Event>)
    decreases |es|
  {
    es == [] || ((es[0].Record? ==> s.lag > 0) && AlwaysLate(cfg, Step(cfg, s, es[0]), es[1..]))
  }

  /** If time always passes between arming and sending, no run asks for a source with the flag. */
  lemma {:induction false} NeverSuppressed(cfg: Config, s: QState, es: seq<Event>, g: Addr, a: Addr)
    requires cfg.Ok() && Inv(cfg, s) && Spaced(cfg, s) && IsRun(cfg, s, es) && AlwaysLate(cfg, s, es)
    ensures Flagged(After(cfg, s, es).log, g, a) == Flagged(s.log, g, a)
    decreases |es|
  {
    hide Inv, Step, Flagged, Spaced;
    if es != [] {
      StepFlags(cfg, s, es[0], g, a);
      StepInv(cfg, s, es[0]);
      StepSpaced(cfg, s, es[0]);
      if es[0].Record? {
        LateRecordFlagsNothing(cfg, s, es[0].r, a);
      }
      NeverSuppressed(cfg, Step(cfg, s, es[0]), es[1..], g, a);
    }
  }

  lemma LateRecordFlagsNothing(cfg: Config, s: QState, r: GroupRecord, a: Addr)
    requires s.lag > 0
    ensures !RecordFlags(cfg, s, r, a)
  {
  }

  // ---------------------------------------------------------------- group queries

  /** The number of group queries for `g` in a log that carry the flag. */
  function FlaggedGroup(log: seq<Query>, g: Addr): nat {
    if log == [] then 0
    else FlaggedGroup(log[..|log| - 1], g) + if log[|log| - 1] == GroupQuery(g, true) then 1 else 0
  }

  lemma FlaggedGroupAppend(log: seq<Query>, q: Query, g: Addr)
    ensures FlaggedGroup(log + [q], g) == FlaggedGroup(log, g) + if q == GroupQuery(g, true) then 1 else 0
  {
    assert (log + [q])[..|log|] == log;
  }

  lemma SourceQueriesFlagNoGroup(log: seq<Query>, h: Addr, list: SrcMap, limit: int, g: Addr)
    ensures FlaggedGroup(log + SourceQueries(h, list, limit), g) == FlaggedGroup(log, g)
  {
    var higher, lower := AskingBeyond(list, limit, true), AskingBeyond(list, limit, false);
    var mid := log + QueriesFor(h, higher, true);
    assert log + SourceQueries(h, list, limit) == mid + QueriesFor(h, lower, false);
    FlaggedGroupAppend(log, SourceQuery(h, higher, true), g);
    FlaggedGroupAppend(mid, SourceQuery(h, lower, false), g);
    assert log + [] == log && mid + [] == mid;
  }

  lemma SourceQueryFlagsNoGroup(cfg: Config, s: QState, h: Addr, ask: set<Addr>, retransmission: bool, g: Addr)
    requires h in s.groups
    ensures FlaggedGroup(SendSourceQuery(cfg, s, h, ask, retransmission).log, g) == FlaggedGroup(s.log, g)
  {
    hide FlaggedGroup, SourceQueries;
    var s1 := StartQueries(cfg, s, h, ask);
    SourceQueriesFlagNoGroup(s1.log, h, s1.groups[h].requested, s1.now + s1.lag + cfg.Llqt(), g);
  }

  /** The next group query carries the flag: without lag if it starts a burst, otherwise if the filter timer has LLQT
      or more left when it is sent. */
  predicate NextQueryFlagged(cfg: Config, s: QState, g: Addr)
    requires g in s.groups
  {
    var gi := s.groups[g];
    if gi.groupRetrans.None? then 0 < cfg.llqc && s.lag == 0
    else gi.groupCount > 0 && gi.filterTimer.Some? && s.now + s.lag + cfg.Llqt() <= gi.filterTimer.value.deadline
  }

  lemma GroupQueryFlags(cfg: Config, s: QState, h: Addr, g: Addr)
    requires h in s.groups
    ensures FlaggedGroup(SendGroupQuery(cfg, s, h).log, g) ==
      FlaggedGroup(s.log, g) + if g == h && NextQueryFlagged(cfg, s, g) then 1 else 0
  {
    var s1 := StartBurst(cfg, s, h);
    var gi := s1.groups[h];
    FlaggedGroupAppend(s1.log, GroupQuery(h, gi.filterTimer.Some? && gi.filterTimer.value.deadline >= s1.now + s1.lag + cfg.Llqt()), g);
  }

  lemma SourceQueryKeepsFlag(cfg: Config, s: QState, g: Addr, ask: set<Addr>)
    requires g in s.groups
    ensures NextQueryFlagged(cfg, SendSourceQuery(cfg, s, g, ask, false), g) <==> NextQueryFlagged(cfg, s, g)
  {
  }

  lemma RowGroupFlags(cfg: Config, s: QState, h: Addr, row: Row, g: Addr)
    requires h in s.groups
    ensures FlaggedGroup(ApplyRow(cfg, s, h, row).log, g) ==
      FlaggedGroup(s.log, g) + if g == h && row.askGroup && NextQueryFlagged(cfg, s, g) then 1 else 0
  {
    hide SendSourceQuery, SendGroupQuery, Timed, FlaggedGroup;
    var s1 := SetLists(s, h, row);
    SourceQueryFlagsNoGroup(cfg, s1, h, row.ask, false, g);
    SourceQueryKeepsFlag(cfg, s1, h, row.ask);
    GroupQueryFlags(cfg, SendSourceQuery(cfg, s1, h, row.ask, false), h, g);
    TimedLog(cfg, Queried(cfg, s1, h, row), h, row);
  }

  /** The event sends a group query for `g` that carries the flag: TO_IN in EXCLUDE mode, or the timer of the burst. */
  predicate GroupFlags(cfg: Config, s: QState, e: Event, g: Addr) {
    && g in s.groups && NextQueryFlagged(cfg, s, g)
    && match e
       case Record(r) => r.gaddr == g && r.rtype.ToIn? && s.groups[g].mode.Exclude?
       case Fire(t) => s.groups[g].groupRetrans == Some(t)
       case Tick(_, _) => false
  }

  /** Exactly which events send a flagged group query. */
  lemma StepGroupFlags(cfg: Config, s: QState, e: Event, g: Addr)
    requires cfg.Ok() && Inv(cfg, s) && Enabled(cfg, s, e)
    ensures FlaggedGroup(Step(cfg, s, e).log, g) == FlaggedGroup(s.log, g) + if GroupFlags(cfg, s, e, g) then 1 else 0
  {
    hide Inv, ReceiveRecord, TimerTriggered, FlaggedGroup;
    match e
    case Record(r) => RecordGroupFlags(cfg, s, r, g);
    case Fire(t) => TimerGroupFlags(cfg, s, t, g);
    case Tick(_, _) =>
  }

  /** It happens: TO_IN({}) after IS_EX({}), without lag, asks for the group with the flag although just LLQT is left. */
  lemma FirstGroupQueryCarriesFlag(cfg: Config, g: Addr)
    requires cfg.Ok() && 0 < cfg.llqc
    ensures
      var join, leave := Record(GroupRecord(IsEx, g, {}, cfg.version)), Record(GroupRecord(ToIn, g, {}, cfg.version));
      var s := Step(cfg, EMPTY, join);
      && IsRun(cfg, EMPTY, [join, leave]) && s.lag == 0
      && FlaggedGroup(Step(cfg, s, leave).log, g) == FlaggedGroup(s.log, g) + 1
  {
    hide Inv, Step, FlaggedGroup;
    var join, leave := Record(GroupRecord(IsEx, g, {}, cfg.version)), Record(GroupRecord(ToIn, g, {}, cfg.version));
    var s, ft := QueryAccounting.JoinState(cfg, g);
    LeaveLatency.StartInv(cfg);
    StepInv(cfg, EMPTY, join);
    SoftState.TwoEvents(cfg, EMPTY, join, leave);
    StepGroupFlags(cfg, s, leave, g);
  }

  lemma RecordGroupFlags(cfg: Config, s: QState, r: GroupRecord, g: Addr)
    ensures FlaggedGroup(ReceiveRecord(cfg, s, r).log, g) == FlaggedGroup(s.log, g) + if GroupFlags(cfg, s, Record(r), g) then 1 else 0
  {
    hide ApplyRow, Downgraded, Opened, RowFor, FlaggedGroup;
    var s1 := Prepared(cfg, s, r);
    PreparedFrame(cfg, s, r);
    PreparedLag(cfg, s, r);
    RowGroupFlags(cfg, s1, r.gaddr, RowFor(s1, r), g);
    QueryAccounting.OnlyToInAsksTheGroup(s1, r);
  }

  lemma PreparedLag(cfg: Config, s: QState, r: GroupRecord)
    ensures Prepared(cfg, s, r).lag == s.lag
  {
  }

  lemma TimerGroupFlags(cfg: Config, s: QState, t: Timer, g: Addr)
    requires cfg.Ok() && Inv(cfg, s) && t in s.pending
    ensures FlaggedGroup(TimerTriggered(cfg, s, t).log, g) == FlaggedGroup(s.log, g) + if GroupFlags(cfg, s, Fire(t), g) then 1 else 0
  {
    hide Inv, SendSourceQuery, SendGroupQuery, FlaggedGroup, FilterTimerFired, SourceTimerFired, OlderHostTimerFired;
    var s0 := s.(pending := s.pending - {t});
    if g in s.groups {
      BurstTimerOf(cfg, s, g, t);
    }
    if t.gaddr in s.groups {
      ExpiryLog(cfg, s0, t.gaddr, t);
      SourceQueryFlagsNoGroup(cfg, s0, t.gaddr, {}, true, g);
      GroupQueryFlags(cfg, s0, t.gaddr, g);
      assert s.groups[t.gaddr].groupRetrans == Some(t) ==> s0.groups[t.gaddr].Holds(t);
    }
  }

  lemma ExpiryLog(cfg: Config, s: QState, g: Addr, t: Timer)
    requires g in s.groups
    ensures FilterTimerFired(s, g, t).log == SourceTimerFired(s, g, t).log == OlderHostTimerFired(cfg, s, g, t).log == s.log
  {
  }

  lemma BurstTimerOf(cfg: Config, s: QState, g: Addr, t: Timer)
    requires Inv(cfg, s) && g in s.groups
    ensures s.groups[g].groupRetrans == Some(t) ==> t.kind.RetGroupT? && t.gaddr == g
  {
    hide SourcesOk, CompatOk, ModeOk;
    assert GroupInv(cfg, s, g);
  }

  // ---------------------------------------------------------------- group queries in runs

  /** The burst of the group has not been answered: its filter timer is the one the burst began with or a shorter one,
      so the next query is due LLQI or more after that timer was set to LLQT. */
  ghost predicate Unanswered(cfg: Config, s: QState, g: Addr) {
    g in s.groups && s.groups[g].groupRetrans.Some? && s.groups[g].groupCount > 0 && s.groups[g].filterTimer.Some? ==>
      s.groups[g].filterTimer.value.deadline + cfg.llqi <= s.groups[g].groupRetrans.value.deadline + cfg.Llqt()
  }

  /** A record that sets the filter timer to MALI while the burst has queries to come. */
  predicate Answers(s: QState, e: Event, g: Addr) {
    e.Record? && e.r.gaddr == g && (e.r.rtype.IsEx? || e.r.rtype.ToEx?) && QueryAccounting.Remaining(s, g) > 0
  }

  lemma RowFilterTimer(cfg: Config, s: QState, g: Addr, row: Row)
    requires g in s.groups && !row.askGroup && !row.refreshFilter
    ensures ApplyRow(cfg, s, g, row).groups[g].filterTimer == s.groups[g].filterTimer
  {
    hide SendSourceQuery;
    LeaveLatency.SourceQueryKeepsGroup(cfg, SetLists(s, g, row), g, row.ask);
  }

  lemma RowUnanswered(cfg: Config, s: QState, g: Addr, row: Row)
    requires cfg.Ok() && g in s.groups && Unanswered(cfg, s, g) && (row.askGroup ==> !row.refreshFilter)
    requires row.refreshFilter ==> QueryAccounting.Remaining(s, g) <= 0
    requires s.groups[g].groupRetrans.Some? ==> 0 <= s.groups[g].groupCount
    requires s.groups[g].groupRetrans.Some? && s.groups[g].groupCount > 0 ==> s.groups[g].groupRetrans.value.deadline <= s.now + cfg.llqi
    ensures Unanswered(cfg, ApplyRow(cfg, s, g, row), g)
  {
    hide ApplyRow;
    QueryAccounting.RecordBurstLaw(cfg, s, g, row, g);
    if row.askGroup {
      LeaveLatency.ToInFilterTimer(cfg, s, g, row);
    } else if !row.refreshFilter {
      RowFilterTimer(cfg, s, g, row);
    }
  }

  lemma BurstSoon(cfg: Config, s: QState, g: Addr)
    requires Inv(cfg, s) && g in s.groups && s.groups[g].groupRetrans.Some?
    ensures 0 <= s.groups[g].groupCount
    ensures s.groups[g].groupCount > 0 ==> s.groups[g].groupRetrans.value.deadline <= s.now + cfg.llqi
  {
    hide SourcesOk, CompatOk;
    assert GroupInv(cfg, s, g);
  }

  lemma RefreshingRows(s: QState, r: GroupRecord)
    requires r.gaddr in s.groups
    ensures RowFor(s, r).refreshFilter <==> r.rtype.IsEx? || r.rtype.ToEx?
    ensures RowFor(s, r).askGroup ==> !RowFor(s, r).refreshFilter
  {
  }

  lemma RecordUnanswered(cfg: Config, s: QState, r: GroupRecord, g: Addr)
    requires cfg.Ok() && Inv(cfg, s) && Unanswered(cfg, s, g) && !Answers(s, Record(r), g)
    ensures Unanswered(cfg, ReceiveRecord(cfg, s, r), g)
  {
    hide ApplyRow, Downgraded, Opened, RowFor, Inv;
    PreparedFrame(cfg, s, r);
    var s1 := Prepared(cfg, s, r);
    if r.gaddr == g {
      if g in s.groups && s.groups[g].groupRetrans.Some? {
        BurstSoon(cfg, s, g);
      }
      RefreshingRows(s1, r);
      RowUnanswered(cfg, s1, g, RowFor(s1, r));
    } else {
      SoftState.OtherRecordKeeps(cfg, s, r, g);
    }
  }

  lemma BurstUnanswered(cfg: Config, s: QState, g: Addr)
    requires cfg.Ok() && g in s.groups && s.groups[g].groupRetrans.Some? && Unanswered(cfg, s, g)
    requires s.groups[g].groupRetrans.value.deadline <= s.now
    ensures Unanswered(cfg, SendGroupQuery(cfg, s, g), g)
  {
  }

  lemma ExpiryUnanswered(cfg: Config, s: QState, h: Addr, t: Timer, g: Addr)
    requires h in s.groups && Unanswered(cfg, s, g)
    ensures Unanswered(cfg, FilterTimerFired(s, h, t), g) && Unanswered(cfg, SourceTimerFired(s, h, t), g)
    ensures Unanswered(cfg, OlderHostTimerFired(cfg, s, h, t), g)
  {
  }

  lemma RetransmissionUnanswered(cfg: Config, s: QState, h: Addr, g: Addr)
    requires h in s.groups && Unanswered(cfg, s, g)
    ensures Unanswered(cfg, SendSourceQuery(cfg, s, h, {}, true), g)
  {
  }

  lemma TimerUnanswered(cfg: Config, s: QState, t: Timer, g: Addr)
    requires cfg.Ok() && t.deadline <= s.now && Unanswered(cfg, s, g)
    ensures Unanswered(cfg, TimerTriggered(cfg, s, t), g)
  {
    hide SendSourceQuery, SendGroupQuery, FilterTimerFired, SourceTimerFired, OlderHostTimerFired;
    var s0 := s.(pending := s.pending - {t});
    if t.gaddr in s0.groups {
      ExpiryUnanswered(cfg, s0, t.gaddr, t, g);
      RetransmissionUnanswered(cfg, s0, t.gaddr, g);
      if s0.groups[t.gaddr].groupRetrans == Some(t) && t.gaddr == g {
        BurstUnanswered(cfg, s0, g);
      }
    }
  }

  /** While no record answers the burst, it stays unanswered, and an event sends a flagged group query only if it is a
      TO_IN record without lag. */
  lemma StepUnanswered(cfg: Config, s: QState, e: Event, g: Addr)
    requires cfg.Ok() && Inv(cfg, s) && Enabled(cfg, s, e) && Unanswered(cfg, s, g) && !Answers(s, e, g)
    ensures Unanswered(cfg, Step(cfg, s, e), g)
    ensures GroupFlags(cfg, s, e, g) ==> e.Record? && s.lag == 0
  {
    hide Inv, ReceiveRecord, TimerTriggered;
    if g in s.groups && s.groups[g].groupRetrans.Some? {
      BurstSoon(cfg, s, g);
    }
    match e
    case Record(r) => RecordUnanswered(cfg, s, r, g);
    case Fire(t) => TimerUnanswered(cfg, s, t, g);
    case Tick(_, _) =>
  }

  predicate NeverAnswered(cfg: Config, s: QState, es: seq<Event>, g: Addr)
    decreases |es|
  {
    es == [] || (!Answers(s, es[0], g) && NeverAnswered(cfg, Step(cfg, s, es[0]), es[1..], g))
  }

  /** If time always passes between arming and sending and no burst of the group is answered, no run sends a group query
      for it with the flag. */
  lemma {:induction false} GroupNeverSuppressed(cfg: Config, s: QState, es: seq<Event>, g: Addr)
    requires cfg.Ok() && Inv(cfg, s) && Unanswered(cfg, s, g) && IsRun(cfg, s, es)
    requires AlwaysLate(cfg, s, es) && NeverAnswered(cfg, s, es, g)
    ensures FlaggedGroup(After(cfg, s, es).log, g) == FlaggedGroup(s.log, g)
    decreases |es|
  {
    hide Inv, Step, FlaggedGroup, Unanswered, GroupFlags, Answers;
    if es != [] {
      StepGroupFlags(cfg, s, es[0], g);
      StepUnanswered(cfg, s, es[0], g);
      StepInv(cfg, s, es[0]);
      GroupNeverSuppressed(cfg, Step(cfg, s, es[0]), es[1..], g);
    }
  }
}
