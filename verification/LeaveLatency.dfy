/** How long a leave takes. A query lowers the timers of what it asks for to LLQT, so that without an answer
    the source or the EXCLUDE mode ends then. The RFCs lower a timer to the minimum of its value and LLQT;
    the program sets it to LLQT, so a query can also raise it. */
module LeaveLatency {
  import opened Defs
  import opened MembershipDb
  import opened ReportTables
  import opened QuerierSpec
  import opened QuerierInvariant
  import opened QuerierViews
  import opened SoftState
  import QueryAccounting

  function Min(x: int, y: int): int {
    if x < y then x else y
  }

  // ---------------------------------------------------------------- what a query does to a timer

  lemma SourceQueryTimer(cfg: Config, s: QState, g: Addr, ask: set<Addr>, retransmission: bool, a: Addr)
    requires g in s.groups && a in s.groups[g].requested
    ensures
      var list := s.groups[g].requested;
      SendSourceQuery(cfg, s, g, ask, retransmission).groups[g].requested[a].timer ==
        if a in ask && list[a].count < 1 then Some(NewTimer(s, SourceT, g, cfg.Llqt())) else list[a].timer
  {
    hide SourceQueries;
    assert a in Startable(s.groups[g].requested, ask) <==> a in ask && s.groups[g].requested[a].count < 1;
  }

  lemma GroupQueryKeepsSources(cfg: Config, s: QState, g: Addr)
    requires g in s.groups
    ensures
      var r := SendGroupQuery(cfg, s, g).groups[g];
      && r.requested == s.groups[g].requested
      && r.filterTimer == if s.groups[g].groupRetrans.None? then Some(NewTimer(s, FilterT, g, cfg.Llqt())) else s.groups[g].filterTimer
  {
  }

  lemma TimedSource(cfg: Config, s: QState, g: Addr, row: Row, a: Addr)
    requires g in s.groups && a in s.groups[g].requested && a !in row.refresh
    ensures Timed(cfg, s, g, row).groups[g].requested[a] == s.groups[g].requested[a]
  {
  }

  /** The timer of a source that a row keeps and does not set to MALI. */
  lemma RowTimer(cfg: Config, s: QState, g: Addr, row: Row, a: Addr)
    requires g in s.groups && a in row.x && a !in row.refresh
    ensures
      var was := Listed(s.groups[g].requested, row.x)[a];
      var now := ApplyRow(cfg, s, g, row).groups[g].requested[a];
      if a in row.ask && was.count < 1 then now.timer.Some? && now.timer.value.deadline == s.now + cfg.Llqt()
      else now.timer == was.timer
  {
    hide SendSourceQuery, SendGroupQuery, Timed;
    var s1 := SetLists(s, g, row);
    SourceQueryTimer(cfg, s1, g, row.ask, false, a);
    GroupQueryKeepsSources(cfg, SendSourceQuery(cfg, s1, g, row.ask, false), g);
    TimedSource(cfg, Queried(cfg, s1, g, row), g, row, a);
  }

  /** What a row asks for it keeps and does not set to MALI. */
  lemma AskedAreKept(mode: FilterMode, t: RecordType, x: set<Addr>, y: set<Addr>, list: set<Addr>)
    ensures
      var row := TableRow(mode, t, x, y, list);
      row.ask <= row.x && row.ask !! row.refresh && (row.askGroup ==> !row.refreshFilter)
      && (row.ask != {} && mode.Include? ==> row.ask <= x)
  {
  }

  /** The record is treated by a row of the tables, and this is the row. */
  predicate Treated(cfg: Config, s: QState, r: GroupRecord, row: Row) {
    var s1 := Prepared(cfg, s, r);
    !(s1.groups[r.gaddr].InCompatibilityMode() && r.rtype.Block?) && row == RowFor(s1, r)
  }

  /** Source `a` is known before the record. */
  predicate Known(s: QState, g: Addr, a: Addr) {
    g in s.groups && a in s.groups[g].requested
  }

  /** The deadlines after a record, for the sources that its row keeps and does not set to MALI: those asked
      for and in no retransmission get LLQT, the others keep theirs. */
  lemma RecordTimer(cfg: Config, s: QState, r: GroupRecord, row: Row, a: Addr)
    requires cfg.Ok() && Inv(cfg, s) && Receivable(cfg, r) && Treated(cfg, s, r, row)
    requires a in row.x && a !in row.refresh && (a in row.ask || Known(s, r.gaddr, a))
    ensures
      var g := r.gaddr;
      var s' := ReceiveRecord(cfg, s, r);
      && Known(s', g, a) && s'.groups[g].requested[a].timer.Some?
      && s'.groups[g].requested[a].timer.value.deadline ==
           (if a in row.ask && (Known(s, g, a) ==> s.groups[g].requested[a].count < 1) then s.now + cfg.Llqt()
            else s.groups[g].requested[a].timer.value.deadline)
  {
    hide ApplyRow, Inv, Downgraded, Opened, RowFor;
    var g := r.gaddr;
    var s1 := Prepared(cfg, s, r);
    PreparedFrame(cfg, s, r);
    if a in s1.groups[g].requested {
      AllTimed(cfg, s, g, a);
    }
    RowTimer(cfg, s1, g, row, a);
  }

  lemma AllTimed(cfg: Config, s: QState, g: Addr, a: Addr)
    requires Inv(cfg, s) && Known(s, g, a)
    ensures
      var src := s.groups[g].requested[a];
      src.timer.Some? && (src.count > 0 ==> src.timer.value.deadline <= s.now + cfg.Llqt())
  {
    hide BurstOk, ModeOk;
    assert GroupInv(cfg, s, g);
  }

  // ---------------------------------------------------------------- lowered or raised

  /** The deadline a row gives to a source it asks for, as the tables mean it: the timer of the source, or the
      filter timer for a source that is new in EXCLUDE mode, lowered to LLQT. */
  function MeantEnd(s: QState, g: Addr, a: Addr): int
    requires Known(s, g, a) ==> s.groups[g].requested[a].timer.Some?
    requires !Known(s, g, a) ==> g in s.groups && s.groups[g].filterTimer.Some?
  {
    if Known(s, g, a) then s.groups[g].requested[a].timer.value.deadline else s.groups[g].filterTimer.value.deadline
  }

  lemma MeantEndIsThere(cfg: Config, s: QState, r: GroupRecord, row: Row, a: Addr)
    requires cfg.Ok() && Inv(cfg, s) && Receivable(cfg, r) && Treated(cfg, s, r, row) && a in row.ask
    ensures Known(s, r.gaddr, a) ==> s.groups[r.gaddr].requested[a].timer.Some?
    ensures !Known(s, r.gaddr, a) ==> r.gaddr in s.groups && s.groups[r.gaddr].filterTimer.Some?
  {
    hide SourcesOk, BurstOk, CompatOk, Downgraded, Opened, TableRow;
    var g := r.gaddr;
    PreparedFrame(cfg, s, r);
    var gi := Prepared(cfg, s, r).groups[g];
    var list := if gi.InCompatibilityMode() && r.rtype.ToEx? then {} else r.sources;
    AskedAreKept(gi.mode, r.rtype, gi.requested.Keys, gi.excluded.Keys, list);
    if Known(s, g, a) {
      AllTimed(cfg, s, g, a);
    } else {
      assert g in s.groups ==> GroupInv(cfg, s, g);
    }
  }

  /** For every row and every source it asks for: the timer is the minimum of its value and LLQT afterwards if
      and only if the source is in a retransmission already or has LLQT or more left. */
  lemma LoweredAsMeant(cfg: Config, s: QState, r: GroupRecord, row: Row, a: Addr)
    requires cfg.Ok() && Inv(cfg, s) && Receivable(cfg, r) && Treated(cfg, s, r, row) && a in row.ask
    ensures Known(s, r.gaddr, a) ==> s.groups[r.gaddr].requested[a].timer.Some?
    ensures !Known(s, r.gaddr, a) ==> r.gaddr in s.groups && s.groups[r.gaddr].filterTimer.Some?
    ensures
      var g := r.gaddr;
      var s' := ReceiveRecord(cfg, s, r);
      && Known(s', g, a) && s'.groups[g].requested[a].timer.Some?
      && (s'.groups[g].requested[a].timer.value.deadline == Min(MeantEnd(s, g, a), s.now + cfg.Llqt()) <==>
            || (Known(s, g, a) && s.groups[g].requested[a].count > 0)
            || s.now + cfg.Llqt() <= MeantEnd(s, g, a))
  {
    hide ReceiveRecord, Inv, Downgraded, Opened, TableRow;
    MeantEndIsThere(cfg, s, r, row, a);
    AskedOfRow(cfg, s, r, row);
    RecordTimer(cfg, s, r, row, a);
    if Known(s, r.gaddr, a) {
      AllTimed(cfg, s, r.gaddr, a);
    }
  }

  lemma AskedOfRow(cfg: Config, s: QState, r: GroupRecord, row: Row)
    requires Treated(cfg, s, r, row)
    ensures row.ask <= row.x && row.ask !! row.refresh
  {
    hide Downgraded, Opened, TableRow;
    var gi := Prepared(cfg, s, r).groups[r.gaddr];
    var list := if gi.InCompatibilityMode() && r.rtype.ToEx? then {} else r.sources;
    AskedAreKept(gi.mode, r.rtype, gi.requested.Keys, gi.excluded.Keys, list);
  }

  /** A record that does not refresh a source gives it more time if and only if it asks for the source while
      the source is in no retransmission and has less than LLQT left. */
  lemma RaisedByQuery(cfg: Config, s: QState, r: GroupRecord, row: Row, a: Addr)
    requires cfg.Ok() && Inv(cfg, s) && Receivable(cfg, r) && Treated(cfg, s, r, row)
    requires Known(s, r.gaddr, a) && a in row.x && a !in row.refresh
    ensures s.groups[r.gaddr].requested[a].timer.Some?
    ensures
      var was := s.groups[r.gaddr].requested[a];
      var s' := ReceiveRecord(cfg, s, r);
      && Known(s', r.gaddr, a) && s'.groups[r.gaddr].requested[a].timer.Some?
      && (s'.groups[r.gaddr].requested[a].timer.value.deadline > was.timer.value.deadline <==>
            a in row.ask && was.count < 1 && was.timer.value.deadline < s.now + cfg.Llqt())
  {
    hide ReceiveRecord, Inv, Downgraded, Opened, TableRow, RowFor;
    AllTimed(cfg, s, r.gaddr, a);
    RecordTimer(cfg, s, r, row, a);
  }

  /** The group query of TO_IN in EXCLUDE mode: the filter timer is the minimum of its value and LLQT afterwards
      if and only if no burst timer is held and LLQT or more was left, or one is held and no more was left. */
  lemma FilterLoweredAsMeant(cfg: Config, s: QState, r: GroupRecord)
    requires cfg.Ok() && Inv(cfg, s) && Receivable(cfg, r) && r.rtype.ToIn?
    requires r.gaddr in s.groups && s.groups[r.gaddr].mode.Exclude?
    ensures s.groups[r.gaddr].filterTimer.Some?
    ensures
      var gi := s.groups[r.gaddr];
      var s' := ReceiveRecord(cfg, s, r);
      var meant := Min(gi.filterTimer.value.deadline, s.now + cfg.Llqt());
      && r.gaddr in s'.groups && s'.groups[r.gaddr].mode.Exclude? && s'.groups[r.gaddr].filterTimer.Some?
      && s'.groups[r.gaddr].filterTimer.value.deadline ==
           (if gi.groupRetrans.None? then s.now + cfg.Llqt() else gi.filterTimer.value.deadline)
      && (s'.groups[r.gaddr].filterTimer.value.deadline == meant <==>
            if gi.groupRetrans.None? then s.now + cfg.Llqt() <= gi.filterTimer.value.deadline
            else gi.filterTimer.value.deadline <= s.now + cfg.Llqt())
  {
    hide ApplyRow, Inv, Downgraded, Opened;
    FilterRuns(cfg, s, r.gaddr);
    PreparedFrame(cfg, s, r);
    var s1 := Prepared(cfg, s, r);
    ToInFilterTimer(cfg, s1, r.gaddr, RowFor(s1, r));
  }

  lemma ToInFilterTimer(cfg: Config, s: QState, g: Addr, row: Row)
    requires g in s.groups && row.askGroup && !row.refreshFilter
    ensures
      var gi := ApplyRow(cfg, s, g, row).groups[g];
      if s.groups[g].groupRetrans.None? then gi.filterTimer.Some? && gi.filterTimer.value.deadline == s.now + cfg.Llqt()
      else gi.filterTimer == s.groups[g].filterTimer
  {
    hide SendSourceQuery, SendGroupQuery;
    var s1 := SetLists(s, g, row);
    SourceQueryKeepsGroup(cfg, s1, g, row.ask);
    GroupQueryKeepsSources(cfg, SendSourceQuery(cfg, s1, g, row.ask, false), g);
  }

  lemma SourceQueryKeepsGroup(cfg: Config, s: QState, g: Addr, ask: set<Addr>)
    requires g in s.groups
    ensures
      var r := SendSourceQuery(cfg, s, g, ask, false).groups[g];
      r.filterTimer == s.groups[g].filterTimer && r.groupRetrans == s.groups[g].groupRetrans
  {
  }

  // ---------------------------------------------------------------- a leave without an answer

  /** Source `a` ends by `bound`: while it is requested its timer does, and in EXCLUDE mode it is excluded
      after that. */
  ghost predicate EndsBy(s: QState, g: Addr, a: Addr, bound: int) {
    g in s.groups ==>
      var gi := s.groups[g];
      && (a in gi.requested ==> gi.requested[a].timer.Some? && gi.requested[a].timer.value.deadline <= bound)
      && (gi.mode.Exclude? && a !in gi.requested ==> a in gi.excluded)
  }

  /** EXCLUDE mode ends by `bound`. */
  ghost predicate ExcludeEndsBy(s: QState, g: Addr, bound: int) {
    g in s.groups && s.groups[g].mode.Exclude? ==>
      s.groups[g].filterTimer.Some? && s.groups[g].filterTimer.value.deadline <= bound
  }

  predicate NoOlderHost(s: QState, g: Addr) {
    g in s.groups ==> s.groups[g].olderHost.None?
  }

  lemma RetransmissionKeeps(cfg: Config, s: QState, g: Addr)
    requires g in s.groups
    ensures
      var r := SendSourceQuery(cfg, s, g, {}, true).groups[g];
      var gi := s.groups[g];
      && r.mode == gi.mode && r.excluded == gi.excluded && r.olderHost == gi.olderHost && r.filterTimer == gi.filterTimer
      && r.requested.Keys == gi.requested.Keys && forall a | a in gi.requested :: r.requested[a].timer == gi.requested[a].timer
  {
  }

  lemma BurstKeeps(cfg: Config, s: QState, g: Addr)
    requires g in s.groups && s.groups[g].groupRetrans.Some?
    ensures
      var r := SendGroupQuery(cfg, s, g).groups[g];
      var gi := s.groups[g];
      && r.mode == gi.mode && r.excluded == gi.excluded && r.olderHost == gi.olderHost && r.filterTimer == gi.filterTimer
      && r.requested == gi.requested
  {
  }

  /** What ends by `bound` in `s` still does in `s'`. */
  ghost predicate EndsKept(s: QState, s': QState, g: Addr, a: Addr, bound: int) {
    && (EndsBy(s, g, a, bound) ==> EndsBy(s', g, a, bound))
    && (ExcludeEndsBy(s, g, bound) ==> ExcludeEndsBy(s', g, bound))
    && (NoOlderHost(s, g) ==> NoOlderHost(s', g))
  }

  lemma FilterFiredEnds(s: QState, t: Timer, g: Addr, a: Addr, bound: int)
    requires t.gaddr in s.groups
    ensures EndsKept(s, FilterTimerFired(s, t.gaddr, t), g, a, bound)
  {
  }

  lemma SourceFiredEnds(s: QState, t: Timer, g: Addr, a: Addr, bound: int)
    requires t.gaddr in s.groups
    ensures EndsKept(s, SourceTimerFired(s, t.gaddr, t), g, a, bound)
  {
  }

  lemma OlderHostFiredEnds(cfg: Config, s: QState, t: Timer, g: Addr, a: Addr, bound: int)
    requires t.gaddr in s.groups
    ensures EndsKept(s, OlderHostTimerFired(cfg, s, t.gaddr, t), g, a, bound)
  {
  }

  lemma QueriesEnd(cfg: Config, s: QState, h: Addr, g: Addr, a: Addr, bound: int)
    requires h in s.groups
    ensures EndsKept(s, SendSourceQuery(cfg, s, h, {}, true), g, a, bound)
    ensures s.groups[h].groupRetrans.Some? ==> EndsKept(s, SendGroupQuery(cfg, s, h), g, a, bound)
  {
    hide SendSourceQuery, SendGroupQuery;
    RetransmissionKeeps(cfg, s, h);
    if s.groups[h].groupRetrans.Some? {
      BurstKeeps(cfg, s, h);
    }
  }

  lemma TimerEnds(cfg: Config, s: QState, t: Timer, g: Addr, a: Addr, bound: int)
    ensures EndsKept(s, TimerTriggered(cfg, s, t), g, a, bound)
  {
    hide SendSourceQuery, SendGroupQuery, FilterTimerFired, SourceTimerFired, OlderHostTimerFired;
    var s0 := s.(pending := s.pending - {t});
    if t.gaddr in s0.groups {
      FilterFiredEnds(s0, t, g, a, bound);
      SourceFiredEnds(s0, t, g, a, bound);
      OlderHostFiredEnds(cfg, s0, t, g, a, bound);
      QueriesEnd(cfg, s0, t.gaddr, g, a, bound);
    }
  }

  lemma {:induction false} RunEnds(cfg: Config, s: QState, es: seq<Event>, g: Addr, a: Addr, bound: int)
    requires forall i | 0 <= i < |es| :: !Concerns(es[i], g)
    ensures EndsKept(s, After(cfg, s, es), g, a, bound)
    decreases |es|
  {
    hide ReceiveRecord, TimerTriggered;
    if es != [] {
      match es[0] {
        case Record(r) => OtherRecordKeeps(cfg, s, r, g);
        case Fire(t) => TimerEnds(cfg, s, t, g, a, bound);
        case Tick(_, _) =>
      }
      RunEnds(cfg, Step(cfg, s, es[0]), es[1..], g, a, bound);
    }
  }

  /** Leave latency of a source: if a record asks for a source and no record for the group follows for LLQT,
      the source is no longer requested once the due timers are delivered, and it is admitted if and only if an
      older host makes the group admit everything. */
  lemma AskedSourceLeaves(cfg: Config, s: QState, r: GroupRecord, row: Row, es: seq<Event>, a: Addr)
    requires cfg.Ok() && Inv(cfg, s) && Receivable(cfg, r) && Treated(cfg, s, r, row) && a in row.ask
    requires IsRun(cfg, ReceiveRecord(cfg, s, r), es) && forall i | 0 <= i < |es| :: !Concerns(es[i], r.gaddr)
    requires
      var s' := After(cfg, ReceiveRecord(cfg, s, r), es);
      Quiet(s') && s.now + cfg.Llqt() <= s'.now
    ensures
      var s' := After(cfg, ReceiveRecord(cfg, s, r), es);
      && !Known(s', r.gaddr, a)
      && (s'.Membership(r.gaddr).Admits(a) <==> !NoOlderHost(s', r.gaddr))
      && (NoOlderHost(ReceiveRecord(cfg, s, r), r.gaddr) ==> NoOlderHost(s', r.gaddr))
  {
    hide ReceiveRecord, Inv, After, IsRun, RowFor;
    var g, bound := r.gaddr, s.now + cfg.Llqt();
    var s1 := ReceiveRecord(cfg, s, r);
    var s' := After(cfg, s1, es);
    AskedOfRow(cfg, s, r, row);
    RecordTimer(cfg, s, r, row, a);
    if Known(s, g, a) {
      AllTimed(cfg, s, g, a);
    }
    RunEnds(cfg, s1, es, g, a, bound);
    StepInv(cfg, s, Record(r));
    RunInv(cfg, s1, es);
    if Known(s', g, a) {
      RequestedRuns(cfg, s', g, a);
    }
  }

  lemma RequestedRuns(cfg: Config, s: QState, g: Addr, a: Addr)
    requires Inv(cfg, s) && Known(s, g, a)
    ensures s.groups[g].requested[a].timer.Some? && s.groups[g].requested[a].timer.value in s.pending
  {
    hide BurstOk, ModeOk;
    assert GroupInv(cfg, s, g);
  }

  lemma FilterRuns(cfg: Config, s: QState, g: Addr)
    requires Inv(cfg, s) && g in s.groups && s.groups[g].mode.Exclude?
    ensures s.groups[g].filterTimer.Some? && s.groups[g].filterTimer.value in s.pending
  {
    hide BurstOk, SourcesOk;
    assert GroupInv(cfg, s, g);
  }

  /** When EXCLUDE mode ends after TO_IN without an answer: LLQT later if no burst timer is held, otherwise when
      the filter timer ends that was running before. */
  function ExcludeEnd(cfg: Config, s: QState, g: Addr): int
    requires g in s.groups && s.groups[g].filterTimer.Some?
  {
    if s.groups[g].groupRetrans.None? then s.now + cfg.Llqt() else s.groups[g].filterTimer.value.deadline
  }

  /** The group is in EXCLUDE mode under filter timer `ft`. */
  predicate ExcludedBy(s: QState, g: Addr, ft: Timer) {
    g in s.groups && s.groups[g].mode.Exclude? && s.groups[g].filterTimer == Some(ft)
  }

  lemma ExcludedAfterExpiry(cfg: Config, s: QState, h: Addr, t: Timer, g: Addr, ft: Timer)
    requires h in s.groups && ExcludedBy(s, g, ft) && t != ft
    ensures ExcludedBy(FilterTimerFired(s, h, t), g, ft) && ExcludedBy(OlderHostTimerFired(cfg, s, h, t), g, ft)
    ensures ExcludedBy(SourceTimerFired(s, h, t), g, ft)
  {
  }

  lemma ExcludedAfterTimer(cfg: Config, s: QState, t: Timer, g: Addr, ft: Timer)
    requires ExcludedBy(s, g, ft) && t != ft
    ensures ExcludedBy(TimerTriggered(cfg, s, t), g, ft)
  {
    hide SendSourceQuery, SendGroupQuery, FilterTimerFired, SourceTimerFired, OlderHostTimerFired;
    var s0 := s.(pending := s.pending - {t});
    if t.gaddr in s0.groups {
      ExcludedAfterExpiry(cfg, s0, t.gaddr, t, g, ft);
      RetransmissionKeeps(cfg, s0, t.gaddr);
      if s0.groups[t.gaddr].groupRetrans.Some? {
        BurstKeeps(cfg, s0, t.gaddr);
      }
    }
  }

  /** EXCLUDE mode lasts as long as its filter timer if no record for the group arrives. */
  lemma {:induction false} ExcludedAfterRun(cfg: Config, s: QState, es: seq<Event>, g: Addr, ft: Timer)
    requires IsRun(cfg, s, es) && forall i | 0 <= i < |es| :: !Concerns(es[i], g)
    requires ExcludedBy(s, g, ft) && After(cfg, s, es).now < ft.deadline
    ensures ExcludedBy(After(cfg, s, es), g, ft)
    decreases |es|
  {
    hide TimerTriggered, ReceiveRecord;
    if es != [] {
      var s1 := Step(cfg, s, es[0]);
      TimeGoesOn(cfg, s1, es[1..]);
      match es[0] {
        case Record(r) => OtherRecordKeeps(cfg, s, r, g);
        case Fire(t) =>
          TimerKeepsTime(cfg, s, t);
          ExcludedAfterTimer(cfg, s, t, g, ft);
        case Tick(_, _) =>
      }
      ExcludedAfterRun(cfg, s1, es[1..], g, ft);
    }
  }

  /** The end of EXCLUDE mode, exactly: whenever the due timers are delivered after a TO_IN record that no other
      record for the group follows, the group is out of EXCLUDE mode if and only if that time has come. */
  lemma ExcludeModeEnds(cfg: Config, s: QState, r: GroupRecord, es: seq<Event>)
    requires cfg.Ok() && Inv(cfg, s) && Receivable(cfg, r) && r.rtype.ToIn?
    requires r.gaddr in s.groups && s.groups[r.gaddr].mode.Exclude?
    requires IsRun(cfg, ReceiveRecord(cfg, s, r), es) && forall i | 0 <= i < |es| :: !Concerns(es[i], r.gaddr)
    requires Quiet(After(cfg, ReceiveRecord(cfg, s, r), es))
    ensures s.groups[r.gaddr].filterTimer.Some?
    ensures
      var s' := After(cfg, ReceiveRecord(cfg, s, r), es);
      (r.gaddr in s'.groups ==> s'.groups[r.gaddr].mode.Include?) <==> ExcludeEnd(cfg, s, r.gaddr) <= s'.now
  {
    hide ReceiveRecord, Inv, After, IsRun;
    var g := r.gaddr;
    var s1 := ReceiveRecord(cfg, s, r);
    var s' := After(cfg, s1, es);
    FilterLoweredAsMeant(cfg, s, r);
    var end := ExcludeEnd(cfg, s, g);
    RunEnds(cfg, s1, es, g, 0, end);
    StepInv(cfg, s, Record(r));
    RunInv(cfg, s1, es);
    if g in s'.groups && s'.groups[g].mode.Exclude? {
      FilterRuns(cfg, s', g);
    }
    if s'.now < end {
      ExcludedAfterRun(cfg, s1, es, g, s1.groups[g].filterTimer.value);
    }
  }

  /** Leave latency of EXCLUDE mode: LLQT after a TO_IN record that no other record for the group follows, the group
      is out of EXCLUDE mode if and only if the record held no burst timer or its filter timer had no more than
      LLQT left. */
  lemma ExcludeModeLeaves(cfg: Config, s: QState, r: GroupRecord, es: seq<Event>)
    requires cfg.Ok() && Inv(cfg, s) && Receivable(cfg, r) && r.rtype.ToIn?
    requires r.gaddr in s.groups && s.groups[r.gaddr].mode.Exclude?
    requires IsRun(cfg, ReceiveRecord(cfg, s, r), es) && forall i | 0 <= i < |es| :: !Concerns(es[i], r.gaddr)
    requires
      var s' := After(cfg, ReceiveRecord(cfg, s, r), es);
      Quiet(s') && s'.now == s.now + cfg.Llqt()
    ensures s.groups[r.gaddr].filterTimer.Some?
    ensures
      var gi, s' := s.groups[r.gaddr], After(cfg, ReceiveRecord(cfg, s, r), es);
      (r.gaddr in s'.groups ==> s'.groups[r.gaddr].mode.Include?) <==>
        gi.groupRetrans.None? || gi.filterTimer.value.deadline <= s.now + cfg.Llqt()
  {
    hide ReceiveRecord, Inv, After, IsRun, Quiet;
    ExcludeModeEnds(cfg, s, r, es);
  }

  // ---------------------------------------------------------------- a leave that never takes effect

  /** Source `a` is kept by timer `st` in INCLUDE mode, without older hosts. */
  predicate Held(s: QState, g: Addr, a: Addr, st: Timer) {
    Known(s, g, a) && s.groups[g].requested[a].timer == Some(st) && s.groups[g].mode.Include? && s.groups[g].olderHost.None?
  }

  lemma HeldAfterExpiry(cfg: Config, s: QState, h: Addr, t: Timer, g: Addr, a: Addr, st: Timer)
    requires h in s.groups && Held(s, g, a, st) && t != st
    ensures Held(FilterTimerFired(s, h, t), g, a, st) && Held(OlderHostTimerFired(cfg, s, h, t), g, a, st)
    ensures Held(SourceTimerFired(s, h, t), g, a, st)
  {
    hide SourceTimerFired;
    HeldAfterSourceTimer(s, h, t, g, a, st);
  }

  lemma HeldAfterSourceTimer(s: QState, h: Addr, t: Timer, g: Addr, a: Addr, st: Timer)
    requires h in s.groups && Held(s, g, a, st) && t != st
    ensures Held(SourceTimerFired(s, h, t), g, a, st)
  {
    assert a !in Expired(s.groups[g].requested, t);
  }

  lemma HeldAfterTimer(cfg: Config, s: QState, t: Timer, g: Addr, a: Addr, st: Timer)
    requires Held(s, g, a, st) && t != st
    ensures Held(TimerTriggered(cfg, s, t), g, a, st)
  {
    hide SendSourceQuery, SendGroupQuery, FilterTimerFired, SourceTimerFired, OlderHostTimerFired;
    var s0 := s.(pending := s.pending - {t});
    if t.gaddr in s0.groups {
      HeldAfterExpiry(cfg, s0, t.gaddr, t, g, a, st);
      RetransmissionKeeps(cfg, s0, t.gaddr);
      if s0.groups[t.gaddr].groupRetrans.Some? {
        BurstKeeps(cfg, s0, t.gaddr);
      }
    }
  }

  lemma {:induction false} HeldAfterRun(cfg: Config, s: QState, es: seq<Event>, g: Addr, a: Addr, st: Timer)
    requires cfg.Ok() && Inv(cfg, s) && IsRun(cfg, s, es) && forall i | 0 <= i < |es| :: !es[i].Record?
    requires Held(s, g, a, st) && After(cfg, s, es).now < st.deadline
    ensures Held(After(cfg, s, es), g, a, st) && s.now <= After(cfg, s, es).now
    decreases |es|
  {
    hide TimerTriggered, ReceiveRecord, Inv;
    if es != [] {
      var s1 := Step(cfg, s, es[0]);
      StepInv(cfg, s, es[0]);
      TimeGoesOn(cfg, s1, es[1..]);
      if es[0].Fire? {
        TimerKeepsTime(cfg, s, es[0].t);
        HeldAfterTimer(cfg, s, es[0].t, g, a, st);
      }
      HeldAfterRun(cfg, s1, es[1..], g, a, st);
    }
  }

  /** Once the due timers are delivered, a source with LLQI or less left has no queries to come. */
  lemma QueriesAreOver(cfg: Config, s: QState, g: Addr, a: Addr, st: Timer)
    requires cfg.Ok() && Inv(cfg, s) && Quiet(s) && Held(s, g, a, st) && st.deadline <= s.now + cfg.llqi
    ensures s.groups[g].requested[a].count < 1
  {
    hide BurstOk, ModeOk, CompatOk;
    assert GroupInv(cfg, s, g);
    var gi := s.groups[g];
    assert gi.requested[a].count >= 1 ==> Span(gi.requested[a].count, cfg.llqi) >= cfg.llqi;
  }

  function BlockOf(cfg: Config, g: Addr, a: Addr): GroupRecord {
    GroupRecord(Block, g, {a}, cfg.version)
  }

  /** BLOCK for a source that is in no retransmission gives it LLQT. */
  lemma BlockHolds(cfg: Config, s: QState, g: Addr, a: Addr, st: Timer) returns (st': Timer)
    requires cfg.Ok() && Inv(cfg, s) && Held(s, g, a, st) && s.groups[g].requested[a].count < 1
    ensures
      var s' := Step(cfg, s, Record(BlockOf(cfg, g, a)));
      Enabled(cfg, s, Record(BlockOf(cfg, g, a))) && Inv(cfg, s') && s'.now == s.now && Held(s', g, a, st') && st'.deadline == s.now + cfg.Llqt()
  {
    hide ApplyRow, Inv;
    var r := BlockOf(cfg, g, a);
    var s1 := Prepared(cfg, s, r);
    assert s1 == s;
    CompatNewest(cfg, s, g);
    var row := RowFor(s, r);
    StepInv(cfg, s, Record(r));
    RecordTimer(cfg, s, r, row, a);
    var s' := ReceiveRecord(cfg, s, r);
    st' := s'.groups[g].requested[a].timer.value;
  }

  lemma CompatNewest(cfg: Config, s: QState, g: Addr)
    requires Inv(cfg, s) && g in s.groups && s.groups[g].olderHost.None?
    ensures !s.groups[g].InCompatibilityMode()
  {
    hide BurstOk, ModeOk, SourcesOk;
    assert GroupInv(cfg, s, g);
  }

  /** IS_IN for one source of an unknown group. */
  lemma JoinHolds(cfg: Config, g: Addr, a: Addr) returns (st: Timer)
    requires cfg.Ok()
    ensures
      var r := GroupRecord(IsIn, g, {a}, cfg.version);
      var s := Step(cfg, EMPTY, Record(r));
      && Enabled(cfg, EMPTY, Record(r)) && Inv(cfg, EMPTY) && Inv(cfg, s) && s.now == 0
      && Held(s, g, a, st) && s.groups[g].requested[a].count < 1 && st.deadline == cfg.mali
      && s.groups[g].requested.Keys == {a} && s.lag == 0
  {
    hide ApplyRow;
    var r := GroupRecord(IsIn, g, {a}, cfg.version);
    StepInv(cfg, EMPTY, Record(r));
    var s1 := Prepared(cfg, EMPTY, r);
    QuietRowIs(cfg, s1, g, RowFor(s1, r));
    var s := Step(cfg, EMPTY, Record(r));
    st := s.groups[g].requested[a].timer.value;
  }

  /** One more BLOCK, and then time up to one millisecond before the source would go. */
  lemma HeldOnceMore(cfg: Config, s: QState, g: Addr, a: Addr, st: Timer) returns (es: seq<Event>, st': Timer)
    requires cfg.Ok() && 2 <= cfg.Llqt() && Inv(cfg, s) && Held(s, g, a, st) && s.groups[g].requested[a].count < 1
    ensures IsRun(cfg, s, es) && forall i | 0 <= i < |es| && es[i].Record? :: es[i].r == BlockOf(cfg, g, a)
    ensures
      var s' := After(cfg, s, es);
      Inv(cfg, s') && s.now < s'.now && Held(s', g, a, st') && s'.groups[g].requested[a].count < 1
  {
    hide Inv, Step, Enabled;
    var block := Record(BlockOf(cfg, g, a));
    st' := BlockHolds(cfg, s, g, a, st);
    var s1 := Step(cfg, s, block);
    var rest := TimePasses(cfg, s1, s.now + cfg.Llqt() - 1);
    HeldAfterRun(cfg, s1, rest, g, a, st');
    RunInv(cfg, s1, rest);
    QueriesAreOver(cfg, After(cfg, s1, rest), g, a, st');
    es := [block] + rest;
    assert es[1..] == rest;
  }

  /** A leave that never takes effect: while nobody wants the source any more and some host repeats BLOCK, the
      source stays admitted, for any length of time. */
  lemma {:induction false} HeldForEver(cfg: Config, s: QState, g: Addr, a: Addr, st: Timer, n: nat) returns (es: seq<Event>)
    requires cfg.Ok() && 2 <= cfg.Llqt() && Inv(cfg, s) && Held(s, g, a, st) && s.groups[g].requested[a].count < 1
    ensures IsRun(cfg, s, es) && forall i | 0 <= i < |es| && es[i].Record? :: es[i].r == BlockOf(cfg, g, a)
    ensures s.now + n <= After(cfg, s, es).now && After(cfg, s, es).Membership(g).Admits(a)
    decreases n
  {
    hide Inv, Step, Enabled, IsRun, After;
    if n == 0 {
      es := [];
      NothingRuns(cfg, s);
    } else {
      var first, st' := HeldOnceMore(cfg, s, g, a, st);
      var rest := HeldForEver(cfg, After(cfg, s, first), g, a, st', n - 1);
      RunAppend(cfg, s, first, rest);
      es := first + rest;
    }
  }

  lemma NothingRuns(cfg: Config, s: QState)
    ensures IsRun(cfg, s, []) && After(cfg, s, []) == s
  {
  }

  /** From the start: one host joins a source, and BLOCK for it keeps the source for any length of time. */
  lemma RepeatedBlockKeepsSource(cfg: Config, g: Addr, a: Addr, n: nat) returns (es: seq<Event>)
    requires cfg.Ok() && 2 <= cfg.Llqt()
    ensures IsRun(cfg, EMPTY, es) && es != [] && es[0] == Record(GroupRecord(IsIn, g, {a}, cfg.version))
    ensures forall i | 1 <= i < |es| && es[i].Record? :: es[i].r == BlockOf(cfg, g, a)
    ensures n <= After(cfg, EMPTY, es).now && After(cfg, EMPTY, es).Membership(g).Admits(a)
  {
    hide Inv, Step, Enabled;
    var join := Record(GroupRecord(IsIn, g, {a}, cfg.version));
    var st := JoinHolds(cfg, g, a);
    var rest := HeldForEver(cfg, Step(cfg, EMPTY, join), g, a, st, n);
    es := [join] + rest;
    assert es[1..] == rest;
  }

  /** The shortest such run, with LLQC at 2: IS_IN({a}), BLOCK({a}), LLQI later, when the last query is sent, the
      second BLOCK({a}) moves the end of the source from 2 * LLQI to 3 * LLQI. */
  lemma SecondBlockRaises(cfg: Config, g: Addr, a: Addr) returns (es: seq<Event>)
    requires cfg.Ok() && cfg.llqc == 2
    ensures IsRun(cfg, EMPTY, es) && |es| >= 3
    ensures es[0] == Record(GroupRecord(IsIn, g, {a}, cfg.version)) && es[1] == Record(BlockOf(cfg, g, a))
    ensures es[|es| - 1] == Record(BlockOf(cfg, g, a)) && forall i | 2 <= i < |es| - 1 :: !es[i].Record?
    ensures
      var s, s' := After(cfg, EMPTY, es[..|es| - 1]), After(cfg, EMPTY, es);
      && s.now == cfg.llqi && Known(s, g, a) && Known(s', g, a)
      && s.groups[g].requested[a].timer.Some? && s.groups[g].requested[a].timer.value.deadline == 2 * cfg.llqi
      && s'.groups[g].requested[a].timer.Some? && s'.groups[g].requested[a].timer.value.deadline == 3 * cfg.llqi
  {
    hide Inv, Step, Enabled;
    SpanIsProduct(2, cfg.llqi);
    var join, block := Record(GroupRecord(IsIn, g, {a}, cfg.version)), Record(BlockOf(cfg, g, a));
    var st0 := JoinHolds(cfg, g, a);
    var s0 := Step(cfg, EMPTY, join);
    var st1 := BlockHolds(cfg, s0, g, a, st0);
    var s1 := Step(cfg, s0, block);
    var wait := TimePasses(cfg, s1, cfg.llqi);
    var s2 := After(cfg, s1, wait);
    HeldAfterRun(cfg, s1, wait, g, a, st1);
    RunInv(cfg, s1, wait);
    QueriesAreOver(cfg, s2, g, a, st1);
    var st2 := BlockHolds(cfg, s2, g, a, st1);
    var front := [join, block] + wait;
    assert front[1..] == [block] + wait && ([block] + wait)[1..] == wait;
    RunAppend(cfg, EMPTY, front, [block]);
    es := front + [block];
    assert es[..|es| - 1] == front;
  }

  // ---------------------------------------------------------------- a filter timer that is raised

  /** The group is in EXCLUDE mode under filter timer `ft` and idle. */
  predicate Excluding(s: QState, g: Addr, ft: Timer) {
    ExcludedBy(s, g, ft) && s.groups[g].groupRetrans.None?
  }

  lemma ExcludingAfterExpiry(cfg: Config, s: QState, h: Addr, t: Timer, g: Addr, ft: Timer)
    requires h in s.groups && Excluding(s, g, ft) && t != ft
    ensures Excluding(FilterTimerFired(s, h, t), g, ft) && Excluding(OlderHostTimerFired(cfg, s, h, t), g, ft)
    ensures Excluding(SourceTimerFired(s, h, t), g, ft)
  {
  }

  lemma ExcludingAfterTimer(cfg: Config, s: QState, t: Timer, g: Addr, ft: Timer)
    requires Excluding(s, g, ft) && t != ft
    ensures Excluding(TimerTriggered(cfg, s, t), g, ft)
  {
    hide SendSourceQuery, SendGroupQuery, FilterTimerFired, SourceTimerFired, OlderHostTimerFired;
    var s0 := s.(pending := s.pending - {t});
    if t.gaddr in s0.groups {
      ExcludingAfterExpiry(cfg, s0, t.gaddr, t, g, ft);
      RetransmissionKeeps(cfg, s0, t.gaddr);
      RetransmissionKeepsBurst(cfg, s0, t.gaddr);
    }
  }

  lemma RetransmissionKeepsBurst(cfg: Config, s: QState, g: Addr)
    requires g in s.groups
    ensures SendSourceQuery(cfg, s, g, {}, true).groups[g].groupRetrans == s.groups[g].groupRetrans
  {
  }

  lemma {:induction false} ExcludingAfterRun(cfg: Config, s: QState, es: seq<Event>, g: Addr, ft: Timer)
    requires cfg.Ok() && Inv(cfg, s) && IsRun(cfg, s, es) && forall i | 0 <= i < |es| :: !es[i].Record?
    requires Excluding(s, g, ft) && After(cfg, s, es).now < ft.deadline
    ensures Excluding(After(cfg, s, es), g, ft)
    decreases |es|
  {
    hide TimerTriggered, ReceiveRecord, Inv;
    if es != [] {
      var s1 := Step(cfg, s, es[0]);
      StepInv(cfg, s, es[0]);
      TimeGoesOn(cfg, s1, es[1..]);
      if es[0].Fire? {
        TimerKeepsTime(cfg, s, es[0].t);
        ExcludingAfterTimer(cfg, s, es[0].t, g, ft);
      }
      ExcludingAfterRun(cfg, s1, es[1..], g, ft);
    }
  }

  /** IS_EX({}), and TO_IN({}) one millisecond before the filter timer ends: the group query that is to shorten
      the membership makes it last until LLQT - 1 after the filter timer would have ended. */
  lemma ToInRaisesFilter(cfg: Config, g: Addr) returns (es: seq<Event>)
    requires cfg.Ok() && 2 <= cfg.Llqt()
    ensures IsRun(cfg, EMPTY, es) && |es| >= 2 && es[0] == Record(GroupRecord(IsEx, g, {}, cfg.version))
    ensures es[|es| - 1] == Record(GroupRecord(ToIn, g, {}, cfg.version)) && forall i | 1 <= i < |es| - 1 :: !es[i].Record?
    ensures
      var s, s' := After(cfg, EMPTY, es[..|es| - 1]), After(cfg, EMPTY, es);
      && g in s.groups && s.groups[g].filterTimer.Some? && s.groups[g].filterTimer.value.deadline == cfg.mali
      && g in s'.groups && s'.groups[g].filterTimer.Some? && s'.groups[g].filterTimer.value.deadline == cfg.mali - 1 + cfg.Llqt()
  {
    hide Inv, ReceiveRecord, TimerTriggered;
    var join, leave := GroupRecord(IsEx, g, {}, cfg.version), GroupRecord(ToIn, g, {}, cfg.version);
    var ft := ExcludeJoin(cfg, g);
    var s0 := Step(cfg, EMPTY, Record(join));
    var wait := TimePasses(cfg, s0, cfg.mali - 1);
    var s1 := After(cfg, s0, wait);
    ExcludingAfterRun(cfg, s0, wait, g, ft);
    RunInv(cfg, s0, wait);
    FilterLoweredAsMeant(cfg, s1, leave);
    var front := [Record(join)] + wait;
    assert front[1..] == wait;
    RunAppend(cfg, EMPTY, front, [Record(leave)]);
    es := front + [Record(leave)];
    assert es[..|es| - 1] == front;
  }

  /** A record that asks nobody: the lists are set, then the timers. */
  lemma QuietRowIs(cfg: Config, s: QState, g: Addr, row: Row)
    requires g in s.groups && row.ask == {} && !row.askGroup
    ensures
      var s1 := Timed(cfg, SetLists(s, g, row), g, row);
      ApplyRow(cfg, s, g, row) == if row.notify then Notify(s1, g) else s1
  {
  }

  lemma ExcludeJoin(cfg: Config, g: Addr) returns (ft: Timer)
    requires cfg.Ok()
    ensures
      var r := GroupRecord(IsEx, g, {}, cfg.version);
      var s := Step(cfg, EMPTY, Record(r));
      && Enabled(cfg, EMPTY, Record(r)) && Inv(cfg, EMPTY) && Inv(cfg, s) && s.now == 0
      && Excluding(s, g, ft) && ft.deadline == cfg.mali
  {
    hide ApplyRow;
    var r := GroupRecord(IsEx, g, {}, cfg.version);
    StepInv(cfg, EMPTY, Record(r));
    var s1 := Prepared(cfg, EMPTY, r);
    QuietRowIs(cfg, s1, g, RowFor(s1, r));
    var s := Step(cfg, EMPTY, Record(r));
    ft := s.groups[g].filterTimer.value;
  }

  // ---------------------------------------------------------------- a leave that is ignored

  /** IS_EX({}) for a group in EXCLUDE({},{}) sets the filter timer and changes nothing else. */
  lemma IsExOfNobody(cfg: Config, s: QState, g: Addr)
    requires cfg.Ok() && g in s.groups
    requires var gi := s.groups[g]; gi.mode.Exclude? && gi.requested == map[] && gi.excluded == map[] && gi.compat == cfg.version
    ensures ReceiveRecord(cfg, s, GroupRecord(IsEx, g, {}, cfg.version)) == Notify(RefreshFilter(cfg, s, g), g)
  {
    hide RefreshFilter;
    var gi := s.groups[g];
    var row := ExcludeRow(IsEx, {}, {}, {});
    assert RowFor(s, GroupRecord(IsEx, g, {}, cfg.version)) == row;
    assert s.groups[g := gi] == s.groups;
    assert SetLists(s, g, row) == s;
    QuietRowIs(cfg, s, g, row);
  }

  /** The burst of a group in EXCLUDE({},{}) was answered: the filter timer `ft` is new, the stale ones are `stale`.
      The timer of the burst is held as long as nobody else sends TO_IN, also when its queries are over. */
  ghost predicate Answered(cfg: Config, s: QState, g: Addr, ft: Timer, stale: set<Timer>, bound: int) {
    && g in s.groups && s.groups.Keys == {g}
    && var gi := s.groups[g];
    && gi.mode.Exclude? && gi.requested == map[] && gi.excluded == map[] && gi.compat == cfg.version
    && gi.olderHost.None? && gi.sourceRetrans.None? && gi.filterTimer == Some(ft) && gi.groupRetrans.Some?
    && var rt := gi.groupRetrans.value;
    && rt.kind.RetGroupT? && rt.gaddr == g && ft.kind.FilterT? && s.pending <= stale + {ft, rt}
    && (forall t | t in stale :: t.kind.FilterT? && t != ft)
    && (rt in s.pending ==> 1 <= gi.groupCount && rt.deadline + Span(gi.groupCount, cfg.llqi) <= bound)
  }

  lemma AnsweredAfterTimer(cfg: Config, s: QState, t: Timer, g: Addr, ft: Timer, stale: set<Timer>, bound: int)
    requires cfg.Ok() && Answered(cfg, s, g, ft, stale, bound) && t in s.pending && t != ft && s.now <= t.deadline <= s.now
    ensures Answered(cfg, TimerTriggered(cfg, s, t), g, ft, stale, bound)
  {
    var s0 := s.(pending := s.pending - {t});
    var gi := s.groups[g];
    if t in stale {
      assert !gi.Holds(t);
      assert !s0.InUse(t);
    } else {
      assert gi.Holds(t);
    }
  }

  lemma {:induction false} AnsweredAfterRun(cfg: Config, s: QState, es: seq<Event>, g: Addr, ft: Timer, stale: set<Timer>, bound: int)
    requires cfg.Ok() && Inv(cfg, s) && IsRun(cfg, s, es) && forall i | 0 <= i < |es| :: !es[i].Record?
    requires Answered(cfg, s, g, ft, stale, bound) && After(cfg, s, es).now < ft.deadline
    ensures Answered(cfg, After(cfg, s, es), g, ft, stale, bound)
    decreases |es|
  {
    hide TimerTriggered, ReceiveRecord, GroupInv;
    if es != [] {
      var s1 := Step(cfg, s, es[0]);
      StepInv(cfg, s, es[0]);
      TimeGoesOn(cfg, s1, es[1..]);
      if es[0].Fire? {
        TimerKeepsTime(cfg, s, es[0].t);
        AnsweredAfterTimer(cfg, s, es[0].t, g, ft, stale, bound);
      }
      AnsweredAfterRun(cfg, s1, es[1..], g, ft, stale, bound);
    }
  }

  /** IS_EX({}), TO_IN({}), IS_EX({}) a millisecond apart: a host joins, another one leaves, the first answers. */
  lemma AnsweredBurst(cfg: Config, g: Addr) returns (es: seq<Event>, ft: Timer, stale: set<Timer>)
    requires cfg.Ok() && 2 <= cfg.llqc && cfg.Llqt() + 1 < cfg.mali
    ensures
      var join, leave := Record(GroupRecord(IsEx, g, {}, cfg.version)), Record(GroupRecord(ToIn, g, {}, cfg.version));
      es == [join, Tick(1, 0), leave, Tick(2, 0), join]
    ensures IsRun(cfg, EMPTY, es)
    ensures
      var s := After(cfg, EMPTY, es);
      && Inv(cfg, s) && s.now == 2 && Answered(cfg, s, g, ft, stale, 1 + cfg.Llqt()) && ft.deadline == 2 + cfg.mali
      && QueryAccounting.DistinctDeadlines(stale) && forall t | t in stale :: 1 + cfg.Llqt() <= t.deadline <= cfg.mali
  {
    hide Step, Enabled, Inv, QueryAccounting.DistinctDeadlines;
    var join, leave := Record(GroupRecord(IsEx, g, {}, cfg.version)), Record(GroupRecord(ToIn, g, {}, cfg.version));
    es := [join, Tick(1, 0), leave, Tick(2, 0), join];
    var s0, ft0 := QueryAccounting.JoinState(cfg, g);
    var s1, rt, ft1 := QueryAccounting.FirstToIn(cfg, s0, g, ft0);
    stale := {ft0, ft1};
    ft := AnswerArrives(cfg, s1, g, rt, ft0, ft1);
    OneEvent(cfg, EMPTY, join);
    TwoEvents(cfg, s0, Tick(1, 0), leave);
    TwoEvents(cfg, s1, Tick(2, 0), join);
    RunAppend(cfg, EMPTY, [join], [Tick(1, 0), leave]);
    RunAppend(cfg, EMPTY, [join, Tick(1, 0), leave], [Tick(2, 0), join]);
    assert [join] + [Tick(1, 0), leave] == [join, Tick(1, 0), leave];
    assert [join, Tick(1, 0), leave] + [Tick(2, 0), join] == es;
    StartInv(cfg);
    RunInv(cfg, EMPTY, es);
  }

  lemma StartInv(cfg: Config)
    ensures Inv(cfg, EMPTY)
  {
  }

  lemma AnswerArrives(cfg: Config, s: QState, g: Addr, rt: Timer, ft0: Timer, ft1: Timer) returns (ft: Timer)
    requires cfg.Ok() && 2 <= cfg.llqc && cfg.Llqt() + 1 < cfg.mali && QueryAccounting.Bursting(cfg, s, g, Some(rt), cfg.llqc - 1)
    requires s.now == 1 && s.pending == {ft0, ft1, rt} && s.groups[g].filterTimer == Some(ft1)
    requires ft0.kind.FilterT? && ft1.kind.FilterT? && rt.kind.RetGroupT? && rt.gaddr == g && rt.deadline == 1 + cfg.llqi
    requires ft0.deadline == cfg.mali && ft1.deadline == 1 + cfg.Llqt() && ft0.id < s.nextId && ft1.id < s.nextId
    ensures
      var join, s0 := Record(GroupRecord(IsEx, g, {}, cfg.version)), Step(cfg, s, Tick(2, 0));
      var s' := Step(cfg, s0, join);
      && Enabled(cfg, s, Tick(2, 0)) && Enabled(cfg, s0, join) && s'.now == 2
      && Answered(cfg, s', g, ft, {ft0, ft1}, 1 + cfg.Llqt()) && ft.deadline == 2 + cfg.mali
    ensures QueryAccounting.DistinctDeadlines({ft0, ft1})
  {
    hide ReceiveRecord;
    SpanMonotone(1, cfg.llqc, cfg.llqi);
    assert Span(cfg.llqc, cfg.llqi) == cfg.llqi + Span(cfg.llqc - 1, cfg.llqi);
    var s0 := Step(cfg, s, Tick(2, 0));
    IsExOfNobody(cfg, s0, g);
    var s' := Step(cfg, s0, Record(GroupRecord(IsEx, g, {}, cfg.version)));
    ft := s'.groups[g].filterTimer.value;
  }

  lemma AnsweredDistinct(cfg: Config, s: QState, g: Addr, ft: Timer, stale: set<Timer>)
    requires cfg.Ok() && Answered(cfg, s, g, ft, stale, 1 + cfg.Llqt()) && ft.deadline == 2 + cfg.mali
    requires QueryAccounting.DistinctDeadlines(stale) && forall t | t in stale :: 1 + cfg.Llqt() <= t.deadline <= cfg.mali
    requires cfg.Llqt() + 1 < cfg.mali
    ensures QueryAccounting.DistinctDeadlines(s.pending)
  {
    var gi := s.groups[g];
    assert 1 <= gi.groupCount ==> Span(gi.groupCount, cfg.llqi) >= cfg.llqi;
  }

  /** A leave that is ignored, from the start: a host joins, another one leaves, the first answers, so EXCLUDE mode
      lasts until 2 + MALI. Whenever the first host leaves as well after that, at time `at`, within the burst or long
      after its last query, and nobody answers, the group is still in EXCLUDE mode LLQT later. No two timers share a
      deadline when the host leaves, nor afterwards if the burst is over. */
  lemma LeaveIsIgnored(cfg: Config, g: Addr, at: nat) returns (wait: seq<Event>, es: seq<Event>, rest: seq<Event>)
    requires cfg.Ok() && 2 <= cfg.llqc && cfg.Llqt() + 1 < cfg.mali && 2 <= at && at + cfg.Llqt() < 2 + cfg.mali
    ensures
      var join, leave := Record(GroupRecord(IsEx, g, {}, cfg.version)), Record(GroupRecord(ToIn, g, {}, cfg.version));
      es == [join, Tick(1, 0), leave, Tick(2, 0), join] + wait + [leave]
    ensures (forall i | 0 <= i < |wait| :: !wait[i].Record?) && (forall i | 0 <= i < |rest| :: !rest[i].Record?)
    ensures IsRun(cfg, EMPTY, es + rest)
    ensures
      var s, s1, s' := After(cfg, EMPTY, es[..|es| - 1]), After(cfg, EMPTY, es), After(cfg, EMPTY, es + rest);
      && s.now == at && QueryAccounting.DistinctDeadlines(s.pending)
      && (1 + cfg.Llqt() <= at ==> s1.pending == s.pending)
      && s'.now == at + cfg.Llqt() && Quiet(s') && g in s'.groups && s'.groups[g].mode.Exclude?
  {
    hide Step, Enabled, Inv, Answered, QueryAccounting.DistinctDeadlines;
    var leave := Record(GroupRecord(ToIn, g, {}, cfg.version));
    var front, ft, stale := AnsweredBurst(cfg, g);
    var s0 := After(cfg, EMPTY, front);
    wait := TimePasses(cfg, s0, at);
    var s := After(cfg, s0, wait);
    RunInv(cfg, s0, wait);
    AnsweredAfterRun(cfg, s0, wait, g, ft, stale, 1 + cfg.Llqt());
    AnsweredDistinct(cfg, s, g, ft, stale);
    var s1 := IgnoredToIn(cfg, s, g, ft, stale);
    rest := TimePasses(cfg, s1, at + cfg.Llqt());
    LeaveHasNoEffect(cfg, s, g, ft, rest);
    OneEvent(cfg, s, leave);
    RunAppend(cfg, EMPTY, front, wait);
    RunAppend(cfg, EMPTY, front + wait, [leave]);
    es := front + wait + [leave];
    assert es[..|es| - 1] == front + wait;
    RunAppend(cfg, EMPTY, es, rest);
  }

  /** TO_IN({}) that meets a held burst timer; after the burst it registers no timer. */
  lemma IgnoredToIn(cfg: Config, s: QState, g: Addr, ft: Timer, stale: set<Timer>) returns (s': QState)
    requires cfg.Ok() && Inv(cfg, s) && Quiet(s) && Answered(cfg, s, g, ft, stale, 1 + cfg.Llqt())
    ensures s' == Step(cfg, s, Record(GroupRecord(ToIn, g, {}, cfg.version))) && Inv(cfg, s') && s'.now == s.now
    ensures Enabled(cfg, s, Record(GroupRecord(ToIn, g, {}, cfg.version)))
    ensures g in s.groups && s.groups[g].mode.Exclude? && s.groups[g].groupRetrans.Some? && s.groups[g].filterTimer == Some(ft)
    ensures 1 + cfg.Llqt() <= s.now ==> s'.pending == s.pending
  {
    hide ReceiveRecord, Inv;
    var r := GroupRecord(ToIn, g, {}, cfg.version);
    StepInv(cfg, s, Record(r));
    s' := Step(cfg, s, Record(r));
    RecordKeepsTime(cfg, s, r);
    QueryAccounting.ToInOfNobody(cfg, s, g);
    QueryAccounting.BurstFacts(cfg, s, g);
  }

  lemma LeaveHasNoEffect(cfg: Config, s: QState, g: Addr, ft: Timer, rest: seq<Event>)
    requires cfg.Ok() && Inv(cfg, s) && g in s.groups && s.groups[g].mode.Exclude?
    requires s.groups[g].groupRetrans.Some? && s.groups[g].filterTimer == Some(ft) && s.now + cfg.Llqt() < ft.deadline
    requires
      var s1 := Step(cfg, s, Record(GroupRecord(ToIn, g, {}, cfg.version)));
      && IsRun(cfg, s1, rest) && (forall i | 0 <= i < |rest| :: !rest[i].Record?)
      && Quiet(After(cfg, s1, rest)) && After(cfg, s1, rest).now == s.now + cfg.Llqt()
    ensures
      var s' := After(cfg, Step(cfg, s, Record(GroupRecord(ToIn, g, {}, cfg.version))), rest);
      g in s'.groups && s'.groups[g].mode.Exclude?
  {
    hide ReceiveRecord, Inv, After, IsRun, Quiet;
    ExcludeModeLeaves(cfg, s, GroupRecord(ToIn, g, {}, cfg.version), rest);
  }
}
