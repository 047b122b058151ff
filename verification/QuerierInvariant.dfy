/** The invariant of a querier and the proof that every event of every run keeps it. */
module QuerierInvariant {
  import opened Defs
  import opened MembershipDb
  import opened ReportTables
  import opened QuerierSpec

  /** `t` is registered for group `g` and has not fired. */
  ghost predicate Armed(s: QState, t: Timer, kind: TimerKind, g: Addr) {
    t.kind == kind && t.gaddr == g && t in s.pending
  }

  /** A source in a retransmission has a timer that outlasts the `count` queries to come,
      the first of which is due at `next`. */
  ghost predicate Outlasts(cfg: Config, s: QState, src: Src, next: int) {
    && src.timer.Some?
    && next + Span(src.count, cfg.llqi) <= src.timer.value.deadline <= s.now + cfg.Llqt()
  }

  /** What holds of a source on its own. */
  ghost predicate SourceTimed(cfg: Config, s: QState, g: Addr, src: Src) {
    && -1 <= src.count <= cfg.llqc
    && (src.timer.Some? ==> Armed(s, src.timer.value, SourceT, g) && src.timer.value.deadline <= s.now + cfg.mali)
  }

  /** The sources of `owed` are allowed to have no timer yet. */
  ghost predicate SourcesReady(cfg: Config, s: QState, g: Addr, gi: GroupInfo, owed: set<Addr>) {
    forall a | a in gi.requested ::
      && SourceTimed(cfg, s, g, gi.requested[a])
      && (a !in owed ==> gi.requested[a].timer.Some?)
      && (gi.requested[a].count > 0 ==> Outlasts(cfg, s, gi.requested[a], s.now))
  }

  ghost predicate SourcesOk(cfg: Config, s: QState, g: Addr, gi: GroupInfo, owed: set<Addr>) {
    forall a | a in gi.requested ::
      && SourceTimed(cfg, s, g, gi.requested[a])
      && (a !in owed ==> gi.requested[a].timer.Some?)
      && (gi.requested[a].count > 0 ==>
            && gi.sourceRetrans.Some?
            && Armed(s, gi.sourceRetrans.value, RetSourceT, g)
            && Outlasts(cfg, s, gi.requested[a], gi.sourceRetrans.value.deadline))
  }

  /** A held group retransmission timer that has not fired belongs to a burst in EXCLUDE mode
      whose filter timer outlasts the queries to come. */
  ghost predicate BurstPending(cfg: Config, s: QState, gi: GroupInfo, t: Timer) {
    && gi.mode.Exclude?
    && gi.filterTimer.Some?
    && 2 <= cfg.llqc
    && t.deadline <= s.now + cfg.llqi
    && t.deadline + cfg.llqi <= gi.filterTimer.value.deadline
    && t.deadline + Span(gi.groupCount, cfg.llqi) <= gi.filterTimer.value.deadline
  }

  ghost predicate BurstOk(cfg: Config, s: QState, g: Addr, gi: GroupInfo) {
    && -1 <= gi.groupCount <= cfg.llqc
    && (gi.groupCount > 0 ==> gi.groupRetrans.Some? && gi.groupRetrans.value in s.pending)
    && (gi.groupRetrans.Some? ==>
          var t := gi.groupRetrans.value;
          && t.kind == RetGroupT && t.gaddr == g && t.id < s.nextId
          && 0 <= gi.groupCount < cfg.llqc
          && (t in s.pending ==> BurstPending(cfg, s, gi, t)))
  }

  /** With `owed`, the filter timer of EXCLUDE mode is still to be set. */
  ghost predicate ModeOk(cfg: Config, s: QState, g: Addr, gi: GroupInfo, owed: bool) {
    && (gi.mode.Include? ==> gi.excluded == map[] && gi.filterTimer.None?)
    && (gi.mode.Exclude? ==>
          && gi.requested.Keys !! gi.excluded.Keys
          && (owed || gi.filterTimer.Some?)
          && (gi.filterTimer.Some? ==>
                Armed(s, gi.filterTimer.value, FilterT, g) && gi.filterTimer.value.deadline <= s.now + cfg.mali))
    && (forall a | a in gi.excluded :: gi.excluded[a].timer.None?)
  }

  ghost predicate CompatOk(cfg: Config, s: QState, g: Addr, gi: GroupInfo) {
    && gi.compat.IsIPv4() == cfg.version.IsIPv4()
    && (gi.InCompatibilityMode() ==> gi.olderHost.Some?)
    && (gi.olderHost.Some? ==> Armed(s, gi.olderHost.value, OlderHostT, g))
  }

  ghost predicate SourceRetransOk(s: QState, g: Addr, gi: GroupInfo) {
    gi.sourceRetrans.Some? ==>
      gi.sourceRetrans.value.kind == RetSourceT && gi.sourceRetrans.value.gaddr == g && gi.sourceRetrans.value.id < s.nextId
  }

  /** The invariant of a record in the middle of a step. */
  ghost predicate GroupSound(cfg: Config, s: QState, g: Addr, owed: set<Addr>, filterOwed: bool) {
    && g in s.groups
    && SourcesOk(cfg, s, g, s.groups[g], owed)
    && BurstOk(cfg, s, g, s.groups[g])
    && ModeOk(cfg, s, g, s.groups[g], filterOwed)
    && CompatOk(cfg, s, g, s.groups[g])
    && SourceRetransOk(s, g, s.groups[g])
  }

  /** The invariant of a record between steps: besides, it is not INCLUDE and empty. */
  ghost predicate GroupInv(cfg: Config, s: QState, g: Addr) {
    && GroupSound(cfg, s, g, {}, false)
    && (s.groups[g].mode.Include? ==> s.groups[g].requested != map[])
  }

  ghost predicate TimersOk(s: QState) {
    forall t | t in s.pending :: t.id < s.nextId && s.now <= t.deadline
  }

  ghost predicate Inv(cfg: Config, s: QState) {
    && TimersOk(s)
    && forall g | g in s.groups :: GroupInv(cfg, s, g)
  }

  // ---------------------------------------------------------------- frame

  /** Between `s` and `s'` only group `g` changed and only fresh timers for `g` were registered. */
  ghost predicate Extends(s: QState, s': QState, g: Addr) {
    && s'.now == s.now
    && s.nextId <= s'.nextId
    && s.pending <= s'.pending
    && (forall t | t in s'.pending && t !in s.pending :: s.nextId <= t.id < s'.nextId && t.gaddr == g && s.now <= t.deadline)
    && (forall h | h != g :: h in s.groups <==> h in s'.groups)
    && (forall h | h != g && h in s.groups :: s'.groups[h] == s.groups[h])
  }

  lemma OthersKept(cfg: Config, s: QState, s': QState, g: Addr, h: Addr)
    requires Extends(s, s', g) && h != g
    requires TimersOk(s)
    requires h in s.groups && GroupInv(cfg, s, h)
    ensures GroupInv(cfg, s', h)
  {
  }

  lemma ExtendsTimersOk(s: QState, s': QState, g: Addr)
    requires Extends(s, s', g) && TimersOk(s)
    ensures TimersOk(s')
  {
  }

  // ---------------------------------------------------------------- source queries

  lemma OkIsReady(cfg: Config, s: QState, g: Addr, gi: GroupInfo, owed: set<Addr>)
    requires TimersOk(s) && SourcesOk(cfg, s, g, gi, owed)
    ensures SourcesReady(cfg, s, g, gi, owed)
  {
  }

  lemma StartQueriesSound(cfg: Config, s: QState, g: Addr, ask: set<Addr>, owed: set<Addr>)
    requires cfg.Ok() && TimersOk(s) && g in s.groups
    requires SourcesReady(cfg, s, g, s.groups[g], owed)
    ensures
      var r := StartQueries(cfg, s, g, ask);
      Extends(s, r, g) && SourcesReady(cfg, r, g, r.groups[g], owed - ask)
  {
    var r := StartQueries(cfg, s, g, ask);
    var list := s.groups[g].requested;
    forall a | a in r.groups[g].requested
      ensures SourceTimed(cfg, r, g, r.groups[g].requested[a])
      ensures a !in owed - ask ==> r.groups[g].requested[a].timer.Some?
      ensures r.groups[g].requested[a].count > 0 ==> Outlasts(cfg, r, r.groups[g].requested[a], r.now)
    {
      assert a in ask && list[a].count < 1 ==> a in Startable(list, ask);
    }
  }

  lemma QueryRoundSound(cfg: Config, s: QState, g: Addr, owed: set<Addr>)
    requires cfg.Ok() && TimersOk(s) && g in s.groups
    requires SourcesReady(cfg, s, g, s.groups[g], owed)
    ensures
      var r := QueryRound(cfg, s, g);
      Extends(s, r, g) && SourcesOk(cfg, r, g, r.groups[g], owed)
  {
    var r := QueryRound(cfg, s, g);
    var list := CountedDown(s.groups[g].requested);
    forall a | a in r.groups[g].requested
      ensures SourceTimed(cfg, r, g, r.groups[g].requested[a])
      ensures a !in owed ==> r.groups[g].requested[a].timer.Some?
      ensures r.groups[g].requested[a].count > 0 ==>
        && r.groups[g].sourceRetrans.Some?
        && Armed(r, r.groups[g].sourceRetrans.value, RetSourceT, g)
        && Outlasts(cfg, r, r.groups[g].requested[a], r.groups[g].sourceRetrans.value.deadline)
    {
      assert list[a].count > 0 ==> a in Asking(list);
    }
  }

  /** The parts of the invariant that do not look into the sources. */
  ghost predicate RestSound(cfg: Config, s: QState, g: Addr, filterOwed: bool) {
    && g in s.groups
    && BurstOk(cfg, s, g, s.groups[g])
    && ModeOk(cfg, s, g, s.groups[g], filterOwed)
    && CompatOk(cfg, s, g, s.groups[g])
    && SourceRetransOk(s, g, s.groups[g])
  }

  lemma RestKept(cfg: Config, s: QState, s': QState, g: Addr, filterOwed: bool)
    requires TimersOk(s) && Extends(s, s', g) && RestSound(cfg, s, g, filterOwed) && g in s'.groups
    requires s'.groups[g].requested.Keys == s.groups[g].requested.Keys
    requires s'.groups[g] == s.groups[g].(requested := s'.groups[g].requested, sourceRetrans := s'.groups[g].sourceRetrans)
    requires SourceRetransOk(s', g, s'.groups[g])
    ensures RestSound(cfg, s', g, filterOwed)
  {
  }

  lemma SendSourceQuerySound(cfg: Config, s: QState, g: Addr, ask: set<Addr>, retransmission: bool, owed: set<Addr>, filterOwed: bool)
    requires cfg.Ok() && TimersOk(s) && RestSound(cfg, s, g, filterOwed)
    requires SourcesReady(cfg, s, g, s.groups[g], owed)
    requires !retransmission ==> SourcesOk(cfg, s, g, s.groups[g], owed)
    ensures
      var r := SendSourceQuery(cfg, s, g, ask, retransmission);
      Extends(s, r, g) && GroupSound(cfg, r, g, owed - ask, filterOwed)
  {
    var s1 := StartQueries(cfg, s, g, ask);
    StartQueriesSound(cfg, s, g, ask, owed);
    RestKept(cfg, s, s1, g, filterOwed);
    if Startable(s.groups[g].requested, ask) != {} || retransmission {
      QueryRoundSound(cfg, s1, g, owed - ask);
      RestKept(cfg, s1, QueryRound(cfg, s1, g), g, filterOwed);
    }
  }

  lemma RefreshSourcesSound(cfg: Config, s: QState, g: Addr, who: set<Addr>, owed: set<Addr>, filterOwed: bool)
    requires cfg.Ok() && TimersOk(s) && GroupSound(cfg, s, g, owed, filterOwed)
    ensures
      var r := RefreshSources(cfg, s, g, who);
      Extends(s, r, g) && GroupSound(cfg, r, g, owed - who, filterOwed)
  {
    RestKept(cfg, s, RefreshSources(cfg, s, g, who), g, filterOwed);
  }

  lemma SourcesKept(cfg: Config, s: QState, s': QState, g: Addr, owed: set<Addr>)
    requires Extends(s, s', g) && g in s.groups && g in s'.groups && SourcesOk(cfg, s, g, s.groups[g], owed)
    requires s'.groups[g].requested == s.groups[g].requested && s'.groups[g].sourceRetrans == s.groups[g].sourceRetrans
    ensures SourcesOk(cfg, s', g, s'.groups[g], owed)
  {
  }

  lemma RefreshFilterSound(cfg: Config, s: QState, g: Addr, owed: set<Addr>, filterOwed: bool)
    requires cfg.Ok() && TimersOk(s) && GroupSound(cfg, s, g, owed, filterOwed)
    requires s.groups[g].mode.Exclude?
    ensures
      var r := RefreshFilter(cfg, s, g);
      Extends(s, r, g) && GroupSound(cfg, r, g, owed, false)
  {
    hide SourcesOk;
    SourcesKept(cfg, s, RefreshFilter(cfg, s, g), g, owed);
    var gi := s.groups[g];
    if gi.groupRetrans.Some? && gi.groupRetrans.value in s.pending {
      SpanMonotone(gi.groupCount, cfg.llqc - 1, cfg.llqi);
      SpanMonotone(1, cfg.llqc - 1, cfg.llqi);
    }
  }

  /** The state of a burst just before a group query: it may have lost its retransmission timer,
      but the filter timer outlasts the queries to come. */
  ghost predicate BurstReady(cfg: Config, s: QState, g: Addr, gi: GroupInfo) {
    && gi.mode.Exclude?
    && gi.filterTimer.Some?
    && -1 <= gi.groupCount <= cfg.llqc
    && s.now + Span(gi.groupCount, cfg.llqi) <= gi.filterTimer.value.deadline
    && (gi.groupRetrans.Some? ==>
          var t := gi.groupRetrans.value;
          && t.kind == RetGroupT && t.gaddr == g && t.id < s.nextId
          && 0 <= gi.groupCount < cfg.llqc
          && (t in s.pending ==> BurstPending(cfg, s, gi, t)))
  }

  lemma BurstIsReady(cfg: Config, s: QState, g: Addr, gi: GroupInfo)
    requires TimersOk(s) && BurstOk(cfg, s, g, gi) && ModeOk(cfg, s, g, gi, false) && gi.mode.Exclude?
    ensures BurstReady(cfg, s, g, gi)
  {
  }

  lemma StartBurstSound(cfg: Config, s: QState, g: Addr, owed: set<Addr>)
    requires cfg.Ok() && TimersOk(s) && g in s.groups
    requires BurstReady(cfg, s, g, s.groups[g])
    requires SourcesOk(cfg, s, g, s.groups[g], owed) && ModeOk(cfg, s, g, s.groups[g], false)
    requires CompatOk(cfg, s, g, s.groups[g]) && SourceRetransOk(s, g, s.groups[g])
    ensures
      var r := StartBurst(cfg, s, g);
      && Extends(s, r, g)
      && BurstReady(cfg, r, g, r.groups[g])
      && SourcesOk(cfg, r, g, r.groups[g], owed) && ModeOk(cfg, r, g, r.groups[g], false)
      && CompatOk(cfg, r, g, r.groups[g]) && SourceRetransOk(r, g, r.groups[g])
  {
    hide SourcesOk;
    SourcesKept(cfg, s, StartBurst(cfg, s, g), g, owed);
  }

  lemma BurstRoundSound(cfg: Config, s: QState, g: Addr, owed: set<Addr>)
    requires cfg.Ok() && TimersOk(s) && g in s.groups
    requires BurstReady(cfg, s, g, s.groups[g])
    requires SourcesOk(cfg, s, g, s.groups[g], owed) && ModeOk(cfg, s, g, s.groups[g], false)
    requires CompatOk(cfg, s, g, s.groups[g]) && SourceRetransOk(s, g, s.groups[g])
    ensures
      var r := BurstRound(cfg, s, g);
      Extends(s, r, g) && GroupSound(cfg, r, g, owed, false)
  {
    hide SourcesOk;
    SourcesKept(cfg, s, BurstRound(cfg, s, g), g, owed);
    var gi := s.groups[g];
    if gi.groupCount > 1 {
      assert Span(gi.groupCount, cfg.llqi) == cfg.llqi + Span(gi.groupCount - 1, cfg.llqi);
      assert Span(gi.groupCount - 1, cfg.llqi) == cfg.llqi + Span(gi.groupCount - 2, cfg.llqi);
    }
  }

  lemma SendGroupQuerySound(cfg: Config, s: QState, g: Addr, owed: set<Addr>)
    requires cfg.Ok() && TimersOk(s) && g in s.groups
    requires BurstReady(cfg, s, g, s.groups[g])
    requires SourcesOk(cfg, s, g, s.groups[g], owed) && ModeOk(cfg, s, g, s.groups[g], false)
    requires CompatOk(cfg, s, g, s.groups[g]) && SourceRetransOk(s, g, s.groups[g])
    ensures
      var r := SendGroupQuery(cfg, s, g);
      Extends(s, r, g) && GroupSound(cfg, r, g, owed, false)
  {
    StartBurstSound(cfg, s, g, owed);
    ExtendsTimersOk(s, StartBurst(cfg, s, g), g);
    BurstRoundSound(cfg, StartBurst(cfg, s, g), g, owed);
  }

  // ---------------------------------------------------------------- reports

  lemma ExtendsTrans(s: QState, m: QState, r: QState, g: Addr)
    requires Extends(s, m, g) && Extends(m, r, g)
    ensures Extends(s, r, g)
  {
  }

  /** A row that leaves every listed source with a timer and EXCLUDE mode with a filter timer. */
  ghost predicate RowFits(gi: GroupInfo, row: Row) {
    && row.x !! row.y
    && row.x - gi.requested.Keys <= row.ask + row.refresh
    && (row.mode.Include? ==> gi.mode.Include? && row.y == {} && !row.refreshFilter && !row.askGroup)
    && (row.mode.Exclude? ==> gi.mode.Exclude? || (row.refreshFilter && !row.askGroup))
  }

  lemma TableRowFits(gi: GroupInfo, t: RecordType, list: set<Addr>)
    requires gi.requested.Keys !! gi.excluded.Keys
    requires gi.mode.Include? ==> gi.excluded == map[]
    ensures RowFits(gi, TableRow(gi.mode, t, gi.requested.Keys, gi.excluded.Keys, list))
  {
  }

  lemma SetListsSound(cfg: Config, s: QState, g: Addr, row: Row)
    requires TimersOk(s) && GroupSound(cfg, s, g, {}, false) && RowFits(s.groups[g], row)
    ensures
      var r := SetLists(s, g, row);
      && Extends(s, r, g) && GroupSound(cfg, r, g, row.x - s.groups[g].requested.Keys, s.groups[g].mode.Include?)
      && r.groups[g].mode == row.mode
  {
  }

  lemma QueriedSound(cfg: Config, s: QState, g: Addr, row: Row, owed: set<Addr>, filterOwed: bool)
    requires cfg.Ok() && TimersOk(s) && GroupSound(cfg, s, g, owed, filterOwed)
    requires row.askGroup ==> s.groups[g].mode.Exclude? && !filterOwed
    ensures
      var r := Queried(cfg, s, g, row);
      && Extends(s, r, g) && GroupSound(cfg, r, g, owed - row.ask, filterOwed)
      && r.groups[g].mode == s.groups[g].mode
  {
    hide SendSourceQuery, SendGroupQuery;
    var s1 := SendSourceQuery(cfg, s, g, row.ask, false);
    OkIsReady(cfg, s, g, s.groups[g], owed);
    SendSourceQuerySound(cfg, s, g, row.ask, false, owed, filterOwed);
    ExtendsTimersOk(s, s1, g);
    if row.askGroup {
      BurstIsReady(cfg, s1, g, s1.groups[g]);
      SendGroupQuerySound(cfg, s1, g, owed - row.ask);
      ExtendsTrans(s, s1, SendGroupQuery(cfg, s1, g), g);
    }
  }

  lemma TimedSound(cfg: Config, s: QState, g: Addr, row: Row, owed: set<Addr>, filterOwed: bool)
    requires cfg.Ok() && TimersOk(s) && GroupSound(cfg, s, g, owed, filterOwed)
    requires owed <= row.refresh
    requires row.refreshFilter ==> s.groups[g].mode.Exclude?
    requires s.groups[g].mode.Exclude? && filterOwed ==> row.refreshFilter
    ensures
      var r := Timed(cfg, s, g, row);
      Extends(s, r, g) && GroupSound(cfg, r, g, {}, false)
  {
    var s1 := RefreshSources(cfg, s, g, row.refresh);
    RefreshSourcesSound(cfg, s, g, row.refresh, owed, filterOwed);
    assert owed - row.refresh == {};
    ExtendsTimersOk(s, s1, g);
    if row.refreshFilter {
      RefreshFilterSound(cfg, s1, g, {}, filterOwed);
      ExtendsTrans(s, s1, RefreshFilter(cfg, s1, g), g);
    }
  }

  lemma NotifySound(cfg: Config, s: QState, g: Addr)
    requires GroupSound(cfg, s, g, {}, false)
    ensures Extends(s, Notify(s, g), g) && GroupSound(cfg, Notify(s, g), g, {}, false)
  {
  }

  lemma ApplyRowSound(cfg: Config, s: QState, g: Addr, row: Row)
    requires cfg.Ok() && TimersOk(s) && GroupSound(cfg, s, g, {}, false) && RowFits(s.groups[g], row)
    ensures
      var r := ApplyRow(cfg, s, g, row);
      Extends(s, r, g) && GroupSound(cfg, r, g, {}, false)
  {
    hide SetLists, Queried, Timed, Notify, SourcesOk, ModeOk, BurstOk, CompatOk, SourceRetransOk, Extends, TimersOk;
    var owed := row.x - s.groups[g].requested.Keys;
    var filterOwed := s.groups[g].mode.Include?;
    var s1 := SetLists(s, g, row);
    SetListsSound(cfg, s, g, row);
    ExtendsTimersOk(s, s1, g);
    var s2 := Queried(cfg, s1, g, row);
    QueriedSound(cfg, s1, g, row, owed, filterOwed);
    ExtendsTimersOk(s1, s2, g);
    TimedSound(cfg, s2, g, row, owed - row.ask, filterOwed);
    var s3 := Timed(cfg, s2, g, row);
    ExtendsTrans(s, s1, s2, g);
    ExtendsTrans(s, s2, s3, g);
    NotifySound(cfg, s3, g);
    ExtendsTrans(s, s3, Notify(s3, g), g);
  }

  lemma CompatOnly(cfg: Config, s: QState, s': QState, g: Addr)
    requires TimersOk(s) && Extends(s, s', g) && g in s.groups && g in s'.groups
    requires SourcesOk(cfg, s, g, s.groups[g], {}) && BurstOk(cfg, s, g, s.groups[g])
    requires ModeOk(cfg, s, g, s.groups[g], false) && SourceRetransOk(s, g, s.groups[g])
    requires s'.groups[g] == s.groups[g].(compat := s'.groups[g].compat, olderHost := s'.groups[g].olderHost)
    requires CompatOk(cfg, s', g, s'.groups[g])
    ensures GroupSound(cfg, s', g, {}, false)
  {
  }

  lemma OpenedSound(cfg: Config, s: QState, r: GroupRecord)
    requires cfg.Ok() && Inv(cfg, s) && Receivable(cfg, r)
    ensures
      var s1 := Downgraded(cfg, Opened(cfg, s, r.gaddr), r);
      && Extends(s, s1, r.gaddr) && TimersOk(s1) && GroupSound(cfg, s1, r.gaddr, {}, false)
      && (s1.groups[r.gaddr].InCompatibilityMode() && r.rtype.Block? ==> s1 == s)
  {
    hide SourcesOk, BurstOk, ModeOk, SourceRetransOk;
    var g := r.gaddr;
    var s0 := Opened(cfg, s, g);
    if g !in s.groups {
      NewGroupSound(cfg, s, g);
    }
    assert GroupSound(cfg, s0, g, {}, false);
    CompatOnly(cfg, s0, Downgraded(cfg, s0, r), g);
  }

  lemma NewGroupSound(cfg: Config, s: QState, g: Addr)
    requires cfg.Ok() && TimersOk(s)
    ensures GroupSound(cfg, SetGroup(s, g, NewGroup(cfg.version)), g, {}, false)
  {
  }

  lemma InvAround(cfg: Config, s: QState, s': QState, g: Addr)
    requires Inv(cfg, s) && Extends(s, s', g)
    requires g in s'.groups ==> GroupInv(cfg, s', g)
    ensures Inv(cfg, s')
  {
    ExtendsTimersOk(s, s', g);
    forall h | h in s'.groups
      ensures GroupInv(cfg, s', h)
    {
      if h != g {
        OthersKept(cfg, s, s', g, h);
      }
    }
  }

  lemma ReceiveRecordInv(cfg: Config, s: QState, r: GroupRecord)
    requires cfg.Ok() && Inv(cfg, s) && Receivable(cfg, r)
    ensures Inv(cfg, ReceiveRecord(cfg, s, r))
  {
    hide ApplyRow, TableRow, Downgraded, Opened, SourcesOk, BurstOk, CompatOk, SourceRetransOk, RowFits;
    var g := r.gaddr;
    var s1 := Downgraded(cfg, Opened(cfg, s, g), r);
    OpenedSound(cfg, s, r);
    if !(s1.groups[g].InCompatibilityMode() && r.rtype.Block?) {
      var gi := s1.groups[g];
      var row := RowFor(s1, r);
      TableRowFits(gi, r.rtype, if gi.InCompatibilityMode() && r.rtype.ToEx? then {} else r.sources);
      var s2 := ApplyRow(cfg, s1, g, row);
      ApplyRowSound(cfg, s1, g, row);
      ExtendsTrans(s, s1, s2, g);
      var s3 := Closed(s2, g, gi.mode.Include?);
      ExtendsTrans(s, s2, s3, g);
      InvAround(cfg, s, s3, g);
    }
  }

  // ---------------------------------------------------------------- timers

  lemma UsedBy(cfg: Config, s: QState, g: Addr, t: Timer)
    requires Inv(cfg, s) && t in s.pending && g in s.groups && s.groups[g].Holds(t)
    ensures t.gaddr == g
    ensures t.kind.FilterT? ==> s.groups[g].filterTimer == Some(t)
    ensures t.kind.RetGroupT? ==> s.groups[g].groupRetrans == Some(t)
    ensures t.kind.RetSourceT? ==> s.groups[g].sourceRetrans == Some(t)
    ensures t.kind.OlderHostT? ==> s.groups[g].olderHost == Some(t)
    ensures t.kind.SourceT? ==> Expired(s.groups[g].requested, t) != {}
  {
    assert GroupInv(cfg, s, g);
    forall a | a in s.groups[g].requested && s.groups[g].requested[a].timer == Some(t)
      ensures a in Expired(s.groups[g].requested, t)
    {
    }
  }

  /** Group `g` is untouched when one of its timers leaves the register unless it holds the timer. */
  lemma UnheldKept(cfg: Config, s: QState, t: Timer, h: Addr)
    requires Inv(cfg, s) && t in s.pending && h in s.groups && !s.groups[h].Holds(t)
    ensures GroupInv(cfg, s.(pending := s.pending - {t}), h)
  {
    assert GroupInv(cfg, s, h);
  }

  /** After the handling of a timer of group `g` the other groups are as before. */
  lemma InvAfterTimer(cfg: Config, s: QState, t: Timer, s': QState)
    requires Inv(cfg, s) && t in s.pending
    requires Extends(s.(pending := s.pending - {t}), s', t.gaddr)
    requires t.gaddr in s'.groups ==> GroupInv(cfg, s', t.gaddr)
    ensures Inv(cfg, s')
  {
    var s0 := s.(pending := s.pending - {t});
    ExtendsTimersOk(s0, s', t.gaddr);
    forall h | h in s'.groups
      ensures GroupInv(cfg, s', h)
    {
      if h != t.gaddr {
        if s.groups[h].Holds(t) {
          UsedBy(cfg, s, h, t);
        }
        UnheldKept(cfg, s, t, h);
        OthersKept(cfg, s0, s', t.gaddr, h);
      }
    }
  }

  lemma FilterTimerInv(cfg: Config, s: QState, t: Timer)
    requires cfg.Ok() && Inv(cfg, s) && t in s.pending && t.deadline <= s.now
    requires t.gaddr in s.groups && s.groups[t.gaddr].filterTimer == Some(t)
    ensures Inv(cfg, FilterTimerFired(s.(pending := s.pending - {t}), t.gaddr, t))
  {
    var g := t.gaddr;
    var s' := FilterTimerFired(s.(pending := s.pending - {t}), g, t);
    assert GroupInv(cfg, s, g);
    assert g in s'.groups ==> GroupInv(cfg, s', g);
    InvAfterTimer(cfg, s, t, s');
  }

  lemma LeftoverSources(cfg: Config, s: QState, t: Timer, gi: GroupInfo, s': QState, gi': GroupInfo)
    requires TimersOk(s) && SourcesOk(cfg, s, t.gaddr, gi, {}) && t.kind.SourceT?
    requires s'.pending == s.pending - {t} && s'.now == s.now
    requires gi'.requested == gi.requested - Expired(gi.requested, t) && gi'.sourceRetrans == gi.sourceRetrans
    ensures SourcesOk(cfg, s', t.gaddr, gi', {})
  {
  }

  lemma MovedSources(cfg: Config, s: QState, t: Timer, gi: GroupInfo)
    requires ModeOk(cfg, s, t.gaddr, gi, false) && gi.mode.Exclude? && t.kind.SourceT?
    ensures
      var gone := Expired(gi.requested, t);
      var gi' := gi.(requested := gi.requested - gone, excluded := Stopped(gi.requested, gone) + gi.excluded);
      ModeOk(cfg, s.(pending := s.pending - {t}), t.gaddr, gi', false)
  {
  }

  lemma SourceTimerSound(cfg: Config, s: QState, t: Timer)
    requires cfg.Ok() && Inv(cfg, s) && t in s.pending && t.kind.SourceT?
    requires t.gaddr in s.groups
    ensures
      var s' := SourceTimerFired(s.(pending := s.pending - {t}), t.gaddr, t);
      t.gaddr in s'.groups ==> GroupInv(cfg, s', t.gaddr)
  {
    var g := t.gaddr;
    var s' := SourceTimerFired(s.(pending := s.pending - {t}), g, t);
    var gi := s.groups[g];
    assert GroupInv(cfg, s, g);
    hide SourcesOk;
    if gi.mode.Exclude? {
      MovedSources(cfg, s, t, gi);
    }
    if g in s'.groups {
      LeftoverSources(cfg, s, t, gi, s', s'.groups[g]);
      assert BurstOk(cfg, s', g, s'.groups[g]);
      assert ModeOk(cfg, s', g, s'.groups[g], false);
      if gi.mode.Include? {
        assert Expired(gi.requested, t) <= gi.requested.Keys;
        var a :| a in gi.requested.Keys && a !in Expired(gi.requested, t);
        assert a in s'.groups[g].requested;
      }
    }
  }

  lemma SourceTimerInv(cfg: Config, s: QState, t: Timer)
    requires cfg.Ok() && Inv(cfg, s) && t in s.pending && t.kind.SourceT?
    requires t.gaddr in s.groups
    ensures Inv(cfg, SourceTimerFired(s.(pending := s.pending - {t}), t.gaddr, t))
  {
    var s' := SourceTimerFired(s.(pending := s.pending - {t}), t.gaddr, t);
    SourceTimerSound(cfg, s, t);
    hide GroupInv;
    InvAfterTimer(cfg, s, t, s');
  }

  lemma RetGroupTimerInv(cfg: Config, s: QState, t: Timer)
    requires cfg.Ok() && Inv(cfg, s) && t in s.pending && t.deadline <= s.now
    requires t.gaddr in s.groups && s.groups[t.gaddr].groupRetrans == Some(t)
    ensures Inv(cfg, SendGroupQuery(cfg, s.(pending := s.pending - {t}), t.gaddr))
  {
    hide SendGroupQuery;
    var g := t.gaddr;
    var s0 := s.(pending := s.pending - {t});
    assert GroupInv(cfg, s, g);
    SendGroupQuerySound(cfg, s0, g, {});
    InvAfterTimer(cfg, s, t, SendGroupQuery(cfg, s0, g));
  }

  lemma RetSourceTimerInv(cfg: Config, s: QState, t: Timer)
    requires cfg.Ok() && Inv(cfg, s) && t in s.pending
    requires t.gaddr in s.groups && s.groups[t.gaddr].sourceRetrans == Some(t)
    ensures Inv(cfg, SendSourceQuery(cfg, s.(pending := s.pending - {t}), t.gaddr, {}, true))
  {
    hide SendSourceQuery;
    var g := t.gaddr;
    var s0 := s.(pending := s.pending - {t});
    assert GroupInv(cfg, s, g);
    OkIsReady(cfg, s, g, s.groups[g], {});
    SendSourceQuerySound(cfg, s0, g, {}, true, {}, false);
    InvAfterTimer(cfg, s, t, SendSourceQuery(cfg, s0, g, {}, true));
  }

  lemma WithoutOlderHostTimer(cfg: Config, s: QState, t: Timer, g: Addr)
    requires TimersOk(s) && GroupSound(cfg, s, g, {}, false) && t.kind.OlderHostT?
    ensures
      var s0 := s.(pending := s.pending - {t});
      && SourcesOk(cfg, s0, g, s.groups[g], {}) && BurstOk(cfg, s0, g, s.groups[g])
      && ModeOk(cfg, s0, g, s.groups[g], false) && SourceRetransOk(s0, g, s.groups[g])
  {
  }

  lemma OlderHostTimerInv(cfg: Config, s: QState, t: Timer)
    requires cfg.Ok() && Inv(cfg, s) && t in s.pending && t.kind.OlderHostT?
    requires t.gaddr in s.groups && s.groups[t.gaddr].olderHost == Some(t)
    ensures Inv(cfg, OlderHostTimerFired(cfg, s.(pending := s.pending - {t}), t.gaddr, t))
  {
    var g := t.gaddr;
    var s0 := s.(pending := s.pending - {t});
    var s' := OlderHostTimerFired(cfg, s0, g, t);
    assert GroupInv(cfg, s, g);
    hide SourcesOk, BurstOk, ModeOk, SourceRetransOk;
    WithoutOlderHostTimer(cfg, s, t, g);
    CompatOnly(cfg, s0, s', g);
    InvAfterTimer(cfg, s, t, s');
  }

  lemma TimerTriggeredInv(cfg: Config, s: QState, t: Timer)
    requires cfg.Ok() && Inv(cfg, s) && t in s.pending && t.deadline <= s.now
    ensures Inv(cfg, TimerTriggered(cfg, s, t))
  {
    hide SendGroupQuery, SendSourceQuery, FilterTimerFired, SourceTimerFired, OlderHostTimerFired;
    var s0 := s.(pending := s.pending - {t});
    if g :| g in s0.groups && s0.groups[g].Holds(t) {
      UsedBy(cfg, s, g, t);
      match t.kind
      case FilterT => FilterTimerInv(cfg, s, t);
      case SourceT => SourceTimerInv(cfg, s, t);
      case RetGroupT => RetGroupTimerInv(cfg, s, t);
      case RetSourceT => RetSourceTimerInv(cfg, s, t);
      case OlderHostT => OlderHostTimerInv(cfg, s, t);
    } else {
      forall g | g in s0.groups
        ensures GroupInv(cfg, s0, g)
      {
        UnheldKept(cfg, s, t, g);
      }
    }
  }

  // ---------------------------------------------------------------- runs

  lemma TickInv(cfg: Config, s: QState, to: int, lag: nat)
    requires cfg.Ok() && Inv(cfg, s) && Enabled(cfg, s, Tick(to, lag))
    ensures Inv(cfg, Step(cfg, s, Tick(to, lag)))
  {
    var s' := s.(now := to, lag := lag);
    forall g | g in s'.groups
      ensures GroupInv(cfg, s', g)
    {
      assert GroupInv(cfg, s, g);
    }
  }

  lemma StepInv(cfg: Config, s: QState, e: Event)
    requires cfg.Ok() && Inv(cfg, s) && Enabled(cfg, s, e)
    ensures Inv(cfg, Step(cfg, s, e))
  {
    match e
    case Record(r) => ReceiveRecordInv(cfg, s, r);
    case Fire(t) => TimerTriggeredInv(cfg, s, t);
    case Tick(to, lag) => TickInv(cfg, s, to, lag);
  }

  /** Every run from a good state, in particular from the empty one, stays in good states. */
  lemma {:induction false} RunInv(cfg: Config, s: QState, es: seq<Event>)
    requires cfg.Ok() && Inv(cfg, s) && IsRun(cfg, s, es)
    ensures Inv(cfg, After(cfg, s, es))
    decreases |es|
  {
    if es != [] {
      StepInv(cfg, s, es[0]);
      RunInv(cfg, Step(cfg, s, es[0]), es[1..]);
    }
  }
}
