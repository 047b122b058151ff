/** How many queries are sent: a burst of group queries and an episode of source queries each
    consist of exactly LLQC queries. */
module QueryAccounting {
  import opened Defs
  import opened MembershipDb
  import opened ReportTables
  import opened QuerierSpec
  import opened QuerierInvariant
  import opened QuerierViews
  import opened SoftState

  /** The number of group queries for `g` in a log. */
  function GroupQueries(log: seq<Query>, g: Addr): nat {
    if log == [] then 0
    else
      var q := log[|log| - 1];
      GroupQueries(log[..|log| - 1], g) + if q.GroupQuery? && q.gaddr == g then 1 else 0
  }

  /** The number of queries in a log that ask for source `a` of group `g`. */
  function SourceAsked(log: seq<Query>, g: Addr, a: Addr): nat {
    if log == [] then 0
    else
      var q := log[|log| - 1];
      SourceAsked(log[..|log| - 1], g, a) + if q.SourceQuery? && q.gaddr == g && a in q.sources then 1 else 0
  }

  lemma LogAppend(log: seq<Query>, q: Query, g: Addr, a: Addr)
    ensures GroupQueries(log + [q], g) == GroupQueries(log, g) + if q.GroupQuery? && q.gaddr == g then 1 else 0
    ensures SourceAsked(log + [q], g, a) == SourceAsked(log, g, a) + if q.SourceQuery? && q.gaddr == g && a in q.sources then 1 else 0
  {
    assert (log + [q])[..|log|] == log;
  }

  lemma QueriesForAppend(log: seq<Query>, h: Addr, sources: set<Addr>, suppress: bool, g: Addr, a: Addr)
    ensures
      var log' := log + QueriesFor(h, sources, suppress);
      && GroupQueries(log', g) == GroupQueries(log, g)
      && SourceAsked(log', g, a) == SourceAsked(log, g, a) + if g == h && a in sources then 1 else 0
  {
    if sources != {} {
      LogAppend(log, SourceQuery(h, sources, suppress), g, a);
    } else {
      assert log + [] == log;
    }
  }

  /** A round asks every source with a positive counter and a timer once, in one of its two queries. */
  lemma RoundAppend(log: seq<Query>, h: Addr, list: SrcMap, limit: int, g: Addr, a: Addr)
    ensures
      var log' := log + SourceQueries(h, list, limit);
      && GroupQueries(log', g) == GroupQueries(log, g)
      && SourceAsked(log', g, a) == SourceAsked(log, g, a) +
           if g == h && a in list && list[a].count > 0 && list[a].timer.Some? then 1 else 0
  {
    var higher, lower := AskingBeyond(list, limit, true), AskingBeyond(list, limit, false);
    var mid := log + QueriesFor(h, higher, true);
    assert log + SourceQueries(h, list, limit) == mid + QueriesFor(h, lower, false);
    QueriesForAppend(log, h, higher, true, g, a);
    QueriesForAppend(mid, h, lower, false, g, a);
  }

  // ---------------------------------------------------------------- group query bursts

  /** The group queries a running burst still has to send. */
  function Remaining(s: QState, g: Addr): int {
    if g in s.groups && s.groups[g].groupRetrans.Some? then s.groups[g].groupCount else 0
  }

  /** The event finds the group idle and makes it send a burst. */
  predicate Starts(s: QState, e: Event, g: Addr) {
    && e.Record? && e.r.gaddr == g && e.r.rtype.ToIn?
    && g in s.groups && s.groups[g].mode.Exclude? && s.groups[g].groupRetrans.None?
  }

  lemma SourceQueryKeepsBurst(cfg: Config, s: QState, g: Addr, ask: set<Addr>, retransmission: bool, h: Addr)
    requires g in s.groups
    ensures
      var r := SendSourceQuery(cfg, s, g, ask, retransmission);
      && GroupQueries(r.log, h) == GroupQueries(s.log, h)
      && r.groups[g].groupRetrans == s.groups[g].groupRetrans && r.groups[g].groupCount == s.groups[g].groupCount
  {
    hide GroupQueries, SourceAsked, SourceQueries, Lowered, CountedDown;
    var s1 := StartQueries(cfg, s, g, ask);
    RoundAppend(s1.log, g, s1.groups[g].requested, s1.now + s1.lag + cfg.Llqt(), h, 0);
  }

  lemma TimedKeepsBurst(cfg: Config, s: QState, g: Addr, row: Row)
    requires g in s.groups
    ensures
      var r := Timed(cfg, s, g, row);
      && r.log == s.log
      && r.groups[g].groupRetrans == s.groups[g].groupRetrans && r.groups[g].groupCount == s.groups[g].groupCount
  {
  }

  /** One group query: it is sent unless the burst has run out, and then the burst ends. */
  lemma GroupQueryLaw(cfg: Config, s: QState, g: Addr, h: Addr)
    requires cfg.Ok() && g in s.groups && (s.groups[g].groupRetrans.Some? ==> 0 <= s.groups[g].groupCount)
    ensures
      var r := SendGroupQuery(cfg, s, g);
      var budget := if s.groups[g].groupRetrans.Some? then s.groups[g].groupCount else cfg.llqc;
      && GroupQueries(r.log, h) == GroupQueries(s.log, h) + (if g == h && budget > 0 then 1 else 0)
      && Remaining(r, g) == (if budget > 0 then budget - 1 else 0)
      && ((budget > 1 || (budget == 1 && s.groups[g].groupRetrans.Some?)) <==> r.groups[g].groupRetrans.Some?)
      && (budget > 1 ==> r.groups[g].groupRetrans.value.deadline == s.now + cfg.llqi)
  {
    var s1 := StartBurst(cfg, s, g);
    var gi := s1.groups[g];
    LogAppend(s1.log, GroupQuery(g, gi.filterTimer.Some? && gi.filterTimer.value.deadline >= s1.now + s1.lag + cfg.Llqt()), h, 0);
  }

  lemma RecordBurstLaw(cfg: Config, s: QState, g: Addr, row: Row, h: Addr)
    requires cfg.Ok() && g in s.groups && (s.groups[g].groupRetrans.Some? ==> 0 <= s.groups[g].groupCount)
    ensures
      var r := ApplyRow(cfg, s, g, row);
      var budget := if s.groups[g].groupRetrans.Some? then s.groups[g].groupCount else cfg.llqc;
      && GroupQueries(r.log, h) == GroupQueries(s.log, h) + (if g == h && row.askGroup && budget > 0 then 1 else 0)
      && Remaining(r, g) == (if !row.askGroup then Remaining(s, g) else if budget > 0 then budget - 1 else 0)
      && (row.askGroup ==>
            && ((budget > 1 || (budget == 1 && s.groups[g].groupRetrans.Some?)) <==> r.groups[g].groupRetrans.Some?)
            && (budget > 1 ==> r.groups[g].groupRetrans.value.deadline == s.now + cfg.llqi))
      && (!row.askGroup ==> r.groups[g].groupRetrans == s.groups[g].groupRetrans)
  {
    hide SendSourceQuery, SendGroupQuery, Timed, GroupQueries;
    var s1 := SetLists(s, g, row);
    SourceQueryKeepsBurst(cfg, s1, g, row.ask, false, h);
    var s2 := SendSourceQuery(cfg, s1, g, row.ask, false);
    if row.askGroup {
      GroupQueryLaw(cfg, s2, g, h);
    }
    TimedKeepsBurst(cfg, Queried(cfg, s1, g, row), g, row);
  }

  /** The part of the invariant that bursts depend on. */
  lemma BurstFacts(cfg: Config, s: QState, g: Addr)
    requires Inv(cfg, s) && g in s.groups
    ensures
      var gi := s.groups[g];
      && (gi.groupRetrans.Some? ==> 0 <= gi.groupCount < cfg.llqc && gi.groupRetrans.value.gaddr == g)
      && (gi.groupRetrans.Some? && gi.groupCount > 0 ==>
            && gi.groupRetrans.value in s.pending && gi.mode.Exclude? && gi.filterTimer.Some?
            && gi.groupRetrans.value.deadline + Span(gi.groupCount, cfg.llqi) <= gi.filterTimer.value.deadline
            && s.now <= gi.groupRetrans.value.deadline && s.now + cfg.llqi <= gi.filterTimer.value.deadline)
  {
    hide SourcesOk, CompatOk, SourceRetransOk;
    assert GroupInv(cfg, s, g);
  }

  lemma OnlyToInAsksTheGroup(s: QState, r: GroupRecord)
    requires r.gaddr in s.groups
    ensures RowFor(s, r).askGroup <==> s.groups[r.gaddr].mode.Exclude? && r.rtype.ToIn?
    ensures RowFor(s, r).mode.Include? ==> s.groups[r.gaddr].mode.Include?
  {
  }

  lemma RecordBurst(cfg: Config, s: QState, r: GroupRecord, g: Addr)
    requires cfg.Ok() && Inv(cfg, s) && Receivable(cfg, r)
    ensures
      var s' := ReceiveRecord(cfg, s, r);
      GroupQueries(s'.log, g) + Remaining(s', g)
        == GroupQueries(s.log, g) + Remaining(s, g) + if Starts(s, Record(r), g) then cfg.llqc else 0
  {
    hide ApplyRow, Downgraded, Opened, Inv, GroupQueries, RowFor;
    var s1 := Prepared(cfg, s, r);
    PreparedFrame(cfg, s, r);
    OnlyToInAsksTheGroup(s1, r);
    if r.gaddr in s.groups {
      BurstFacts(cfg, s, r.gaddr);
    }
    RecordBurstLaw(cfg, s1, r.gaddr, RowFor(s1, r), g);
  }

  /** The burst of `g` is as far in `s'` as in `s`. */
  ghost predicate SameBurst(s: QState, s': QState, g: Addr) {
    && s'.log == s.log && Remaining(s', g) == Remaining(s, g)
    && (Remaining(s, g) > 0 ==> s'.groups[g].groupRetrans == s.groups[g].groupRetrans)
  }

  /** Filter, source and older host timers leave a burst alone; a record is not dropped during one. */
  lemma ExpiryKeepsBurst(cfg: Config, s: QState, t: Timer, g: Addr)
    requires cfg.Ok() && Inv(cfg, s) && t in s.pending && t.deadline <= s.now && t.gaddr in s.groups
    ensures
      var s0 := s.(pending := s.pending - {t});
      && SameBurst(s, FilterTimerFired(s0, t.gaddr, t), g)
      && SameBurst(s, SourceTimerFired(s0, t.gaddr, t), g)
      && SameBurst(s, OlderHostTimerFired(cfg, s0, t.gaddr, t), g)
  {
    hide Inv, Expired, Stopped;
    BurstFacts(cfg, s, t.gaddr);
  }

  lemma TimerBurst(cfg: Config, s: QState, t: Timer, g: Addr)
    requires cfg.Ok() && Inv(cfg, s) && t in s.pending && t.deadline <= s.now
    ensures
      var s' := TimerTriggered(cfg, s, t);
      GroupQueries(s'.log, g) + Remaining(s', g) == GroupQueries(s.log, g) + Remaining(s, g)
  {
    hide SendSourceQuery, SendGroupQuery, FilterTimerFired, SourceTimerFired, OlderHostTimerFired, GroupQueries, Inv;
    var s0 := s.(pending := s.pending - {t});
    if t.gaddr in s0.groups {
      BurstFacts(cfg, s, t.gaddr);
      ExpiryKeepsBurst(cfg, s, t, g);
      SourceQueryKeepsBurst(cfg, s0, t.gaddr, {}, true, g);
      if s0.groups[t.gaddr].groupRetrans == Some(t) {
        GroupQueryLaw(cfg, s0, t.gaddr, g);
      }
    }
  }

  /** Conservation: every burst is worth exactly LLQC group queries, whatever happens meanwhile. */
  lemma BurstConservation(cfg: Config, s: QState, e: Event, g: Addr)
    requires cfg.Ok() && Inv(cfg, s) && Enabled(cfg, s, e)
    ensures
      var s' := Step(cfg, s, e);
      GroupQueries(s'.log, g) + Remaining(s', g)
        == GroupQueries(s.log, g) + Remaining(s, g) + if Starts(s, e, g) then cfg.llqc else 0
  {
    hide ReceiveRecord, TimerTriggered;
    match e
    case Record(r) => RecordBurst(cfg, s, r, g);
    case Fire(t) => TimerBurst(cfg, s, t, g);
    case Tick(_, _) =>
  }

  /** The number of bursts for `g` that a run starts. */
  function Bursts(cfg: Config, s: QState, es: seq<Event>, g: Addr): nat
    decreases |es|
  {
    if es == [] then 0
    else (if Starts(s, es[0], g) then 1 else 0) + Bursts(cfg, Step(cfg, s, es[0]), es[1..], g)
  }

  lemma {:induction false} BurstConservationInRuns(cfg: Config, s: QState, es: seq<Event>, g: Addr)
    requires cfg.Ok() && Inv(cfg, s) && IsRun(cfg, s, es)
    ensures
      var s' := After(cfg, s, es);
      GroupQueries(s'.log, g) + Remaining(s', g)
        == GroupQueries(s.log, g) + Remaining(s, g) + Bursts(cfg, s, es, g) * cfg.llqc
    decreases |es|
  {
    hide Step, GroupQueries, Remaining, Inv, Starts;
    if es != [] {
      var s1 := Step(cfg, s, es[0]);
      BurstConservation(cfg, s, es[0], g);
      StepInv(cfg, s, es[0]);
      BurstConservationInRuns(cfg, s1, es[1..], g);
      OneMore(Bursts(cfg, s1, es[1..], g), cfg.llqc);
    }
  }

  lemma OneMore(n: nat, k: nat)
    ensures (1 + n) * k == k + n * k && (0 + n) * k == n * k
  {
  }

  /** The queries that remain fit into the time up to `bound`. */
  ghost predicate BurstBy(cfg: Config, s: QState, g: Addr, bound: int) {
    Remaining(s, g) > 0 ==> s.groups[g].groupRetrans.value.deadline + Span(s.groups[g].groupCount, cfg.llqi) <= bound
  }

  lemma RecordBurstBy(cfg: Config, s: QState, r: GroupRecord, g: Addr, bound: int)
    requires cfg.Ok() && Inv(cfg, s) && Receivable(cfg, r)
    requires if Starts(s, Record(r), g) then bound == s.now + cfg.Llqt() else BurstBy(cfg, s, g, bound)
    ensures BurstBy(cfg, ReceiveRecord(cfg, s, r), g, bound)
  {
    hide ApplyRow, Downgraded, Opened, Inv, GroupQueries, RowFor;
    var s1 := Prepared(cfg, s, r);
    PreparedFrame(cfg, s, r);
    OnlyToInAsksTheGroup(s1, r);
    if r.gaddr in s.groups {
      BurstFacts(cfg, s, r.gaddr);
    }
    RecordBurstLaw(cfg, s1, r.gaddr, RowFor(s1, r), g);
  }

  lemma TimerBurstBy(cfg: Config, s: QState, t: Timer, g: Addr, bound: int)
    requires cfg.Ok() && Inv(cfg, s) && t in s.pending && t.deadline <= s.now && BurstBy(cfg, s, g, bound)
    ensures BurstBy(cfg, TimerTriggered(cfg, s, t), g, bound)
  {
    hide SendSourceQuery, SendGroupQuery, FilterTimerFired, SourceTimerFired, OlderHostTimerFired, GroupQueries, Inv;
    var s0 := s.(pending := s.pending - {t});
    if t.gaddr in s0.groups {
      BurstFacts(cfg, s, t.gaddr);
      ExpiryKeepsBurst(cfg, s, t, g);
      SourceQueryKeepsBurst(cfg, s0, t.gaddr, {}, true, g);
      if s0.groups[t.gaddr].groupRetrans == Some(t) {
        GroupQueryLaw(cfg, s0, t.gaddr, g);
      }
    }
  }

  lemma {:induction false} RunBurstBy(cfg: Config, s: QState, es: seq<Event>, g: Addr, bound: int)
    requires cfg.Ok() && Inv(cfg, s) && IsRun(cfg, s, es) && BurstBy(cfg, s, g, bound)
    requires Bursts(cfg, s, es, g) == 0
    ensures BurstBy(cfg, After(cfg, s, es), g, bound)
    decreases |es|
  {
    hide ReceiveRecord, TimerTriggered;
    if es != [] {
      match es[0] {
        case Record(r) => RecordBurstBy(cfg, s, r, g, bound);
        case Fire(t) => TimerBurstBy(cfg, s, t, g, bound);
        case Tick(_, _) =>
      }
      StepInv(cfg, s, es[0]);
      RunBurstBy(cfg, Step(cfg, s, es[0]), es[1..], g, bound);
    }
  }

  /** A burst that starts sends exactly LLQC group queries within LLQT, unless another one starts. */
  lemma BurstComplete(cfg: Config, s: QState, es: seq<Event>, g: Addr)
    requires cfg.Ok() && Inv(cfg, s) && IsRun(cfg, s, es) && es != []
    requires Starts(s, es[0], g) && Bursts(cfg, s, es, g) == 1
    requires s.now + cfg.Llqt() <= After(cfg, s, es).now
    ensures GroupQueries(After(cfg, s, es).log, g) == GroupQueries(s.log, g) + cfg.llqc
  {
    hide ReceiveRecord, TimerTriggered;
    var bound := s.now + cfg.Llqt();
    var s' := After(cfg, s, es);
    RecordBurstBy(cfg, s, es[0].r, g, bound);
    StepInv(cfg, s, es[0]);
    RunBurstBy(cfg, Step(cfg, s, es[0]), es[1..], g, bound);
    BurstConservationInRuns(cfg, s, es, g);
    RunInv(cfg, s, es);
    if Remaining(s', g) != 0 {
      BurstFacts(cfg, s', g);
      assert false;
    }
  }

  lemma {:induction false} NoRecordsNoBursts(cfg: Config, s: QState, es: seq<Event>, g: Addr)
    requires forall i | 0 <= i < |es| :: !es[i].Record?
    ensures Bursts(cfg, s, es, g) == 0
    decreases |es|
  {
    if es != [] {
      NoRecordsNoBursts(cfg, Step(cfg, s, es[0]), es[1..], g);
    }
  }

  /** A burst that a record starts can always go on to its end. */
  lemma BurstCanComplete(cfg: Config, s: QState, r: GroupRecord) returns (es: seq<Event>)
    requires cfg.Ok() && Inv(cfg, s) && Receivable(cfg, r) && Starts(s, Record(r), r.gaddr)
    ensures IsRun(cfg, s, es) && es != [] && es[0] == Record(r)
    ensures GroupQueries(After(cfg, s, es).log, r.gaddr) == GroupQueries(s.log, r.gaddr) + cfg.llqc
  {
    hide ReceiveRecord, TimerTriggered, GroupQueries, Starts;
    var s1 := Step(cfg, s, Record(r));
    StepInv(cfg, s, Record(r));
    RecordKeepsTime(cfg, s, r);
    var rest := TimePasses(cfg, s1, s.now + cfg.Llqt());
    es := [Record(r)] + rest;
    assert es[1..] == rest;
    NoRecordsNoBursts(cfg, s1, rest, r.gaddr);
    BurstComplete(cfg, s, es, r.gaddr);
  }

  /** A pending retransmission belongs to EXCLUDE mode and to a filter timer that outlasts it, so
      the filter timer the next query looks at is there. */
  lemma RetransmissionHasFilterTimer(cfg: Config, s: QState, g: Addr)
    requires Inv(cfg, s) && g in s.groups
    requires s.groups[g].groupRetrans.Some? && s.groups[g].groupRetrans.value in s.pending
    ensures
      var gi := s.groups[g];
      && gi.mode.Exclude? && gi.filterTimer.Some?
      && gi.groupRetrans.value.deadline + gi.groupCount * cfg.llqi <= gi.filterTimer.value.deadline
      && (0 < cfg.llqi ==> gi.groupRetrans.value.deadline < gi.filterTimer.value.deadline)
  {
    hide SourcesOk, CompatOk, SourceRetransOk;
    assert GroupInv(cfg, s, g);
    SpanIsProduct(s.groups[g].groupCount, cfg.llqi);
  }

  /** A TO_IN record in EXCLUDE mode is to trigger a group query. It does so exactly if the record
      does not still hold the timer of a burst that has run out. */
  lemma ToInAsksTheGroup(cfg: Config, s: QState, r: GroupRecord)
    requires cfg.Ok() && 0 < cfg.llqc && Inv(cfg, s) && Receivable(cfg, r)
    requires r.rtype.ToIn? && r.gaddr in s.groups && s.groups[r.gaddr].mode.Exclude?
    ensures
      var gi := s.groups[r.gaddr];
      var s' := ReceiveRecord(cfg, s, r);
      GroupQueries(s'.log, r.gaddr) == GroupQueries(s.log, r.gaddr) +
        if gi.groupRetrans.Some? && gi.groupCount == 0 then 0 else 1
  {
    hide ApplyRow, Downgraded, Opened, Inv, GroupQueries, RowFor;
    var s1 := Prepared(cfg, s, r);
    PreparedFrame(cfg, s, r);
    OnlyToInAsksTheGroup(s1, r);
    BurstFacts(cfg, s, r.gaddr);
    RecordBurstLaw(cfg, s1, r.gaddr, RowFor(s1, r), r.gaddr);
  }

  /** TO_IN({}) for a group in EXCLUDE({},{}) sends a group query and changes nothing else. */
  lemma ToInOfNobody(cfg: Config, s: QState, g: Addr)
    requires cfg.Ok() && g in s.groups
    requires var gi := s.groups[g]; gi.mode.Exclude? && gi.requested == map[] && gi.excluded == map[] && gi.compat == cfg.version
    ensures ReceiveRecord(cfg, s, GroupRecord(ToIn, g, {}, cfg.version)) == Notify(SendGroupQuery(cfg, s, g), g)
  {
    hide SendGroupQuery, SourceQueries;
    var gi := s.groups[g];
    var row := ExcludeRow(ToIn, {}, {}, {});
    assert RowFor(s, GroupRecord(ToIn, g, {}, cfg.version)) == row;
    assert s.groups[g := gi] == s.groups;
    assert SetLists(s, g, row) == s;
    assert SendSourceQuery(cfg, s, g, {}, false) == s;
  }

  /** The group is in EXCLUDE({},{}) and its burst has `count` queries to come under timer `rt`. */
  predicate Bursting(cfg: Config, s: QState, g: Addr, rt: Option<Timer>, count: int) {
    g in s.groups && s.groups[g].mode.Exclude? && s.groups[g].requested == map[] && s.groups[g].excluded == map[]
    && s.groups[g].compat == cfg.version && s.groups[g].groupRetrans == rt && s.groups[g].groupCount == count
    && s.groups[g].olderHost.None? && s.groups[g].sourceRetrans.None? && s.groups.Keys == {g}
  }

  ghost predicate DistinctDeadlines(pending: set<Timer>) {
    forall t, u | t in pending && u in pending && t.deadline == u.deadline :: t == u
  }

  /** A run from the start, with LLQC at 2: IS_EX({}) and three TO_IN({}), a millisecond apart. The first two send
      the two queries of the burst, the third one asks nobody. No two timers have the same deadline. */
  lemma ToInCanBeSwallowed(cfg: Config, g: Addr) returns (es: seq<Event>)
    requires cfg.Ok() && cfg.llqc == 2 && 2 <= cfg.llqi && cfg.Llqt() + 1 < cfg.mali
    ensures
      var join, leave := Record(GroupRecord(IsEx, g, {}, cfg.version)), Record(GroupRecord(ToIn, g, {}, cfg.version));
      es == [join, Tick(1, 0), leave, Tick(2, 0), leave, Tick(3, 0), leave]
    ensures IsRun(cfg, EMPTY, es) && DistinctDeadlines(After(cfg, EMPTY, es).pending)
    ensures
      var s, s' := After(cfg, EMPTY, es[..6]), After(cfg, EMPTY, es);
      && g in s.groups && s.groups[g].mode.Exclude?
      && GroupQueries(s'.log, g) == GroupQueries(s.log, g)
  {
    hide Step, Enabled, GroupQueries, DistinctDeadlines;
    var join, leave := Record(GroupRecord(IsEx, g, {}, cfg.version)), Record(GroupRecord(ToIn, g, {}, cfg.version));
    es := [join, Tick(1, 0), leave, Tick(2, 0), leave, Tick(3, 0), leave];
    var s0, ft := JoinState(cfg, g);
    var s1, rt, ft1 := FirstToIn(cfg, s0, g, ft);
    var s2 := SecondToIn(cfg, s1, g, rt);
    var s3 := ThirdToIn(cfg, s2, g, rt);
    var a, b, c, d := [join], [Tick(1, 0), leave], [Tick(2, 0), leave], [Tick(3, 0), leave];
    OneEvent(cfg, EMPTY, join);
    TwoEvents(cfg, s0, Tick(1, 0), leave);
    TwoEvents(cfg, s1, Tick(2, 0), leave);
    TwoEvents(cfg, s2, Tick(3, 0), leave);
    RunAppend(cfg, EMPTY, a, b);
    RunAppend(cfg, EMPTY, a + b, c);
    var front := a + b + c;
    OneEvent(cfg, s2, Tick(3, 0));
    RunAppend(cfg, EMPTY, front, [Tick(3, 0)]);
    RunAppend(cfg, EMPTY, front, d);
    assert es == front + d && es[..6] == front + [Tick(3, 0)];
  }

  lemma JoinState(cfg: Config, g: Addr) returns (s: QState, ft: Timer)
    requires cfg.Ok()
    ensures
      var join := Record(GroupRecord(IsEx, g, {}, cfg.version));
      && Enabled(cfg, EMPTY, join) && s == Step(cfg, EMPTY, join)
      && Bursting(cfg, s, g, None, -1) && s.now == 0 && s.pending == {ft} && ft.deadline == cfg.mali
      && ft.kind.FilterT? && ft.id < s.nextId && s.lag == 0
  {
    s := Step(cfg, EMPTY, Record(GroupRecord(IsEx, g, {}, cfg.version)));
    ft := s.groups[g].filterTimer.value;
  }

  lemma FirstToIn(cfg: Config, s: QState, g: Addr, ft: Timer) returns (s': QState, rt: Timer, ft': Timer)
    requires cfg.Ok() && 2 <= cfg.llqc && cfg.Llqt() + 1 < cfg.mali
    requires Bursting(cfg, s, g, None, -1) && s.now == 0 && s.pending == {ft} && ft.deadline == cfg.mali
    ensures
      var leave, s0 := Record(GroupRecord(ToIn, g, {}, cfg.version)), Step(cfg, s, Tick(1, 0));
      && Enabled(cfg, s, Tick(1, 0)) && Enabled(cfg, s0, leave) && s' == Step(cfg, s0, leave)
      && Bursting(cfg, s', g, Some(rt), cfg.llqc - 1) && s'.now == 1 && rt.deadline == 1 + cfg.llqi && rt.kind.RetGroupT?
      && s'.groups[g].filterTimer == Some(ft') && ft'.deadline == 1 + cfg.Llqt() && ft'.kind.FilterT?
      && s'.pending == {ft, ft', rt} && ft'.id == s.nextId && s'.nextId == s.nextId + 2 && rt.gaddr == g
      && DistinctDeadlines(s'.pending) && (forall t | t in s'.pending :: 1 + cfg.llqi <= t.deadline)
  {
    hide ReceiveRecord;
    SpanMonotone(2, cfg.llqc, cfg.llqi);
    SpanIsProduct(2, cfg.llqi);
    var s0 := Step(cfg, s, Tick(1, 0));
    ToInOfNobody(cfg, s0, g);
    s' := Step(cfg, s0, Record(GroupRecord(ToIn, g, {}, cfg.version)));
    rt := s'.groups[g].groupRetrans.value;
    ft' := s'.groups[g].filterTimer.value;
  }

  lemma SecondToIn(cfg: Config, s: QState, g: Addr, rt: Timer) returns (s': QState)
    requires cfg.Ok() && 2 <= cfg.llqi && Bursting(cfg, s, g, Some(rt), 1) && s.now == 1
    requires DistinctDeadlines(s.pending) && forall t | t in s.pending :: 1 + cfg.llqi <= t.deadline
    ensures
      var leave, s0 := Record(GroupRecord(ToIn, g, {}, cfg.version)), Step(cfg, s, Tick(2, 0));
      && Enabled(cfg, s, Tick(2, 0)) && Enabled(cfg, s0, leave) && s' == Step(cfg, s0, leave)
      && Bursting(cfg, s', g, Some(rt), 0) && s'.now == 2 && s'.pending == s.pending
  {
    hide ReceiveRecord;
    var s0 := Step(cfg, s, Tick(2, 0));
    ToInOfNobody(cfg, s0, g);
    s' := Step(cfg, s0, Record(GroupRecord(ToIn, g, {}, cfg.version)));
  }

  lemma ThirdToIn(cfg: Config, s: QState, g: Addr, rt: Timer) returns (s': QState)
    requires cfg.Ok() && 2 <= cfg.llqi && Bursting(cfg, s, g, Some(rt), 0) && s.now == 2
    requires forall t | t in s.pending :: 1 + cfg.llqi <= t.deadline
    ensures
      var leave, s0 := Record(GroupRecord(ToIn, g, {}, cfg.version)), Step(cfg, s, Tick(3, 0));
      && Enabled(cfg, s, Tick(3, 0)) && Enabled(cfg, s0, leave) && s' == Step(cfg, s0, leave)
      && s0.groups == s.groups && s0.log == s.log && s'.log == s.log && s'.pending == s.pending
  {
    hide ReceiveRecord;
    var s0 := Step(cfg, s, Tick(3, 0));
    ToInOfNobody(cfg, s0, g);
    s' := Step(cfg, s0, Record(GroupRecord(ToIn, g, {}, cfg.version)));
  }

  // ---------------------------------------------------------------- source query episodes

  /** Source `a` of group `g` waits for timer `st`; the timer tells one episode from another. */
  predicate Waits(s: QState, g: Addr, a: Addr, st: Timer) {
    g in s.groups && a in s.groups[g].requested && s.groups[g].requested[a].timer == Some(st)
  }

  /** The queries for source `a` sent so far plus those still to come in its episode. */
  function Budget(s: QState, g: Addr, a: Addr): int
    requires g in s.groups && a in s.groups[g].requested
  {
    SourceAsked(s.log, g, a) + s.groups[g].requested[a].count
  }

  /** Between `s` and `s'` source `a` went on waiting for `st` and its budget did not change. */
  ghost predicate GoesOn(s: QState, s': QState, g: Addr, a: Addr, st: Timer) {
    && Waits(s, g, a, st) && Waits(s', g, a, st) && Budget(s', g, a) == Budget(s, g, a)
    && (s.groups[g].requested[a].count >= 0 ==> s'.groups[g].requested[a].count >= 0)
  }

  lemma RoundBudget(cfg: Config, s: QState, g: Addr, a: Addr)
    requires g in s.groups && CountersTimed(s.groups[g].requested) && a in s.groups[g].requested
    ensures
      var r := QueryRound(cfg, s, g);
      && Budget(r, g, a) == Budget(s, g, a)
      && r.groups[g].requested[a].timer == s.groups[g].requested[a].timer
      && (s.groups[g].requested[a].count >= 0 ==> r.groups[g].requested[a].count >= 0)
  {
    hide SourceAsked, SourceQueries;
    RoundAppend(s.log, g, s.groups[g].requested, s.now + s.lag + cfg.Llqt(), g, a);
  }

  /** Send Q(MA, ask): sources that keep their timer keep their budget, sources that get a new one
      start with a budget of LLQC. */
  lemma SourceQueryBudget(cfg: Config, s: QState, g: Addr, ask: set<Addr>, retransmission: bool, a: Addr, st: Timer)
    requires g in s.groups && CountersTimed(s.groups[g].requested)
    requires Waits(SendSourceQuery(cfg, s, g, ask, retransmission), g, a, st)
    ensures
      var r := SendSourceQuery(cfg, s, g, ask, retransmission);
      && (st.id < s.nextId ==> GoesOn(s, r, g, a, st))
      && (!Waits(s, g, a, st) ==> Budget(r, g, a) == SourceAsked(s.log, g, a) + cfg.llqc)
  {
    hide SourceAsked, QueryRound;
    RoundBudget(cfg, StartQueries(cfg, s, g, ask), g, a);
  }

  /** Other groups are not asked for. */
  lemma SourceQueryElsewhere(cfg: Config, s: QState, g: Addr, ask: set<Addr>, retransmission: bool, h: Addr, a: Addr)
    requires g in s.groups && h != g
    ensures SourceAsked(SendSourceQuery(cfg, s, g, ask, retransmission).log, h, a) == SourceAsked(s.log, h, a)
  {
    hide SourceAsked, SourceQueries;
    var s1 := StartQueries(cfg, s, g, ask);
    RoundAppend(s1.log, g, s1.groups[g].requested, s1.now + s1.lag + cfg.Llqt(), h, a);
  }

  lemma GroupQueryBudget(cfg: Config, s: QState, g: Addr, h: Addr, a: Addr)
    requires g in s.groups
    ensures
      var r := SendGroupQuery(cfg, s, g);
      && SourceAsked(r.log, h, a) == SourceAsked(s.log, h, a)
      && r.groups[g].requested == s.groups[g].requested && s.nextId <= r.nextId
  {
    var s1 := StartBurst(cfg, s, g);
    var gi := s1.groups[g];
    LogAppend(s1.log, GroupQuery(g, gi.filterTimer.Some? && gi.filterTimer.value.deadline >= s1.now + s1.lag + cfg.Llqt()), h, a);
  }

  lemma TimedBudget(cfg: Config, s: QState, g: Addr, row: Row, a: Addr, st: Timer)
    requires g in s.groups && Waits(Timed(cfg, s, g, row), g, a, st)
    ensures
      var r := Timed(cfg, s, g, row);
      && r.log == s.log
      && (st.id < s.nextId || r.groups[g].requested[a].count >= 0 ==>
            Waits(s, g, a, st) && r.groups[g].requested[a] == s.groups[g].requested[a])
  {
  }

  /** A table row: sources that keep their timer keep their budget, sources whose queries start get LLQC. */
  lemma RowBudget(cfg: Config, s: QState, g: Addr, row: Row, a: Addr, st: Timer)
    requires g in s.groups && CountersTimed(s.groups[g].requested)
    requires Waits(ApplyRow(cfg, s, g, row), g, a, st)
    ensures
      var r := ApplyRow(cfg, s, g, row);
      && (st.id < s.nextId ==> GoesOn(s, r, g, a, st))
      && (s.nextId <= st.id && !Waits(s, g, a, st) && r.groups[g].requested[a].count >= 0 ==>
            Budget(r, g, a) == SourceAsked(s.log, g, a) + cfg.llqc)
  {
    hide SendSourceQuery, SendGroupQuery, Timed, SourceAsked;
    var s1 := SetLists(s, g, row);
    var s2 := SendSourceQuery(cfg, s1, g, row.ask, false);
    var s3 := Queried(cfg, s1, g, row);
    SourceQueryIds(cfg, s1, g, row.ask, false);
    GroupQueryBudget(cfg, s2, g, g, a);
    TimedBudget(cfg, s3, g, row, a, st);
    if Waits(s3, g, a, st) {
      SourceQueryBudget(cfg, s1, g, row.ask, false, a, st);
    }
  }

  lemma SourceQueryIds(cfg: Config, s: QState, g: Addr, ask: set<Addr>, retransmission: bool)
    requires g in s.groups
    ensures s.nextId <= SendSourceQuery(cfg, s, g, ask, retransmission).nextId
  {
  }

  lemma RowElsewhere(cfg: Config, s: QState, g: Addr, row: Row, h: Addr, a: Addr)
    requires g in s.groups && h != g
    ensures SourceAsked(ApplyRow(cfg, s, g, row).log, h, a) == SourceAsked(s.log, h, a)
  {
    hide SendSourceQuery, SendGroupQuery, Timed, SourceAsked;
    var s1 := SetLists(s, g, row);
    SourceQueryElsewhere(cfg, s1, g, row.ask, false, h, a);
    GroupQueryBudget(cfg, SendSourceQuery(cfg, s1, g, row.ask, false), g, h, a);
    TimedKeepsBurst(cfg, Queried(cfg, s1, g, row), g, row);
  }

  /** The part of the invariant that episodes depend on. */
  lemma EpisodeFacts(cfg: Config, s: QState, g: Addr)
    requires Inv(cfg, s) && g in s.groups
    ensures CountersTimed(s.groups[g].requested)
    ensures forall a | a in s.groups[g].requested && s.groups[g].requested[a].timer.Some? ::
              s.groups[g].requested[a].timer.value.id < s.nextId
  {
    assert GroupInv(cfg, s, g);
  }

  lemma RecordBudget(cfg: Config, s: QState, r: GroupRecord, g: Addr, a: Addr, st: Timer)
    requires cfg.Ok() && Inv(cfg, s) && Receivable(cfg, r)
    requires Waits(ReceiveRecord(cfg, s, r), g, a, st)
    ensures
      var s' := ReceiveRecord(cfg, s, r);
      && (st.id < s.nextId ==> GoesOn(s, s', g, a, st))
      && (s.nextId <= st.id && s'.groups[g].requested[a].count >= 0 ==>
            Budget(s', g, a) == SourceAsked(s.log, g, a) + cfg.llqc)
  {
    hide ApplyRow, Downgraded, Opened, Inv, SourceAsked, RowFor;
    var s1 := Prepared(cfg, s, r);
    PreparedFrame(cfg, s, r);
    assert s.nextId <= s1.nextId by {
      PreparedIds(cfg, s, r);
    }
    var row := RowFor(s1, r);
    if g in s.groups {
      EpisodeFacts(cfg, s, g);
    }
    if g != r.gaddr {
      RowElsewhere(cfg, s1, r.gaddr, row, g, a);
    } else if !(s1.groups[g].InCompatibilityMode() && r.rtype.Block?) {
      RowBudget(cfg, s1, g, row, a, st);
    }
  }

  lemma PreparedIds(cfg: Config, s: QState, r: GroupRecord)
    ensures s.nextId <= Prepared(cfg, s, r).nextId
  {
  }

  /** A source that is left by an expired timer is as it was. */
  lemma ExpiryKeepsEpisode(cfg: Config, s: QState, t: Timer, g: Addr, a: Addr, st: Timer)
    requires t.gaddr in s.groups
    ensures forall s' | s' in {FilterTimerFired(s, t.gaddr, t), SourceTimerFired(s, t.gaddr, t), OlderHostTimerFired(cfg, s, t.gaddr, t)} ::
              s'.log == s.log && (Waits(s', g, a, st) ==> Waits(s, g, a, st) && s'.groups[g].requested[a] == s.groups[g].requested[a])
  {
  }

  /** A timer starts no episode; a source that keeps its timer keeps its budget. */
  lemma TimerBudget(cfg: Config, s: QState, t: Timer, g: Addr, a: Addr, st: Timer)
    requires cfg.Ok() && Inv(cfg, s) && t in s.pending
    requires Waits(TimerTriggered(cfg, s, t), g, a, st)
    ensures
      var s' := TimerTriggered(cfg, s, t);
      GoesOn(s, s', g, a, st)
  {
    hide SendSourceQuery, SendGroupQuery, FilterTimerFired, SourceTimerFired, OlderHostTimerFired, SourceAsked, Inv;
    var s0 := s.(pending := s.pending - {t});
    if t.gaddr in s0.groups {
      EpisodeFacts(cfg, s, t.gaddr);
      ExpiryKeepsEpisode(cfg, s0, t, g, a, st);
      GroupQueryBudget(cfg, s0, t.gaddr, g, a);
      if g != t.gaddr {
        SourceQueryElsewhere(cfg, s0, t.gaddr, {}, true, g, a);
      } else if t.kind.RetSourceT? && Waits(SendSourceQuery(cfg, s0, g, {}, true), g, a, st) {
        SourceQueryBudget(cfg, s0, g, {}, true, a, st);
        RoundStartsNothing(cfg, s0, g, a, st);
      }
    }
  }

  lemma RoundStartsNothing(cfg: Config, s: QState, g: Addr, a: Addr, st: Timer)
    requires g in s.groups && Waits(SendSourceQuery(cfg, s, g, {}, true), g, a, st)
    ensures Waits(s, g, a, st)
  {
  }

  /** One event: the episode a source is in afterwards either began with the event, with LLQC queries
      to send, or goes on and has spent exactly the queries sent. */
  lemma EpisodeStep(cfg: Config, s: QState, e: Event, g: Addr, a: Addr, st: Timer)
    requires cfg.Ok() && Inv(cfg, s) && Enabled(cfg, s, e) && Waits(Step(cfg, s, e), g, a, st)
    ensures
      var s' := Step(cfg, s, e);
      && (st.id < s.nextId ==> GoesOn(s, s', g, a, st))
      && (s.nextId <= st.id && s'.groups[g].requested[a].count >= 0 ==>
            Budget(s', g, a) == SourceAsked(s.log, g, a) + cfg.llqc)
  {
    hide ReceiveRecord, TimerTriggered;
    if g in s.groups {
      EpisodeFacts(cfg, s, g);
    }
    match e
    case Record(r) => RecordBudget(cfg, s, r, g, a, st);
    case Fire(t) => TimerBudget(cfg, s, t, g, a, st);
    case Tick(_, _) =>
  }

  lemma StepIds(cfg: Config, s: QState, e: Event)
    ensures s.nextId <= Step(cfg, s, e).nextId
  {
    hide ApplyRow, SendSourceQuery, SendGroupQuery, Downgraded, Opened;
    match e
    case Record(r) =>
      PreparedIds(cfg, s, r);
      var s1 := Prepared(cfg, s, r);
      RowIds(cfg, s1, r.gaddr, RowFor(s1, r));
    case Fire(t) =>
      var s0 := s.(pending := s.pending - {t});
      if t.gaddr in s0.groups {
        SourceQueryIds(cfg, s0, t.gaddr, {}, true);
        GroupQueryBudget(cfg, s0, t.gaddr, 0, 0);
      }
    case Tick(_, _) =>
  }

  lemma RowIds(cfg: Config, s: QState, g: Addr, row: Row)
    requires g in s.groups
    ensures s.nextId <= ApplyRow(cfg, s, g, row).nextId
  {
    hide SendSourceQuery, SendGroupQuery;
    var s1 := SetLists(s, g, row);
    SourceQueryIds(cfg, s1, g, row.ask, false);
    GroupQueryBudget(cfg, SendSourceQuery(cfg, s1, g, row.ask, false), g, 0, 0);
  }

  /** Over a run: a source that still waits for the same timer has spent exactly the queries sent. */
  lemma {:induction false} EpisodeRun(cfg: Config, s: QState, es: seq<Event>, g: Addr, a: Addr, st: Timer)
    requires cfg.Ok() && Inv(cfg, s) && IsRun(cfg, s, es)
    requires st.id < s.nextId && Waits(After(cfg, s, es), g, a, st)
    ensures GoesOn(s, After(cfg, s, es), g, a, st)
    decreases |es|
  {
    hide Step;
    if es != [] {
      var s1 := Step(cfg, s, es[0]);
      StepInv(cfg, s, es[0]);
      StepIds(cfg, s, es[0]);
      EpisodeRun(cfg, s1, es[1..], g, a, st);
      EpisodeStep(cfg, s, es[0], g, a, st);
    }
  }

  /** An episode of source queries: at most LLQC queries are sent for the source while it waits for
      the timer the episode began with, and exactly LLQC by the time this timer is due. */
  lemma EpisodeComplete(cfg: Config, s: QState, es: seq<Event>, g: Addr, a: Addr, st: Timer)
    requires cfg.Ok() && Inv(cfg, s) && IsRun(cfg, s, es) && es != []
    requires s.nextId <= st.id && Waits(Step(cfg, s, es[0]), g, a, st)
    requires Step(cfg, s, es[0]).groups[g].requested[a].count >= 0
    requires Waits(After(cfg, s, es), g, a, st)
    ensures
      var s' := After(cfg, s, es);
      var asked := SourceAsked(s'.log, g, a) - SourceAsked(s.log, g, a);
      && asked <= cfg.llqc
      && (st.deadline <= s'.now ==> asked == cfg.llqc)
  {
    hide Step;
    var s1 := Step(cfg, s, es[0]);
    var s' := After(cfg, s, es);
    EpisodeStep(cfg, s, es[0], g, a, st);
    StepInv(cfg, s, es[0]);
    EpisodeFacts(cfg, s1, g);
    EpisodeRun(cfg, s1, es[1..], g, a, st);
    RunInv(cfg, s, es);
    EpisodeSpent(cfg, s', g, a, st);
  }

  /** When the timer of a source is due, no query is left to be sent for it. */
  lemma EpisodeSpent(cfg: Config, s: QState, g: Addr, a: Addr, st: Timer)
    requires cfg.Ok() && Inv(cfg, s) && Waits(s, g, a, st)
    ensures st.deadline <= s.now ==> s.groups[g].requested[a].count <= 0
  {
    assert GroupInv(cfg, s, g);
    var gi := s.groups[g];
    if gi.requested[a].count > 0 {
      assert gi.sourceRetrans.value in s.pending;
      assert Span(gi.requested[a].count, cfg.llqi) >= cfg.llqi;
    }
  }
}
