/** What a timer takes away and what it leaves, and how long a membership lasts: what a record asks for is admitted for
    exactly MALI if no other record follows, and what an older host brings about ends at a known time. */
module TimerMeaning {
  import opened Defs
  import opened MembershipDb
  import opened QuerierSpec
  import opened QuerierInvariant
  import opened QuerierViews
  import opened SoftState
  import opened LeaveLatency
  import opened RecordMeaning

  // ---------------------------------------------------------------- one timer

  /** Source `a` waits for timer `t`. */
  predicate WaitsFor(s: QState, g: Addr, a: Addr, t: Timer) {
    Known(s, g, a) && s.groups[g].requested[a].timer == Some(t)
  }

  /** Timer `t` ends EXCLUDE mode. */
  predicate EndsExclude(s: QState, g: Addr, t: Timer) {
    g in s.groups && s.groups[g].filterTimer == Some(t)
  }

  /** Some listener is left when timer `t` is over. */
  ghost predicate SomebodyLeft(s: QState, g: Addr, t: Timer) {
    (g in s.groups && s.groups[g].mode.Exclude? && !EndsExclude(s, g, t)) || exists a :: Known(s, g, a) && !WaitsFor(s, g, a, t)
  }

  /** The group is under the effects of an older host, also once timer `t` is over. */
  predicate StaysOlder(s: QState, g: Addr, t: Timer) {
    g in s.groups && s.groups[g].olderHost.Some? && (s.groups[g].olderHost == Some(t) ==> s.groups[g].InCompatibilityMode())
  }

  /** The lists and the source timers of group `g` after timer `t`. */
  ghost predicate ListsAfter(s: QState, s': QState, g: Addr, t: Timer, a: Addr) {
    && (g in s'.groups <==> SomebodyLeft(s, g, t))
    && (g in s'.groups && g in s.groups ==>
          var was, gi := s.groups[g], s'.groups[g];
          && (gi.mode.Exclude? <==> was.mode.Exclude? && !EndsExclude(s, g, t))
          && (a in gi.requested <==> Known(s, g, a) && !WaitsFor(s, g, a, t))
          && (a in gi.excluded <==> was.mode.Exclude? && !EndsExclude(s, g, t) && (a in was.excluded || WaitsFor(s, g, a, t)))
          && (a in gi.requested && a in was.requested ==>
                && gi.requested[a].timer == was.requested[a].timer
                && gi.requested[a].count == if was.sourceRetrans == Some(t) then CountDown(was.requested[a].count) else was.requested[a].count)
          && gi.filterTimer == (if EndsExclude(s, g, t) then None else was.filterTimer)
          && (gi.olderHost.Some? <==> StaysOlder(s, g, t)))
  }

  lemma NobodyWaits(s: QState, g: Addr, t: Timer)
    requires g in s.groups && !EndsExclude(s, g, t)
    requires forall a | Known(s, g, a) :: !WaitsFor(s, g, a, t)
    requires s.groups[g].mode.Include? ==> s.groups[g].requested != map[]
    ensures SomebodyLeft(s, g, t)
  {
    if s.groups[g].mode.Include? {
      var a :| a in s.groups[g].requested;
      assert Known(s, g, a) && !WaitsFor(s, g, a, t);
    }
  }

  /** What the invariant says of a group apart from the register. */
  ghost predicate WellTimed(s: QState, g: Addr) {
    g in s.groups ==>
      var gi := s.groups[g];
      && (forall a | a in gi.requested :: gi.requested[a].timer.Some? && gi.requested[a].timer.value.kind == SourceT)
      && (forall a | a in gi.requested :: gi.requested[a].timer.value.gaddr == g)
      && (gi.filterTimer.Some? ==> gi.mode.Exclude? && gi.filterTimer.value.kind == FilterT && gi.filterTimer.value.gaddr == g)
      && (gi.olderHost.Some? ==> gi.olderHost.value.kind == OlderHostT && gi.olderHost.value.gaddr == g)
      && (gi.groupRetrans.Some? ==> gi.groupRetrans.value.kind == RetGroupT && gi.groupRetrans.value.gaddr == g)
      && (gi.sourceRetrans.Some? ==> gi.sourceRetrans.value.kind == RetSourceT && gi.sourceRetrans.value.gaddr == g)
      && (gi.mode.Include? ==> gi.requested != map[] && gi.excluded == map[])
      && (gi.InCompatibilityMode() ==> gi.olderHost.Some?)
      && gi.requested.Keys !! gi.excluded.Keys
      && (forall a | a in gi.excluded :: gi.excluded[a].timer.None?)
  }

  lemma InvTimed(cfg: Config, s: QState, g: Addr, t: Timer)
    requires Inv(cfg, s)
    ensures WellTimed(s, g) && WellTimed(s.(pending := s.pending - {t}), g)
  {
    if g in s.groups {
      assert GroupInv(cfg, s, g);
    }
  }

  lemma FilterLists(s: QState, t: Timer, a: Addr)
    requires WellTimed(s, t.gaddr) && t.kind.FilterT? && t.gaddr in s.groups
    ensures ListsAfter(s, FilterTimerFired(s, t.gaddr, t), t.gaddr, t, a)
  {
    var g := t.gaddr;
    if !EndsExclude(s, g, t) {
      NobodyWaits(s, g, t);
    } else if s.groups[g].requested != map[] {
      var b :| b in s.groups[g].requested;
      assert Known(s, g, b) && !WaitsFor(s, g, b, t);
    }
  }

  lemma SourceLists(s: QState, t: Timer, a: Addr)
    requires WellTimed(s, t.gaddr) && t.kind.SourceT? && t.gaddr in s.groups
    ensures ListsAfter(s, SourceTimerFired(s, t.gaddr, t), t.gaddr, t, a)
  {
    var g := t.gaddr;
    var gi := s.groups[g];
    if gi.mode.Include? && gi.requested.Keys != Expired(gi.requested, t) {
      var b :| b in gi.requested && b !in Expired(gi.requested, t);
      assert Known(s, g, b) && !WaitsFor(s, g, b, t);
    }
  }

  lemma OlderHostLists(cfg: Config, s: QState, t: Timer, a: Addr)
    requires WellTimed(s, t.gaddr) && t.kind.OlderHostT? && t.gaddr in s.groups
    ensures ListsAfter(s, OlderHostTimerFired(cfg, s, t.gaddr, t), t.gaddr, t, a)
  {
    NobodyWaits(s, t.gaddr, t);
  }

  lemma GroupQueryLists(cfg: Config, s: QState, t: Timer, a: Addr)
    requires WellTimed(s, t.gaddr) && t.gaddr in s.groups && t.kind.RetGroupT? && s.groups[t.gaddr].groupRetrans == Some(t)
    ensures ListsAfter(s, SendGroupQuery(cfg, s, t.gaddr), t.gaddr, t, a)
  {
    hide SendGroupQuery;
    NobodyWaits(s, t.gaddr, t);
    BurstKeeps(cfg, s, t.gaddr);
  }

  lemma SourceQueryLists(cfg: Config, s: QState, t: Timer, a: Addr)
    requires WellTimed(s, t.gaddr) && t.gaddr in s.groups && t.kind.RetSourceT? && s.groups[t.gaddr].sourceRetrans == Some(t)
    ensures ListsAfter(s, SendSourceQuery(cfg, s, t.gaddr, {}, true), t.gaddr, t, a)
  {
    hide SourceQueries;
    NobodyWaits(s, t.gaddr, t);
  }

  /** A group that does not hold the timer, or is not the one it belongs to, stays as it is. */
  lemma UnheldLists(s: QState, s': QState, g: Addr, t: Timer, a: Addr)
    requires WellTimed(s, g)
    requires (g in s'.groups <==> g in s.groups) && (g in s.groups ==> s'.groups[g] == s.groups[g])
    requires g in s.groups ==> t.gaddr != g || !s.groups[g].Holds(t)
    ensures ListsAfter(s, s', g, t, a)
  {
    if g in s.groups {
      NobodyWaits(s, g, t);
    }
  }

  /** The register plays no part. */
  lemma RegisterApart(s: QState, t: Timer, s': QState, g: Addr, a: Addr)
    ensures ListsAfter(s.(pending := s.pending - {t}), s', g, t, a) == ListsAfter(s, s', g, t, a)
  {
    var s0 := s.(pending := s.pending - {t});
    forall b
      ensures (Known(s, g, b) && !WaitsFor(s, g, b, t)) == (Known(s0, g, b) && !WaitsFor(s0, g, b, t))
    {
    }
    assert SomebodyLeft(s0, g, t) == SomebodyLeft(s, g, t);
  }

  lemma HeldLists(cfg: Config, s: QState, g: Addr, t: Timer, a: Addr)
    requires WellTimed(s, g) && g in s.groups && t.gaddr == g && s.groups[g].Holds(t) && t !in s.pending
    ensures ListsAfter(s, TimerTriggered(cfg, s, t), g, t, a)
  {
    hide ListsAfter, FilterTimerFired, SourceTimerFired, OlderHostTimerFired, SendGroupQuery, SendSourceQuery;
    assert s.(pending := s.pending - {t}) == s;
    match t.kind
    case FilterT => FilterLists(s, t, a);
    case SourceT => SourceLists(s, t, a);
    case OlderHostT => OlderHostLists(cfg, s, t, a);
    case RetGroupT => GroupQueryLists(cfg, s, t, a);
    case RetSourceT => SourceQueryLists(cfg, s, t, a);
  }

  /** Only the group of the timer changes. */
  lemma TimerOthers(cfg: Config, s: QState, t: Timer, h: Addr)
    requires WellTimed(s, h) && (h in s.groups ==> h != t.gaddr || !s.groups[h].Holds(t))
    ensures
      var s' := TimerTriggered(cfg, s, t);
      (h in s'.groups <==> h in s.groups) && (h in s.groups ==> s'.groups[h] == s.groups[h])
  {
    hide SendGroupQuery, SendSourceQuery;
    if h in s.groups && h == t.gaddr {
      var gi := s.groups[h];
      assert Expired(gi.requested, t) == {};
      assert gi.requested - {} == gi.requested && Stopped(gi.requested, {}) + gi.excluded == gi.excluded;
    }
  }

  /** Exactly what a timer does to the lists: the filter timer in use ends EXCLUDE mode and leaves the Requested List
      as the Include List, a source timer takes away the sources that wait for it, every other source keeps its timer
      and counter, and the record goes when nobody is left. */
  lemma TimerLists(cfg: Config, s: QState, t: Timer, g: Addr, a: Addr)
    requires cfg.Ok() && Inv(cfg, s) && t in s.pending
    ensures ListsAfter(s, TimerTriggered(cfg, s, t), g, t, a)
  {
    hide Inv, WellTimed, ListsAfter, FilterTimerFired, SourceTimerFired, OlderHostTimerFired, SendGroupQuery, SendSourceQuery;
    var s0 := s.(pending := s.pending - {t});
    InvTimed(cfg, s, g, t);
    RegisterApart(s, t, TimerTriggered(cfg, s, t), g, a);
    if g !in s0.groups || t.gaddr != g || !s0.groups[g].Holds(t) {
      TimerOthers(cfg, s, t, g);
      UnheldLists(s0, TimerTriggered(cfg, s, t), g, t, a);
    } else {
      assert s0.pending - {t} == s0.pending;
      HeldLists(cfg, s0, g, t, a);
    }
  }

  /** Exactly who is admitted after a timer: everybody while an older host counts; otherwise, when EXCLUDE mode ends, the
      sources somebody asked for, and else those admitted before that do not wait for the timer. */
  lemma TimerAdmits(cfg: Config, s: QState, t: Timer, a: Addr)
    requires cfg.Ok() && Inv(cfg, s) && t in s.pending
    ensures
      var g := t.gaddr;
      TimerTriggered(cfg, s, t).Membership(g).Admits(a) <==>
        && SomebodyLeft(s, g, t)
        && (StaysOlder(s, g, t)
            || if EndsExclude(s, g, t) then Known(s, g, a) else ListedView(s, g).Admits(a) && !WaitsFor(s, g, a, t))
  {
    hide Inv, TimerTriggered;
    InvTimed(cfg, s, t.gaddr, t);
    TimerLists(cfg, s, t, t.gaddr, a);
  }

  // ---------------------------------------------------------------- how long a source lasts

  predicate Unconcerned(es: seq<Event>, g: Addr) {
    forall i | 0 <= i < |es| :: !Concerns(es[i], g)
  }

  /** Without a record for the group, the lists after an event follow from those before. */
  lemma EventLists(cfg: Config, s: QState, e: Event, g: Addr, a: Addr)
    requires cfg.Ok() && Inv(cfg, s) && Enabled(cfg, s, e) && !Concerns(e, g)
    ensures
      var s' := Step(cfg, s, e);
      if e.Fire? then ListsAfter(s, s', g, e.t, a)
      else (g in s'.groups <==> g in s.groups) && (g in s.groups ==> s'.groups[g] == s.groups[g])
  {
    hide Inv, TimerTriggered, ReceiveRecord, ListsAfter;
    match e
    case Record(r) => OtherRecordKeeps(cfg, s, r, g);
    case Fire(t) => TimerLists(cfg, s, t, g, a);
    case Tick(_, _) =>
  }

  /** Without a record for the group, no source is listed that was not listed before. */
  lemma {:induction false} UnlistedAfterRun(cfg: Config, s: QState, es: seq<Event>, g: Addr, a: Addr)
    requires cfg.Ok() && Inv(cfg, s) && IsRun(cfg, s, es) && Unconcerned(es, g)
    requires !Known(s, g, a)
    ensures
      var s' := After(cfg, s, es);
      !Known(s', g, a) && (g in s'.groups && a in s'.groups[g].excluded ==> g in s.groups && a in s.groups[g].excluded)
    decreases |es|
  {
    hide Inv, Step, Enabled;
    if es != [] {
      EventLists(cfg, s, es[0], g, a);
      StepInv(cfg, s, es[0]);
      UnlistedAfterRun(cfg, Step(cfg, s, es[0]), es[1..], g, a);
    }
  }

  /** Without a record for the group, a source keeps its timer and goes when that is due. */
  lemma {:induction false} SourceAfterRun(cfg: Config, s: QState, es: seq<Event>, g: Addr, a: Addr, st: Timer)
    requires cfg.Ok() && Inv(cfg, s) && IsRun(cfg, s, es) && Unconcerned(es, g)
    requires WaitsFor(s, g, a, st)
    ensures
      var s' := After(cfg, s, es);
      WaitsFor(s', g, a, st) || (!Known(s', g, a) && st.deadline <= s'.now)
    decreases |es|
  {
    hide Inv, TimerTriggered, ReceiveRecord;
    if es != [] {
      var s1 := Step(cfg, s, es[0]);
      EventLists(cfg, s, es[0], g, a);
      StepInv(cfg, s, es[0]);
      if WaitsFor(s1, g, a, st) {
        SourceAfterRun(cfg, s1, es[1..], g, a, st);
      } else {
        assert es[0] == Fire(st);
        TimerKeepsTime(cfg, s, st);
        UnlistedAfterRun(cfg, s1, es[1..], g, a);
        TimeGoesOn(cfg, s1, es[1..]);
      }
    }
  }

  /** The lifetime of a source, exactly: if no record for the group arrives, it is listed until its timer is due and,
      once due timers are delivered, not any longer. */
  lemma SourceLifetime(cfg: Config, s: QState, es: seq<Event>, g: Addr, a: Addr)
    requires cfg.Ok() && Inv(cfg, s) && IsRun(cfg, s, es) && Unconcerned(es, g)
    requires Known(s, g, a)
    ensures s.groups[g].requested[a].timer.Some?
    ensures
      var s', end := After(cfg, s, es), s.groups[g].requested[a].timer.value.deadline;
      && (s'.now < end ==> Known(s', g, a) && s'.Membership(g).Admits(a))
      && (Quiet(s') && end <= s'.now ==> !Known(s', g, a))
  {
    hide Inv, IsRun, After;
    var s' := After(cfg, s, es);
    AllTimed(cfg, s, g, a);
    SourceAfterRun(cfg, s, es, g, a, s.groups[g].requested[a].timer.value);
    RunInv(cfg, s, es);
    if Known(s', g, a) {
      InvTimed(cfg, s', g, s.groups[g].requested[a].timer.value);
      RequestedRuns(cfg, s', g, a);
    }
  }

  /** A report refreshes: every source that IS_IN, ALLOW or TO_IN lists is listed with a full MALI to go and no query
      to come, in either mode and whether it was known before or not. */
  lemma ReportRefreshes(cfg: Config, s: QState, r: GroupRecord, a: Addr)
    requires cfg.Ok() && Inv(cfg, s) && Receivable(cfg, r) && ListsWanted(r) && a in r.sources
    ensures Known(ReceiveRecord(cfg, s, r), r.gaddr, a)
    ensures
      var src := ReceiveRecord(cfg, s, r).groups[r.gaddr].requested[a];
      src.timer.Some? && src.timer.value.deadline == s.now + cfg.mali && src.count == -1
  {
    hide Inv, ReceiveRecord;
    RecordLists(cfg, s, r, a);
    RecordSources(cfg, s, r, a);
  }

  /** What a listener asks for, it gets for MALI: if no other record for the group follows, whoever the sender wants is
      admitted until MALI has passed and, once the timers due by then are delivered, not any longer. */
  lemma WantedLastsMali(cfg: Config, s: QState, r: GroupRecord, es: seq<Event>, a: Addr)
    requires cfg.Ok() && Inv(cfg, s) && Receivable(cfg, r) && Wanted(r).Admits(a)
    requires IsRun(cfg, ReceiveRecord(cfg, s, r), es) && Unconcerned(es, r.gaddr)
    ensures
      var s' := After(cfg, ReceiveRecord(cfg, s, r), es);
      && (s'.now < s.now + cfg.mali ==> s'.Membership(r.gaddr).Admits(a))
      && (Quiet(s') && s.now + cfg.mali <= s'.now ==> !s'.Membership(r.gaddr).Admits(a))
  {
    hide Inv, ReceiveRecord, IsRun, After;
    var g, s1 := r.gaddr, ReceiveRecord(cfg, s, r);
    var s' := After(cfg, s1, es);
    assert s1 == Step(cfg, s, Record(r));
    StepInv(cfg, s, Record(r));
    RecordKeepsTime(cfg, s, r);
    RecordLists(cfg, s, r, a);
    if ListsWanted(r) {
      ReportRefreshes(cfg, s, r, a);
      SourceLifetime(cfg, s1, es, g, a);
    } else {
      RecordFilter(cfg, s, r);
      UnlistedAfterRun(cfg, s1, es, g, a);
      if s'.now < s.now + cfg.mali {
        ExcludedAfterRun(cfg, s1, es, g, s1.groups[g].filterTimer.value);
      }
    }
    if Quiet(s') && s.now + cfg.mali <= s'.now {
      ForgottenAfterMali(cfg, s1, es, g);
    }
  }

  // ---------------------------------------------------------------- how long an older host counts

  /** The time from the end of the older host timer in version `v` to the end of the compatibility effects: one more
      older host present interval for every version between `v` and the newest one, then MALI. */
  function Rest(cfg: Config, v: Version): nat {
    match v
    case IGMPv1 => cfg.ohpi + cfg.mali
    case IGMPv2 => cfg.mali
    case MLDv1 => cfg.mali
    case IGMPv3 => 0
    case MLDv2 => 0
  }

  /** Group `g` is under the effects of an older host that end at `end`, and in compatibility mode until MALI before. */
  predicate OlderUntil(cfg: Config, s: QState, g: Addr, end: int) {
    && g in s.groups && s.groups[g].olderHost.Some?
    && s.groups[g].olderHost.value.deadline + Rest(cfg, s.groups[g].compat) == end
    && (s.groups[g].InCompatibilityMode() || end <= s.now + cfg.mali)
  }

  /** The effects are over. */
  predicate OlderOver(s: QState, g: Addr, end: int) {
    g in s.groups && s.groups[g].olderHost.None? && !s.groups[g].InCompatibilityMode() && end <= s.now
  }

  /** The record of group `g` stays throughout the run and no older host reports it. */
  predicate StaysWithoutOlder(cfg: Config, s: QState, es: seq<Event>, g: Addr)
    decreases |es|
  {
    && g in s.groups
    && (es != [] ==>
          && (Concerns(es[0], g) ==> !FromOlderHost(cfg, es[0].r))
          && StaysWithoutOlder(cfg, Step(cfg, s, es[0]), es[1..], g))
  }

  lemma RecordKeepsOlder(cfg: Config, s: QState, r: GroupRecord, g: Addr)
    requires g in s.groups && (r.gaddr == g ==> !FromOlderHost(cfg, r))
    ensures
      var s' := ReceiveRecord(cfg, s, r);
      g in s'.groups ==> s'.groups[g].olderHost == s.groups[g].olderHost && s'.groups[g].compat == s.groups[g].compat
  {
    hide ApplyRow, RowFor;
    if r.gaddr != g {
      OtherRecordKeeps(cfg, s, r, g);
    }
  }

  lemma TimerKeepsOlder(cfg: Config, s: QState, t: Timer, g: Addr)
    requires g in s.groups && s.groups[g].olderHost != Some(t)
    ensures
      var s' := TimerTriggered(cfg, s, t);
      g in s'.groups ==> s'.groups[g].olderHost == s.groups[g].olderHost && s'.groups[g].compat == s.groups[g].compat
  {
    hide SendGroupQuery, SendSourceQuery;
  }

  /** The older host timer either moves the group on by one version or ends the effects. */
  lemma OlderTimer(cfg: Config, s: QState, t: Timer, g: Addr, end: int)
    requires cfg.Ok() && Inv(cfg, s) && Enabled(cfg, s, Fire(t)) && OlderUntil(cfg, s, g, end) && s.groups[g].olderHost == Some(t)
    ensures
      var s' := TimerTriggered(cfg, s, t);
      OlderUntil(cfg, s', g, end) || OlderOver(s', g, end)
  {
    hide SendGroupQuery, SendSourceQuery;
    assert GroupInv(cfg, s, g);
    assert s.groups[g].Holds(t);
    assert s.now == t.deadline;
  }

  lemma EventOlder(cfg: Config, s: QState, e: Event, g: Addr, end: int)
    requires cfg.Ok() && Inv(cfg, s) && Enabled(cfg, s, e) && (Concerns(e, g) ==> !FromOlderHost(cfg, e.r))
    requires OlderUntil(cfg, s, g, end) || OlderOver(s, g, end)
    requires g in Step(cfg, s, e).groups
    ensures OlderUntil(cfg, Step(cfg, s, e), g, end) || OlderOver(Step(cfg, s, e), g, end)
  {
    hide Inv, ReceiveRecord, TimerTriggered;
    match e
    case Record(r) =>
      RecordKeepsOlder(cfg, s, r, g);
      RecordKeepsTime(cfg, s, r);
    case Fire(t) =>
      TimerKeepsTime(cfg, s, t);
      if s.groups[g].olderHost == Some(t) {
        OlderTimer(cfg, s, t, g, end);
      } else {
        TimerKeepsOlder(cfg, s, t, g);
      }
    case Tick(_, _) =>
  }

  lemma {:induction false} OlderAfterRun(cfg: Config, s: QState, es: seq<Event>, g: Addr, end: int)
    requires cfg.Ok() && Inv(cfg, s) && IsRun(cfg, s, es) && StaysWithoutOlder(cfg, s, es, g)
    requires OlderUntil(cfg, s, g, end) || OlderOver(s, g, end)
    ensures OlderUntil(cfg, After(cfg, s, es), g, end) || OlderOver(After(cfg, s, es), g, end)
    decreases |es|
  {
    hide Inv, Step, Enabled, OlderUntil, OlderOver;
    if es != [] {
      EventOlder(cfg, s, es[0], g, end);
      StepInv(cfg, s, es[0]);
      OlderAfterRun(cfg, Step(cfg, s, es[0]), es[1..], g, end);
    }
  }

  /** How long an older host counts, exactly: after its report, and while the record stays and no older host reports the
      group again, everything is admitted until one older host present interval per version step and MALI have passed, and
      BLOCK and the sources of TO_EX are ignored until MALI before that. */
  lemma OlderHostLasts(cfg: Config, s: QState, r: GroupRecord, es: seq<Event>)
    requires cfg.Ok() && Inv(cfg, s) && Receivable(cfg, r) && FromOlderHost(cfg, r)
    requires
      var s1 := ReceiveRecord(cfg, s, r);
      IsRun(cfg, s1, es) && StaysWithoutOlder(cfg, s1, es, r.gaddr) && Quiet(After(cfg, s1, es))
    ensures
      var s', end := After(cfg, ReceiveRecord(cfg, s, r), es), s.now + cfg.ohpi + Rest(cfg, r.version);
      && r.gaddr in s'.groups
      && (s'.groups[r.gaddr].UnderCompatibilityEffects() <==> s'.now < end)
      && (s'.groups[r.gaddr].InCompatibilityMode() <==> s'.now < end - cfg.mali)
      && (s'.now < end ==> s'.Membership(r.gaddr) == EVERYTHING)
      && (end <= s'.now ==> s'.Membership(r.gaddr) == ListedView(s', r.gaddr))
  {
    hide Inv, IsRun, After, StaysWithoutOlder;
    var g, s1 := r.gaddr, ReceiveRecord(cfg, s, r);
    var s', end := After(cfg, s1, es), s.now + cfg.ohpi + Rest(cfg, r.version);
    StepInv(cfg, s, Record(r));
    StaysNow(cfg, s1, es, g);
    OlderReport(cfg, s, r);
    OlderAfterRun(cfg, s1, es, g, end);
    RunInv(cfg, s1, es);
    InvTimed(cfg, s', g, Timer(0, FilterT, 0, 0));
    if OlderUntil(cfg, s', g, end) {
      OlderRuns(cfg, s', g);
    }
  }

  lemma StaysNow(cfg: Config, s: QState, es: seq<Event>, g: Addr)
    requires StaysWithoutOlder(cfg, s, es, g)
    ensures g in s.groups
  {
  }

  lemma OlderRuns(cfg: Config, s: QState, g: Addr)
    requires Inv(cfg, s) && g in s.groups && s.groups[g].olderHost.Some?
    ensures s.groups[g].olderHost.value in s.pending
  {
    assert GroupInv(cfg, s, g);
  }

  lemma OlderReport(cfg: Config, s: QState, r: GroupRecord)
    requires cfg.Ok() && FromOlderHost(cfg, r) && r.gaddr in ReceiveRecord(cfg, s, r).groups
    ensures OlderUntil(cfg, ReceiveRecord(cfg, s, r), r.gaddr, s.now + cfg.ohpi + Rest(cfg, r.version))
  {
    hide ApplyRow, RowFor;
  }
}
