/** Memberships are soft state: a group nobody reports for MALI is forgotten. */
module SoftState {
  import opened Defs
  import opened MembershipDb
  import opened ReportTables
  import opened QuerierSpec
  import opened QuerierInvariant
  import opened QuerierViews

  /** No timer that keeps the record of a group alive runs beyond `bound`. */
  ghost predicate ExpiresBy(gi: GroupInfo, bound: int) {
    && (gi.filterTimer.Some? ==> gi.filterTimer.value.deadline <= bound)
    && (forall a | a in gi.requested && gi.requested[a].timer.Some? :: gi.requested[a].timer.value.deadline <= bound)
  }

  ghost predicate GroupExpiresBy(s: QState, g: Addr, bound: int) {
    g in s.groups ==> ExpiresBy(s.groups[g], bound)
  }

  predicate Concerns(e: Event, g: Addr) {
    e.Record? && e.r.gaddr == g
  }

  lemma QueryRoundExpires(cfg: Config, s: QState, g: Addr, bound: int)
    requires g in s.groups && ExpiresBy(s.groups[g], bound)
    ensures ExpiresBy(SendSourceQuery(cfg, s, g, {}, true).groups[g], bound)
  {
  }

  /** A retransmission of a group query does not touch the timers that keep the record alive. */
  lemma BurstExpires(cfg: Config, s: QState, g: Addr, bound: int)
    requires g in s.groups && s.groups[g].groupRetrans.Some? && ExpiresBy(s.groups[g], bound)
    ensures ExpiresBy(SendGroupQuery(cfg, s, g).groups[g], bound)
  {
  }

  lemma TimerExpires(cfg: Config, s: QState, t: Timer, g: Addr, bound: int)
    requires GroupExpiresBy(s, g, bound)
    ensures GroupExpiresBy(TimerTriggered(cfg, s, t), g, bound)
  {
    hide SendSourceQuery, SendGroupQuery;
    var s0 := s.(pending := s.pending - {t});
    if t.gaddr == g && g in s0.groups {
      QueryRoundExpires(cfg, s0, g, bound);
      if s0.groups[g].groupRetrans.Some? {
        BurstExpires(cfg, s0, g, bound);
      }
    }
  }

  lemma OtherRecordKeeps(cfg: Config, s: QState, r: GroupRecord, g: Addr)
    requires r.gaddr != g
    ensures
      var s' := ReceiveRecord(cfg, s, r);
      (g in s'.groups <==> g in s.groups) && (g in s.groups ==> s'.groups[g] == s.groups[g])
  {
    hide ApplyRow, Downgraded, Opened, RowFor;
    PreparedFrame(cfg, s, r);
  }

  lemma StepExpires(cfg: Config, s: QState, e: Event, g: Addr, bound: int)
    requires !Concerns(e, g) && GroupExpiresBy(s, g, bound)
    ensures GroupExpiresBy(Step(cfg, s, e), g, bound)
  {
    hide ReceiveRecord, TimerTriggered;
    match e
    case Record(r) => OtherRecordKeeps(cfg, s, r, g);
    case Fire(t) => TimerExpires(cfg, s, t, g, bound);
    case Tick(_, _) =>
  }

  lemma {:induction false} RunExpires(cfg: Config, s: QState, es: seq<Event>, g: Addr, bound: int)
    requires GroupExpiresBy(s, g, bound)
    requires forall i | 0 <= i < |es| :: !Concerns(es[i], g)
    ensures GroupExpiresBy(After(cfg, s, es), g, bound)
    decreases |es|
  {
    if es != [] {
      StepExpires(cfg, s, es[0], g, bound);
      RunExpires(cfg, Step(cfg, s, es[0]), es[1..], g, bound);
    }
  }

  /** All timers that are due have been delivered. */
  predicate Quiet(s: QState) {
    forall t | t in s.pending :: s.now < t.deadline
  }

  /** Once the due timers are delivered, a record that is still there has a timer to come. */
  lemma RecordHasTimerToCome(cfg: Config, s: QState, g: Addr)
    requires Inv(cfg, s) && Quiet(s) && g in s.groups
    ensures !ExpiresBy(s.groups[g], s.now)
  {
    assert GroupInv(cfg, s, g);
    var gi := s.groups[g];
    if gi.mode.Include? {
      var a :| a in gi.requested;
      assert gi.requested[a].timer.value in s.pending;
    } else {
      assert gi.filterTimer.value in s.pending;
    }
  }

  lemma ExpiresWithinMali(cfg: Config, s: QState, g: Addr)
    requires Inv(cfg, s)
    ensures GroupExpiresBy(s, g, s.now + cfg.mali)
  {
    if g in s.groups {
      assert GroupInv(cfg, s, g);
    }
  }

  /** Bounded soft state: if no record for `g` arrives for MALI, the record of `g` is gone once the
      due timers are delivered, whatever else happens in between. */
  lemma ForgottenAfterMali(cfg: Config, s: QState, es: seq<Event>, g: Addr)
    requires cfg.Ok() && Inv(cfg, s) && IsRun(cfg, s, es)
    requires forall i | 0 <= i < |es| :: !Concerns(es[i], g)
    requires Quiet(After(cfg, s, es)) && s.now + cfg.mali <= After(cfg, s, es).now
    ensures g !in After(cfg, s, es).groups
  {
    var s' := After(cfg, s, es);
    ExpiresWithinMali(cfg, s, g);
    RunExpires(cfg, s, es, g, s.now + cfg.mali);
    RunInv(cfg, s, es);
    if g in s'.groups {
      RecordHasTimerToCome(cfg, s', g);
    }
  }

  // ---------------------------------------------------------------- delivery ends

  /** The timers that are due. */
  function Due(s: QState): set<Timer> {
    set t | t in s.pending && t.deadline <= s.now
  }

  /** Whatever a timer sets off is due later than now. */
  ghost predicate SetsOffLater(s: QState, s': QState, t: Timer) {
    s'.now == s.now && forall u | u in s'.pending :: u in s.pending - {t} || s.now < u.deadline
  }

  lemma SourceRoundLater(cfg: Config, s: QState, g: Addr)
    requires cfg.Ok() && g in s.groups
    ensures
      var r := SendSourceQuery(cfg, s, g, {}, true);
      forall u | u in r.pending :: u in s.pending || s.now < u.deadline
  {
  }

  lemma BurstRoundLater(cfg: Config, s: QState, g: Addr)
    requires cfg.Ok() && g in s.groups && s.groups[g].groupRetrans.Some?
    ensures
      var r := SendGroupQuery(cfg, s, g);
      forall u | u in r.pending :: u in s.pending || s.now < u.deadline
  {
  }

  lemma DeliveryLater(cfg: Config, s: QState, t: Timer)
    requires cfg.Ok() && t in s.pending
    ensures SetsOffLater(s, TimerTriggered(cfg, s, t), t)
  {
    hide SendSourceQuery, SendGroupQuery;
    var s0 := s.(pending := s.pending - {t});
    if t.gaddr in s0.groups {
      SourceRoundLater(cfg, s0, t.gaddr);
      if s0.groups[t.gaddr].groupRetrans.Some? {
        BurstRoundLater(cfg, s0, t.gaddr);
      }
    }
  }

  /** Every delivery leaves fewer due timers, so delivering them comes to an end. */
  lemma {:induction false} DeliveryEnds(cfg: Config, s: QState) returns (es: seq<Event>)
    requires cfg.Ok() && Inv(cfg, s)
    ensures IsRun(cfg, s, es) && forall i | 0 <= i < |es| :: es[i].Fire?
    ensures Quiet(After(cfg, s, es)) && After(cfg, s, es).now == s.now
    decreases |Due(s)|
  {
    hide TimerTriggered;
    if Due(s) == {} {
      es := [];
      forall t | t in s.pending
        ensures s.now < t.deadline
      {
        assert t in Due(s) <==> t.deadline <= s.now;
      }
    } else {
      var t :| t in Due(s);
      var s' := TimerTriggered(cfg, s, t);
      DeliveryLater(cfg, s, t);
      StepInv(cfg, s, Fire(t));
      assert Due(s') <= Due(s) - {t};
      SubsetSize(Due(s'), Due(s) - {t});
      var rest := DeliveryEnds(cfg, s');
      es := [Fire(t)] + rest;
      assert es[1..] == rest;
    }
  }

  lemma {:induction false} SubsetSize<T>(a: set<T>, b: set<T>)
    requires a <= b
    ensures |a| <= |b|
  {
    if x :| x in a {
      SubsetSize(a - {x}, b - {x});
    }
  }

  // ---------------------------------------------------------------- time passes

  lemma RecordKeepsTime(cfg: Config, s: QState, r: GroupRecord)
    ensures ReceiveRecord(cfg, s, r).now == s.now
  {
    hide ApplyRow, Downgraded, Opened;
    PreparedFrame(cfg, s, r);
  }

  lemma TimerKeepsTime(cfg: Config, s: QState, t: Timer)
    ensures TimerTriggered(cfg, s, t).now == s.now
  {
    hide SendSourceQuery, SendGroupQuery;
  }

  lemma {:induction false} TimeGoesOn(cfg: Config, s: QState, es: seq<Event>)
    requires IsRun(cfg, s, es)
    ensures s.now <= After(cfg, s, es).now
    decreases |es|
  {
    hide TimerTriggered, ReceiveRecord;
    if es != [] {
      match es[0] {
        case Record(r) => RecordKeepsTime(cfg, s, r);
        case Fire(t) => TimerKeepsTime(cfg, s, t);
        case Tick(_, _) =>
      }
      TimeGoesOn(cfg, Step(cfg, s, es[0]), es[1..]);
    }
  }

  lemma {:induction false} RunAppend(cfg: Config, s: QState, a: seq<Event>, b: seq<Event>)
    requires IsRun(cfg, s, a) && IsRun(cfg, After(cfg, s, a), b)
    ensures IsRun(cfg, s, a + b) && After(cfg, s, a + b) == After(cfg, After(cfg, s, a), b)
    decreases |a|
  {
    hide Step, Enabled;
    if a == [] {
      assert a + b == b;
    } else {
      RunAppend(cfg, Step(cfg, s, a[0]), a[1..], b);
      assert (a + b)[1..] == a[1..] + b;
    }
  }

  lemma OneEvent(cfg: Config, s: QState, e: Event)
    requires Enabled(cfg, s, e)
    ensures IsRun(cfg, s, [e]) && After(cfg, s, [e]) == Step(cfg, s, e)
  {
    hide Step, Enabled;
    assert [e][1..] == [];
  }

  lemma TwoEvents(cfg: Config, s: QState, e: Event, f: Event)
    requires Enabled(cfg, s, e) && Enabled(cfg, Step(cfg, s, e), f)
    ensures IsRun(cfg, s, [e, f]) && After(cfg, s, [e, f]) == Step(cfg, Step(cfg, s, e), f)
  {
    hide Step, Enabled;
    OneEvent(cfg, s, e);
    OneEvent(cfg, Step(cfg, s, e), f);
    RunAppend(cfg, s, [e], [f]);
    assert [e] + [f] == [e, f];
  }

  /** The latest time up to `limit` that no deadline forbids. */
  lemma {:induction false} NextStop(pending: set<Timer>, now: int, limit: int) returns (next: int)
    requires now < limit && forall t | t in pending :: now < t.deadline
    ensures now < next <= limit && forall t | t in pending :: next <= t.deadline
  {
    next := limit;
    if t :| t in pending {
      var rest := NextStop(pending - {t}, now, limit);
      next := if t.deadline < rest then t.deadline else rest;
    }
  }

  /** Time never gets stuck: from every state of the invariant, delivering timers and letting time pass
      reaches any later time with all due timers delivered. */
  lemma {:induction false} TimePasses(cfg: Config, s: QState, limit: int) returns (es: seq<Event>)
    requires cfg.Ok() && Inv(cfg, s) && s.now <= limit
    ensures IsRun(cfg, s, es) && forall i | 0 <= i < |es| :: !es[i].Record?
    ensures After(cfg, s, es).now == limit && Quiet(After(cfg, s, es))
    decreases limit - s.now
  {
    hide TimerTriggered, ReceiveRecord, Inv;
    var due := DeliveryEnds(cfg, s);
    var s1 := After(cfg, s, due);
    RunInv(cfg, s, due);
    es := due;
    if s1.now < limit {
      var next := NextStop(s1.pending, s1.now, limit);
      var s2 := Step(cfg, s1, Tick(next, s1.lag));
      StepInv(cfg, s1, Tick(next, s1.lag));
      var rest := TimePasses(cfg, s2, limit);
      var later := [Tick(next, s1.lag)] + rest;
      assert later[1..] == rest;
      RunAppend(cfg, s, due, later);
      es := due + later;
    }
  }

  /** Left to its timers, a querier forgets every group within MALI. */
  lemma EverythingFades(cfg: Config, s: QState) returns (es: seq<Event>)
    requires cfg.Ok() && Inv(cfg, s)
    ensures IsRun(cfg, s, es) && After(cfg, s, es).now == s.now + cfg.mali && After(cfg, s, es).groups == map[]
  {
    hide IsRun, After, Inv;
    es := TimePasses(cfg, s, s.now + cfg.mali);
    var s' := After(cfg, s, es);
    forall g
      ensures g !in s'.groups
    {
      ForgottenAfterMali(cfg, s, es, g);
    }
  }
}
