/** What the outside sees of a querier: records only widen the membership view of a group,
    timers only narrow it, and every change is announced. */
module QuerierViews {
  import opened Defs
  import opened MembershipDb
  import opened ReportTables
  import opened QuerierSpec
  import opened QuerierInvariant

  // ---------------------------------------------------------------- notifications

  /** Every group looks as it did at its last notification. */
  ghost predicate Announced(s: QState) {
    forall g :: LastView(s.notices, g) == s.Membership(g)
  }

  /** A leave of an older version for an unknown group: the record is announced while the older
      host timer makes it look like a join, and dropped afterwards. */
  predicate SilentLeave(cfg: Config, s: QState, e: Event) {
    && e.Record? && FromOlderHost(cfg, e.r) && e.r.gaddr !in s.groups
    && e.r.sources == {} && (e.r.rtype.ToIn? || e.r.rtype.IsIn? || e.r.rtype.Allow?)
  }

  /** The views that differ between two states are those of the new notices, if announced. */
  lemma LastViewAfter(notices: seq<Notice>, n: Notice, g: Addr)
    ensures LastView(notices + [n], g) == if n.gaddr == g then n.view else LastView(notices, g)
  {
    assert (notices + [n])[..|notices|] == notices;
  }

  lemma AnnouncedAfterNotify(s: QState, s': QState, g: Addr)
    requires Announced(s)
    requires forall h | h != g :: s'.Membership(h) == s.Membership(h)
    requires s'.notices == s.notices + [Notice(g, s'.Membership(g))]
    ensures Announced(s')
  {
    forall h
      ensures LastView(s'.notices, h) == s'.Membership(h)
    {
      LastViewAfter(s.notices, Notice(g, s'.Membership(g)), h);
    }
  }

  /** The state in which the table row of record `r` is looked up. */
  function Prepared(cfg: Config, s: QState, r: GroupRecord): (s1: QState)
    ensures r.gaddr in s1.groups
  {
    Downgraded(cfg, Opened(cfg, s, r.gaddr), r)
  }

  lemma PreparedFrame(cfg: Config, s: QState, r: GroupRecord)
    ensures
      var s1 := Prepared(cfg, s, r);
      && s1.notices == s.notices && s1.now == s.now && s1.log == s.log
      && (forall h | h != r.gaddr :: h in s.groups <==> h in s1.groups)
      && (forall h | h != r.gaddr && h in s.groups :: s1.groups[h] == s.groups[h])
      && var gi := s1.groups[r.gaddr];
      && (r.gaddr in s.groups ==>
            && gi == s.groups[r.gaddr].(compat := gi.compat, olderHost := gi.olderHost)
            && (!FromOlderHost(cfg, r) ==> gi == s.groups[r.gaddr]))
      && (r.gaddr !in s.groups ==>
            && gi == NewGroup(cfg.version).(compat := gi.compat, olderHost := gi.olderHost)
            && (!FromOlderHost(cfg, r) ==> gi == NewGroup(cfg.version)))
      && (FromOlderHost(cfg, r) ==> gi.olderHost.Some? && gi.compat == r.version)
  {
  }

  /** The part of the invariant that views depend on. */
  lemma RecordFacts(cfg: Config, s: QState, g: Addr)
    requires Inv(cfg, s) && g in s.groups
    ensures s.groups[g].mode.Include? ==> s.groups[g].requested.Keys != {} && s.groups[g].excluded.Keys == {}
    ensures s.groups[g].requested.Keys !! s.groups[g].excluded.Keys
    ensures s.groups[g].InCompatibilityMode() ==> s.groups[g].UnderCompatibilityEffects()
  {
    hide SourcesOk, BurstOk, SourceRetransOk;
    assert GroupInv(cfg, s, g);
  }

  lemma RecordOthers(cfg: Config, s: QState, r: GroupRecord, h: Addr)
    requires h != r.gaddr
    ensures ReceiveRecord(cfg, s, r).Membership(h) == s.Membership(h)
    ensures h in ReceiveRecord(cfg, s, r).groups <==> h in s.groups
  {
    hide ApplyRow, Downgraded, Opened, RowFor;
    PreparedFrame(cfg, s, r);
  }

  /** What a record does to the views: the group of the record is either left as it is or announced;
      only the announcement of a silent leave does not last. */
  lemma RecordViews(cfg: Config, s: QState, r: GroupRecord)
    requires cfg.Ok() && Inv(cfg, s) && Receivable(cfg, r)
    ensures
      var s' := ReceiveRecord(cfg, s, r);
      var g := r.gaddr;
      && (s'.notices == s.notices ==> s'.Membership(g) == s.Membership(g) && !SilentLeave(cfg, s, Record(r)))
      && (s'.notices != s.notices ==>
            s'.notices == s.notices + [Notice(g, if SilentLeave(cfg, s, Record(r)) then EVERYTHING else s'.Membership(g))])
      && (SilentLeave(cfg, s, Record(r)) ==> s'.Membership(g) == NOTHING)
  {
    hide ApplyRow, Downgraded, Opened, Inv, RowFor;
    var g := r.gaddr;
    var s1 := Prepared(cfg, s, r);
    PreparedFrame(cfg, s, r);
    if g in s.groups {
      RecordFacts(cfg, s, g);
    }
    if !(s1.groups[g].InCompatibilityMode() && r.rtype.Block?) {
      QuietRow(cfg, s1, r);
      if RowFor(s1, r).notify {
        AnnouncedRow(cfg, s, r);
      }
    }
  }

  /** A row that announces nothing does not change the view. */
  lemma QuietRow(cfg: Config, s1: QState, r: GroupRecord)
    requires r.gaddr in s1.groups && !(s1.groups[r.gaddr].InCompatibilityMode() && r.rtype.Block?)
    requires s1.groups[r.gaddr].mode.Include? ==> s1.groups[r.gaddr].excluded.Keys == {}
    ensures
      var row := RowFor(s1, r);
      !row.notify ==>
        && (r.rtype.Block? || r.rtype.Unknown?)
        && ApplyRow(cfg, s1, r.gaddr, row).Membership(r.gaddr) == s1.Membership(r.gaddr)
        && (s1.groups[r.gaddr].requested.Keys != {} ==> row.x != {})
  {
    hide ApplyRow;
  }

  /** A row that announces something: the record lasts, or nothing was asked for and nothing known. */
  lemma AnnouncedRow(cfg: Config, s: QState, r: GroupRecord)
    requires cfg.Ok() && Inv(cfg, s) && Receivable(cfg, r) && RowFor(Prepared(cfg, s, r), r).notify
    requires !(Prepared(cfg, s, r).groups[r.gaddr].InCompatibilityMode() && r.rtype.Block?)
    ensures
      var row := RowFor(Prepared(cfg, s, r), r);
      && (Prepared(cfg, s, r).groups[r.gaddr].mode.Include? && row.mode.Include? && row.x == {} ==>
            r.gaddr !in s.groups && r.sources == {} && (r.rtype.ToIn? || r.rtype.IsIn? || r.rtype.Allow?))
      && (SilentLeave(cfg, s, Record(r)) ==> row.mode.Include? && row.x == {})
  {
    hide ApplyRow, Downgraded, Opened, Inv;
    PreparedFrame(cfg, s, r);
    if r.gaddr in s.groups {
      RecordFacts(cfg, s, r.gaddr);
    }
  }

  lemma AnnouncedAfterRecord(cfg: Config, s: QState, r: GroupRecord)
    requires cfg.Ok() && Inv(cfg, s) && Receivable(cfg, r) && Announced(s)
    ensures Announced(ReceiveRecord(cfg, s, r)) <==> !SilentLeave(cfg, s, Record(r))
  {
    hide ReceiveRecord, SilentLeave;
    var s' := ReceiveRecord(cfg, s, r);
    RecordViews(cfg, s, r);
    forall h | h != r.gaddr
      ensures s'.Membership(h) == s.Membership(h)
    {
      RecordOthers(cfg, s, r, h);
    }
    if SilentLeave(cfg, s, Record(r)) {
      LastViewAfter(s.notices, Notice(r.gaddr, EVERYTHING), r.gaddr);
      assert LastView(s'.notices, r.gaddr) == EVERYTHING;
    } else if s'.notices != s.notices {
      AnnouncedAfterNotify(s, s', r.gaddr);
    }
  }

  /** What a timer does to the views: it changes only its own group, announces every change and
      never admits a source that was not admitted before. */
  lemma TimerViews(cfg: Config, s: QState, t: Timer)
    requires cfg.Ok() && Inv(cfg, s) && t in s.pending
    ensures
      var s' := TimerTriggered(cfg, s, t);
      && (forall h | h != t.gaddr :: s'.Membership(h) == s.Membership(h))
      && (s'.notices == s.notices ==> s'.Membership(t.gaddr) == s.Membership(t.gaddr))
      && (s'.notices != s.notices ==>
            s'.notices == s.notices + [Notice(t.gaddr, s'.Membership(t.gaddr))]
            && (t.kind.FilterT? || t.kind.SourceT? || t.kind.OlderHostT?))
      && Within(s'.Membership(t.gaddr), s.Membership(t.gaddr))
  {
    hide SendGroupQuery, SendSourceQuery, Inv;
    if t.gaddr in s.groups {
      RecordFacts(cfg, s, t.gaddr);
    }
  }

  lemma AnnouncedAfterTimer(cfg: Config, s: QState, t: Timer)
    requires cfg.Ok() && Inv(cfg, s) && t in s.pending && Announced(s)
    ensures Announced(TimerTriggered(cfg, s, t))
  {
    hide TimerTriggered, Inv;
    TimerViews(cfg, s, t);
    var s' := TimerTriggered(cfg, s, t);
    if s'.notices != s.notices {
      AnnouncedAfterNotify(s, s', t.gaddr);
    }
  }

  /** No silent change: after an event every group looks as it was last announced, except exactly
      after a silent leave. */
  lemma NoSilentChange(cfg: Config, s: QState, e: Event)
    requires cfg.Ok() && Inv(cfg, s) && Announced(s) && Enabled(cfg, s, e)
    ensures Announced(Step(cfg, s, e)) <==> !SilentLeave(cfg, s, e)
  {
    hide ReceiveRecord, TimerTriggered;
    match e
    case Record(r) => AnnouncedAfterRecord(cfg, s, r);
    case Fire(t) => AnnouncedAfterTimer(cfg, s, t);
    case Tick(_, _) =>
  }

  /** The run contains no silent leave. */
  predicate NoSilentLeave(cfg: Config, s: QState, es: seq<Event>)
    decreases |es|
  {
    es == [] || (!SilentLeave(cfg, s, es[0]) && NoSilentLeave(cfg, Step(cfg, s, es[0]), es[1..]))
  }

  lemma {:induction false} NoSilentChangeInRuns(cfg: Config, s: QState, es: seq<Event>)
    requires cfg.Ok() && Inv(cfg, s) && Announced(s) && IsRun(cfg, s, es) && NoSilentLeave(cfg, s, es)
    ensures Announced(After(cfg, s, es))
    decreases |es|
  {
    if es != [] {
      NoSilentChange(cfg, s, es[0]);
      StepInv(cfg, s, es[0]);
      NoSilentChangeInRuns(cfg, Step(cfg, s, es[0]), es[1..]);
    }
  }

  /** A silent leave does happen: the first event of a run can be one. */
  lemma SilentLeaveHappens(cfg: Config, r: GroupRecord)
    requires cfg.Ok() && cfg.version == IGMPv3 && r == GroupRecord(ToIn, r.gaddr, {}, IGMPv2)
    ensures Inv(cfg, EMPTY) && Announced(EMPTY) && Enabled(cfg, EMPTY, Record(r))
    ensures
      var s := Step(cfg, EMPTY, Record(r));
      LastView(s.notices, r.gaddr) == EVERYTHING && s.Membership(r.gaddr) == NOTHING
  {
    RecordViews(cfg, EMPTY, r);
    LastViewAfter([], Notice(r.gaddr, EVERYTHING), r.gaddr);
  }

  // ---------------------------------------------------------------- widening and narrowing

  /** What the host that sent the record wants to receive. */
  function Wanted(r: GroupRecord): View {
    match r.rtype
    case IsIn => View(Include, r.sources)
    case ToIn => View(Include, r.sources)
    case Allow => View(Include, r.sources)
    case IsEx => View(Exclude, r.sources)
    case ToEx => View(Exclude, r.sources)
    case Block => NOTHING
    case Unknown => NOTHING
  }

  function ListView(mode: FilterMode, x: set<Addr>, y: set<Addr>): View {
    if mode.Include? then View(Include, x) else View(Exclude, y)
  }

  /** Every row of the tables widens the view and admits what the sender asked for. */
  lemma RowWidens(mode: FilterMode, x: set<Addr>, y: set<Addr>, r: GroupRecord)
    requires x !! y
    ensures
      var row := TableRow(mode, r.rtype, x, y, r.sources);
      && Within(ListView(mode, x, y), ListView(row.mode, row.x, row.y))
      && Within(Wanted(r), ListView(row.mode, row.x, row.y))
  {
  }

  /** A record never takes a source away and admits everything its sender asked for. */
  lemma RecordWidens(cfg: Config, s: QState, r: GroupRecord)
    requires cfg.Ok() && Inv(cfg, s) && Receivable(cfg, r)
    ensures
      var s' := ReceiveRecord(cfg, s, r);
      && Within(s.Membership(r.gaddr), s'.Membership(r.gaddr))
      && Within(Wanted(r), s'.Membership(r.gaddr))
      && (forall h | h != r.gaddr :: s'.Membership(h) == s.Membership(h))
  {
    hide ApplyRow, Downgraded, Opened, Inv, TableRow;
    var g := r.gaddr;
    var s1 := Prepared(cfg, s, r);
    var s' := ReceiveRecord(cfg, s, r);
    forall h | h != g
      ensures s'.Membership(h) == s.Membership(h)
    {
      RecordOthers(cfg, s, r, h);
    }
    PreparedFrame(cfg, s, r);
    if g in s.groups {
      RecordFacts(cfg, s, g);
    }
    var gi := s1.groups[g];
    RowWidens(gi.mode, gi.requested.Keys, gi.excluded.Keys, r);
    var row := RowFor(s1, r);
    if !(gi.InCompatibilityMode() && r.rtype.Block?) {
      var s2 := ApplyRow(cfg, s1, g, row);
      assert gi.olderHost.Some? ==> s2.Membership(g) == EVERYTHING;
      assert gi.olderHost.None? ==> row == TableRow(gi.mode, r.rtype, gi.requested.Keys, gi.excluded.Keys, r.sources);
      if s' != s2 {
        // the record was dropped because it listed no source
        assert row.mode.Include? && row.x == {};
        ClosedWantsNothing(gi, r);
      }
    }
  }

  /** A row that ends in an empty INCLUDE state comes from one, and its sender wants nothing. */
  lemma ClosedWantsNothing(gi: GroupInfo, r: GroupRecord)
    requires gi.mode.Include?
    requires
      var list := if gi.InCompatibilityMode() && r.rtype.ToEx? then {} else r.sources;
      var row := TableRow(gi.mode, r.rtype, gi.requested.Keys, gi.excluded.Keys, list);
      row.mode.Include? && row.x == {}
    ensures gi.requested.Keys == {}
    ensures forall a :: !Wanted(r).Admits(a)
  {
  }

  /** A source that a run takes away is taken away by a filter, source or older host timer. */
  lemma {:induction false} DroppedByTimer(cfg: Config, s: QState, es: seq<Event>, g: Addr, a: Addr) returns (i: nat)
    requires cfg.Ok() && Inv(cfg, s) && IsRun(cfg, s, es)
    requires s.Membership(g).Admits(a) && !After(cfg, s, es).Membership(g).Admits(a)
    ensures i < |es| && es[i].Fire? && es[i].t.gaddr == g
    ensures es[i].t.kind.FilterT? || es[i].t.kind.SourceT? || es[i].t.kind.OlderHostT?
    ensures After(cfg, s, es[..i]).Membership(g).Admits(a)
    ensures !After(cfg, s, es[..i + 1]).Membership(g).Admits(a)
    decreases |es|
  {
    hide ReceiveRecord, TimerTriggered;
    var s1 := Step(cfg, s, es[0]);
    StepInv(cfg, s, es[0]);
    if s1.Membership(g).Admits(a) {
      var j := DroppedByTimer(cfg, s1, es[1..], g, a);
      i := j + 1;
      assert es[..i][1..] == es[1..][..j];
      assert es[..i + 1][1..] == es[1..][..j + 1];
    } else {
      i := 0;
      assert es[..1][1..] == [];
      match es[0]
      case Record(r) => RecordWidens(cfg, s, r);
      case Fire(t) => TimerViews(cfg, s, t);
      case Tick(_, _) =>
    }
  }
}
