/** What a record does, said without the report tables: which sources are admitted, listed, asked for and refreshed
    afterwards, in every state a querier can be in. */
module RecordMeaning {
  import opened Defs
  import opened MembershipDb
  import opened ReportTables
  import opened QuerierSpec
  import opened QuerierInvariant
  import opened QuerierViews
  import opened SoftState
  import opened LeaveLatency

  /** The view that the lists of a group give, whatever older hosts make of it. */
  function ListedView(s: QState, g: Addr): View {
    if g in s.groups then ListView(s.groups[g].mode, s.groups[g].requested.Keys, s.groups[g].excluded.Keys) else NOTHING
  }

  /** The group is in compatibility mode when the record is treated. */
  predicate OlderMode(cfg: Config, s: QState, r: GroupRecord) {
    FromOlderHost(cfg, r) || (r.gaddr in s.groups && s.groups[r.gaddr].InCompatibilityMode())
  }

  /** The record as the querier takes it: in compatibility mode BLOCK is ignored and TO_EX excludes no source. */
  function Heard(cfg: Config, s: QState, r: GroupRecord): GroupRecord {
    if !OlderMode(cfg, s, r) then r
    else if r.rtype.Block? then r.(rtype := Unknown)
    else if r.rtype.ToEx? then r.(sources := {})
    else r
  }

  /** The record lists sources its sender wants. */
  predicate ListsWanted(r: GroupRecord) {
    r.rtype.IsIn? || r.rtype.Allow? || r.rtype.ToIn?
  }

  /** The record excludes the sources it lists. */
  predicate ListsUnwanted(r: GroupRecord) {
    r.rtype.IsEx? || r.rtype.ToEx?
  }

  /** The sender has just stopped wanting source `a`, or never wanted it and says so in a change report. */
  predicate Withdraws(r: GroupRecord, a: Addr) {
    ((r.rtype.Block? || r.rtype.ToEx?) && a in r.sources) || (r.rtype.ToIn? && a !in r.sources)
  }

  // ---------------------------------------------------------------- who is admitted

  /** The state a record is looked up in and what of it the record depends on. */
  lemma PreparedLists(cfg: Config, s: QState, r: GroupRecord)
    requires cfg.Ok() && Inv(cfg, s)
    ensures
      var g, s1 := r.gaddr, Prepared(cfg, s, r);
      var gi := s1.groups[g];
      && ListView(gi.mode, gi.requested.Keys, gi.excluded.Keys) == ListedView(s, g)
      && (g in s.groups ==>
            && gi.mode == s.groups[g].mode && gi.requested == s.groups[g].requested && gi.excluded == s.groups[g].excluded
            && gi.filterTimer == s.groups[g].filterTimer && gi.groupRetrans == s.groups[g].groupRetrans)
      && (g !in s.groups ==> gi.mode.Include? && gi.requested == map[] && gi.excluded == map[] && gi.filterTimer.None?)
      && gi.requested.Keys !! gi.excluded.Keys && (gi.mode.Include? ==> gi.excluded == map[])
      && (gi.InCompatibilityMode() <==> OlderMode(cfg, s, r))
      && (gi.olderHost.Some? <==> FromOlderHost(cfg, r) || (g in s.groups && s.groups[g].olderHost.Some?))
      && s1.now == s.now
  {
    hide Inv, Downgraded, Opened;
    PreparedFrame(cfg, s, r);
    if r.gaddr in s.groups {
      RecordFacts(cfg, s, r.gaddr);
    }
  }

  /** The lists after a row, from the view and the list before. */
  lemma RowLists(mode: FilterMode, x: set<Addr>, y: set<Addr>, h: GroupRecord, a: Addr)
    requires x !! y && (mode.Include? ==> y == {})
    ensures
      var row, v := TableRow(mode, h.rtype, x, y, h.sources), ListView(mode, x, y);
      && (row.mode.Exclude? <==> mode.Exclude? || ListsUnwanted(h))
      && (a in row.x <==>
            if ListsWanted(h) then a in x || a in h.sources
            else if ListsUnwanted(h) then a in h.sources && v.Admits(a)
            else a in x || (h.rtype.Block? && mode.Exclude? && a in h.sources && v.Admits(a)))
      && (a in row.y <==> row.mode.Exclude? && !v.Admits(a) && !Wanted(h).Admits(a))
      && (a in row.ask <==> Withdraws(h, a) && v.Admits(a) && (h.rtype.ToIn? ==> a in x))
      && (a in row.refresh <==>
            (ListsWanted(h) && a in h.sources) || (h.rtype.IsEx? && mode.Exclude? && a in h.sources && v.Admits(a) && a !in x))
      && (row.askGroup <==> h.rtype.ToIn? && mode.Exclude?)
      && (row.refreshFilter <==> ListsUnwanted(h))
      && (row.notify <==> !h.rtype.Block? && !h.rtype.Unknown?)
  {
  }

  /** The record goes through the tables, or it is a BLOCK in compatibility mode and changes nothing. */
  lemma RecordIsRow(cfg: Config, s: QState, r: GroupRecord)
    requires cfg.Ok() && Inv(cfg, s) && Receivable(cfg, r)
    ensures
      var g, s1, h, s' := r.gaddr, Prepared(cfg, s, r), Heard(cfg, s, r), ReceiveRecord(cfg, s, r);
      var gi := s1.groups[g];
      var row := TableRow(gi.mode, h.rtype, gi.requested.Keys, gi.excluded.Keys, h.sources);
      if OlderMode(cfg, s, r) && r.rtype.Block? then s' == s1 == s && g in s.groups
      else s' == Closed(ApplyRow(cfg, s1, g, row), g, gi.mode.Include?)
  {
    hide ApplyRow, TableRow, Closed, Inv;
    PreparedLists(cfg, s, r);
  }

  /** Which groups are kept, and their lists: for every record in every state, from the view and the list before. */
  lemma RecordLists(cfg: Config, s: QState, r: GroupRecord, a: Addr)
    requires cfg.Ok() && Inv(cfg, s) && Receivable(cfg, r)
    ensures
      var g, h, v, s' := r.gaddr, Heard(cfg, s, r), ListedView(s, r.gaddr), ReceiveRecord(cfg, s, r);
      && (g in s'.groups <==> g in s.groups || Wanted(r) != NOTHING)
      && (g in s'.groups ==>
            var gi := s'.groups[g];
            && (gi.mode.Exclude? <==> v.mode.Exclude? || ListsUnwanted(h))
            && (a in gi.requested <==>
                  if ListsWanted(h) then Known(s, g, a) || a in h.sources
                  else if ListsUnwanted(h) then a in h.sources && v.Admits(a)
                  else Known(s, g, a) || (h.rtype.Block? && v.mode.Exclude? && a in h.sources && v.Admits(a)))
            && (a in gi.excluded <==> gi.mode.Exclude? && !v.Admits(a) && !Wanted(h).Admits(a))
            && (gi.olderHost.Some? <==> FromOlderHost(cfg, r) || (g in s.groups && s.groups[g].olderHost.Some?)))
      && (s'.notices != s.notices <==> !h.rtype.Block? && !h.rtype.Unknown?)
  {
    hide ApplyRow, TableRow, Inv, Downgraded, Opened, ReceiveRecord;
    var g, s1, h := r.gaddr, Prepared(cfg, s, r), Heard(cfg, s, r);
    var gi := s1.groups[g];
    PreparedLists(cfg, s, r);
    PreparedFrame(cfg, s, r);
    RecordIsRow(cfg, s, r);
    RowLists(gi.mode, gi.requested.Keys, gi.excluded.Keys, h, a);
    RowEmpties(gi.mode, gi.requested.Keys, gi.excluded.Keys, h);
    if g in s.groups {
      RecordFacts(cfg, s, g);
    }
  }

  lemma RowEmpties(mode: FilterMode, x: set<Addr>, y: set<Addr>, h: GroupRecord)
    requires mode.Include? ==> y == {}
    ensures
      var row := TableRow(mode, h.rtype, x, y, h.sources);
      mode.Include? && row.mode.Include? && row.x == {} <==> mode.Include? && x == {} && Wanted(h) == NOTHING
  {
    if mode.Include? {
      assert x + h.sources == {} <==> x == {} && h.sources == {};
    }
  }

  /** Exactly who is admitted after a record: whoever was admitted before, whoever the sender asked for, and everybody
      if the sender is an older host whose group is kept. */
  lemma RecordAdmits(cfg: Config, s: QState, r: GroupRecord, a: Addr)
    requires cfg.Ok() && Inv(cfg, s) && Receivable(cfg, r)
    ensures
      var s' := ReceiveRecord(cfg, s, r);
      s'.Membership(r.gaddr).Admits(a) <==>
        s.Membership(r.gaddr).Admits(a) || Wanted(r).Admits(a) || (FromOlderHost(cfg, r) && r.gaddr in s'.groups)
  {
    hide Inv, ReceiveRecord;
    RecordLists(cfg, s, r, a);
    if r.gaddr in s.groups {
      RecordFacts(cfg, s, r.gaddr);
    }
  }

  // ---------------------------------------------------------------- timers and counters

  /** Source `a` has queries to come after the record, its first one included: it was withdrawn, is admitted, and was
      in no retransmission. */
  predicate StartsAsking(cfg: Config, s: QState, r: GroupRecord, a: Addr) {
    var h := Heard(cfg, s, r);
    && Withdraws(h, a) && ListedView(s, r.gaddr).Admits(a) && (h.rtype.ToIn? ==> Known(s, r.gaddr, a))
    && (Known(s, r.gaddr, a) ==> s.groups[r.gaddr].requested[a].count < 1)
  }

  /** The record sends source queries: then all sources with queries to come are asked. */
  ghost predicate SendsQueries(cfg: Config, s: QState, r: GroupRecord) {
    exists b :: StartsAsking(cfg, s, r, b)
  }

  /** The record sets the timer of source `a` to MALI: its sender wants the source, or it is new in a current-state
      record that excludes it. */
  predicate SetsToMali(cfg: Config, s: QState, r: GroupRecord, a: Addr) {
    var h, v := Heard(cfg, s, r), ListedView(s, r.gaddr);
    && a in h.sources
    && (ListsWanted(h) || (h.rtype.IsEx? && v.mode.Exclude? && v.Admits(a) && !Known(s, r.gaddr, a)))
  }

  function CountDown(n: int): int {
    if n > 0 then n - 1 else n
  }

  /** A source after a row, as one formula. */
  lemma RowSource(cfg: Config, s: QState, g: Addr, row: Row, a: Addr)
    requires g in s.groups && a in row.x
    ensures
      var list := Listed(s.groups[g].requested, row.x);
      var was, now := list[a], ApplyRow(cfg, s, g, row).groups[g].requested[a];
      var starts, round := a in Startable(list, row.ask), Startable(list, row.ask) != {};
      if a in row.refresh then now.count == -1 && now.timer.Some? && now.timer.value.deadline == s.now + cfg.mali
      else if starts then now.count == CountDown(cfg.llqc) && now.timer.Some? && now.timer.value.deadline == s.now + cfg.Llqt()
      else now.timer == was.timer && now.count == if round then CountDown(was.count) else was.count
  {
    hide SendSourceQuery, SendGroupQuery, Timed;
    var s1 := SetLists(s, g, row);
    var s2 := SendSourceQuery(cfg, s1, g, row.ask, false);
    AskedSource(cfg, s1, g, row.ask, a);
    GroupQueryKeepsSources(cfg, s2, g);
    RefreshedSource(cfg, Queried(cfg, s1, g, row), g, row, a);
  }

  lemma AskedSource(cfg: Config, s: QState, g: Addr, ask: set<Addr>, a: Addr)
    requires g in s.groups && a in s.groups[g].requested
    ensures
      var list := s.groups[g].requested;
      var now := SendSourceQuery(cfg, s, g, ask, false).groups[g].requested[a];
      if a in Startable(list, ask) then now.count == CountDown(cfg.llqc) && now.timer == Some(NewTimer(s, SourceT, g, cfg.Llqt()))
      else now.timer == list[a].timer && now.count == if Startable(list, ask) != {} then CountDown(list[a].count) else list[a].count
  {
    hide SourceQueries;
  }

  lemma RefreshedSource(cfg: Config, s: QState, g: Addr, row: Row, a: Addr)
    requires g in s.groups && a in s.groups[g].requested
    ensures
      var now := Timed(cfg, s, g, row).groups[g].requested[a];
      if a in row.refresh then now.count == -1 && now.timer.Some? && now.timer.value.deadline == s.now + cfg.mali
      else now == s.groups[g].requested[a]
  {
  }

  /** Every source after a record, exactly: MALI and no query for whom the record refreshes, LLQT and LLQC queries for
      whom it starts to ask for, and the timer of before for all others, with one query less if a round was sent. */
  lemma RecordSources(cfg: Config, s: QState, r: GroupRecord, a: Addr)
    requires cfg.Ok() && Inv(cfg, s) && Receivable(cfg, r) && Known(ReceiveRecord(cfg, s, r), r.gaddr, a)
    ensures Known(s, r.gaddr, a) || SetsToMali(cfg, s, r, a) || StartsAsking(cfg, s, r, a)
    ensures
      var now := ReceiveRecord(cfg, s, r).groups[r.gaddr].requested[a];
      && now.timer.Some?
      && (if SetsToMali(cfg, s, r, a) then now.count == -1 && now.timer.value.deadline == s.now + cfg.mali
          else if StartsAsking(cfg, s, r, a) then now.count == CountDown(cfg.llqc) && now.timer.value.deadline == s.now + cfg.Llqt()
          else
            var was := s.groups[r.gaddr].requested[a];
            now.timer == was.timer && now.count == if SendsQueries(cfg, s, r) then CountDown(was.count) else was.count)
  {
    hide ApplyRow, TableRow, Inv, Downgraded, Opened, ReceiveRecord, Startable;
    var g, s1, h := r.gaddr, Prepared(cfg, s, r), Heard(cfg, s, r);
    var gi := s1.groups[g];
    PreparedLists(cfg, s, r);
    RecordIsRow(cfg, s, r);
    RecordLists(cfg, s, r, a);
    RowLists(gi.mode, gi.requested.Keys, gi.excluded.Keys, h, a);
    StartsIffStartable(cfg, s, r);
    if Known(s, g, a) {
      AllTimed(cfg, s, g, a);
    }
    if !(OlderMode(cfg, s, r) && r.rtype.Block?) {
      RowSource(cfg, s1, g, TableRow(gi.mode, h.rtype, gi.requested.Keys, gi.excluded.Keys, h.sources), a);
    }
  }

  /** The sources that start are those the row finds startable. */
  lemma StartsIffStartable(cfg: Config, s: QState, r: GroupRecord)
    requires cfg.Ok() && Inv(cfg, s) && Receivable(cfg, r)
    ensures
      var gi, h := Prepared(cfg, s, r).groups[r.gaddr], Heard(cfg, s, r);
      var row := TableRow(gi.mode, h.rtype, gi.requested.Keys, gi.excluded.Keys, h.sources);
      var starts := Startable(Listed(gi.requested, row.x), row.ask);
      (forall b :: b in starts <==> StartsAsking(cfg, s, r, b)) && (starts != {} <==> SendsQueries(cfg, s, r))
  {
    hide TableRow, Inv, Downgraded, Opened;
    var gi, h := Prepared(cfg, s, r).groups[r.gaddr], Heard(cfg, s, r);
    var row := TableRow(gi.mode, h.rtype, gi.requested.Keys, gi.excluded.Keys, h.sources);
    PreparedLists(cfg, s, r);
    forall b
      ensures b in Startable(Listed(gi.requested, row.x), row.ask) <==> StartsAsking(cfg, s, r, b)
    {
      RowLists(gi.mode, gi.requested.Keys, gi.excluded.Keys, h, b);
    }
  }

  /** The filter timer after a record: MALI if the sender excludes sources, LLQT if TO_IN starts a burst in EXCLUDE mode,
      otherwise the one of before. */
  lemma RecordFilter(cfg: Config, s: QState, r: GroupRecord)
    requires cfg.Ok() && Inv(cfg, s) && Receivable(cfg, r) && r.gaddr in ReceiveRecord(cfg, s, r).groups
    ensures
      var g, h, ft := r.gaddr, Heard(cfg, s, r), ReceiveRecord(cfg, s, r).groups[r.gaddr].filterTimer;
      if ListsUnwanted(h) then ft.Some? && ft.value.deadline == s.now + cfg.mali
      else if h.rtype.ToIn? && g in s.groups && s.groups[g].mode.Exclude? && s.groups[g].groupRetrans.None? then
        ft.Some? && ft.value.deadline == s.now + cfg.Llqt()
      else ft == if g in s.groups then s.groups[g].filterTimer else None
  {
    hide ApplyRow, TableRow, Inv, Downgraded, Opened, ReceiveRecord;
    var g, s1, h := r.gaddr, Prepared(cfg, s, r), Heard(cfg, s, r);
    var gi := s1.groups[g];
    PreparedLists(cfg, s, r);
    RecordIsRow(cfg, s, r);
    RowLists(gi.mode, gi.requested.Keys, gi.excluded.Keys, h, 0);
    RowFilter(cfg, s1, g, TableRow(gi.mode, h.rtype, gi.requested.Keys, gi.excluded.Keys, h.sources));
  }

  lemma RowFilter(cfg: Config, s: QState, g: Addr, row: Row)
    requires g in s.groups
    ensures
      var ft := ApplyRow(cfg, s, g, row).groups[g].filterTimer;
      if row.refreshFilter then ft.Some? && ft.value.deadline == s.now + cfg.mali
      else if row.askGroup && s.groups[g].groupRetrans.None? then ft.Some? && ft.value.deadline == s.now + cfg.Llqt()
      else ft == s.groups[g].filterTimer
  {
    hide SendSourceQuery, SendGroupQuery;
    var s1 := SetLists(s, g, row);
    SourceQueryKeepsGroup(cfg, s1, g, row.ask);
    GroupQueryKeepsSources(cfg, SendSourceQuery(cfg, s1, g, row.ask, false), g);
  }
}
