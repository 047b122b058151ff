/** The querier of one downstream interface as an object that updates its database in place.
    Every method is proved against the function of `QuerierSpec` it carries out. */
module Queriers {
  import opened Defs
  import opened SourceLists
  import opened MembershipDb
  import opened ReportTables
  import opened QuerierSpec
  import opened QuerierInvariant

  class Querier {
    const cfg: Config
    const ifIndex: IfIndex
    var groups: map<Addr, GroupInfo>
    var now: int
    var lag: nat
    var nextId: nat
    var pending: set<Timer>
    var log: seq<Query>
    var notices: seq<Notice>

    ghost function State(): QState
      reads this
    {
      QState(groups, now, lag, nextId, pending, log, notices)
    }

    ghost predicate Valid()
      reads this
    {
      cfg.Ok() && Inv(cfg, State())
    }

    constructor (cfg: Config, ifIndex: IfIndex)
      requires cfg.Ok()
      ensures Valid() && State() == EMPTY && this.cfg == cfg && this.ifIndex == ifIndex
    {
      this.cfg, this.ifIndex := cfg, ifIndex;
      groups, now, lag, nextId, pending, log, notices := map[], 0, 0, 0, {}, [], [];
    }

    // -------------------------------------------------------------- timers and callbacks

    /** Registers a timer; its identity is used up. */
    method AddTime(t: Timer)
      requires t.id == nextId
      modifies `pending, `nextId
      ensures State() == Arm(old(State()), t)
    {
      pending := pending + {t};
      nextId := nextId + 1;
    }

    method StateChangeNotification(gaddr: Addr)
      modifies `notices
      ensures State() == Notify(old(State()), gaddr)
    {
      var view := if gaddr in groups then groups[gaddr].Membership() else NOTHING;
      notices := notices + [Notice(gaddr, view)];
    }

    /** Sets the filter timer to MALI. */
    method MaliFilter(gaddr: Addr)
      requires gaddr in groups
      modifies `groups, `pending, `nextId
      ensures State() == RefreshFilter(cfg, old(State()), gaddr)
    {
      var ft := Timer(nextId, FilterT, gaddr, now + cfg.mali);
      groups := groups[gaddr := groups[gaddr].(filterTimer := Some(ft))];
      AddTime(ft);
    }

    /** Sets the timers of a whole list to MALI; all of them share one timer. */
    method MaliList(gaddr: Addr, slist: SrcMap) returns (list: SrcMap)
      modifies `pending, `nextId
      ensures var st := NewTimer(old(State()), SourceT, gaddr, cfg.mali);
        && list == Refreshed(slist, slist.Keys, st)
        && State() == if slist == map[] then old(State()) else Arm(old(State()), st)
    {
      var st := Timer(nextId, SourceT, gaddr, now + cfg.mali);
      list := slist;
      var todo := slist.Keys;
      while todo != {}
        invariant todo <= slist.Keys && list == Refreshed(slist, slist.Keys - todo, st)
        decreases |todo|
      {
        var a :| a in todo;
        list := list[a := Src(Some(st), -1)];
        todo := todo - {a};
      }
      if slist != map[] {
        AddTime(st);
      }
    }

    /** Sets the timers of those sources of `slist` that are in `tmp` to MALI. */
    method MaliSources(gaddr: Addr, slist: SrcMap, tmp: SrcMap) returns (list: SrcMap)
      modifies `pending, `nextId
      ensures var st := NewTimer(old(State()), SourceT, gaddr, cfg.mali);
        && list == Refreshed(slist, tmp.Keys, st)
        && State() == if tmp == map[] then old(State()) else Arm(old(State()), st)
    {
      ghost var st := NewTimer(State(), SourceT, gaddr, cfg.mali);
      var timed := MaliList(gaddr, tmp);
      list := slist;
      var todo := timed.Keys;
      while todo != {}
        invariant todo <= timed.Keys == tmp.Keys && list == Refreshed(slist, tmp.Keys - todo, st)
        decreases |todo|
      {
        var a :| a in todo;
        if a in list {
          list := list[a := Src(timed[a].timer, -1)];
        }
        todo := todo - {a};
      }
      assert tmp.Keys - {} == tmp.Keys;
    }

    // -------------------------------------------------------------- queries

    /** Counts down every positive counter once. The sources concerned are returned in two parts: those
        whose timer lasts up to `limit` or longer and those whose timer does not; `more` tells if counters remain. */
    static method CountDown(slist: SrcMap, limit: int) returns (list: SrcMap, higher: set<Addr>, lower: set<Addr>, more: bool)
      requires CountersTimed(slist)
      ensures list == CountedDown(slist) && (more <==> Asking(list) != {})
      ensures higher == AskingBeyond(slist, limit, true) && lower == AskingBeyond(slist, limit, false)
    {
      hide CountedDown, Asking, AskingBeyond, Down, Beyond;
      list, more, higher, lower := slist, false, {}, {};
      ghost var positive: set<Addr> := {};
      var todo := slist.Keys;
      while todo != {}
        invariant todo <= slist.Keys && list.Keys == slist.Keys
        invariant forall a | a in slist :: list[a] == if a in todo then slist[a] else Down(slist[a])
        invariant forall a :: a in higher <==> a in slist && a !in todo && Beyond(slist[a], limit, true)
        invariant forall a :: a in lower <==> a in slist && a !in todo && Beyond(slist[a], limit, false)
        invariant forall a :: a in positive <==> a in slist && a !in todo && Down(slist[a]).count > 0
        invariant more <==> positive != {}
        decreases |todo|
      {
        var a :| a in todo;
        var src, again, asked, suppressed := CountDownOne(list[a], limit);
        list := list[a := src];
        if again {
          more, positive := true, positive + {a};
        }
        if asked {
          if suppressed {
            higher := higher + {a};
          } else {
            lower := lower + {a};
          }
        }
        todo := todo - {a};
      }
      CountedAll(slist, list, limit, higher, lower, positive);
    }

    static method CountDownOne(src: Src, limit: int) returns (src': Src, again: bool, asked: bool, suppressed: bool)
      requires src.count > 0 ==> src.timer.Some?
      ensures src' == Down(src) && (again <==> Down(src).count > 0)
      ensures Beyond(src, limit, true) <==> asked && suppressed
      ensures Beyond(src, limit, false) <==> asked && !suppressed
    {
      src', again, asked, suppressed := src, false, false, false;
      if src.count > 0 {
        src' := Src(src.timer, src.count - 1);
        again := src'.count > 0;
        if src.timer.Some? {
          asked, suppressed := true, limit <= src.timer.value.deadline;
        } else {
          // the program logs that the timer should not be missing
          assert false;
        }
      }
    }

    static function Down(src: Src): Src {
      if src.count > 0 then Src(src.timer, src.count - 1) else src
    }

    static predicate Beyond(src: Src, limit: int, beyond: bool) {
      src.count > 0 && src.timer.Some? && (src.timer.value.deadline >= limit) == beyond
    }

    static lemma CountedAll(slist: SrcMap, list: SrcMap, limit: int, higher: set<Addr>, lower: set<Addr>, positive: set<Addr>)
      requires list.Keys == slist.Keys && forall a | a in slist :: list[a] == Down(slist[a])
      requires forall a :: a in higher <==> a in slist && Beyond(slist[a], limit, true)
      requires forall a :: a in lower <==> a in slist && Beyond(slist[a], limit, false)
      requires forall a :: a in positive <==> a in slist && Down(slist[a]).count > 0
      ensures list == CountedDown(slist) && positive == Asking(list)
      ensures higher == AskingBeyond(slist, limit, true) && lower == AskingBeyond(slist, limit, false)
    {
    }

    /** The sender's part of a source query: asks every source with a positive counter, with the suppress
        flag if LLQT or more remains of its timer by then, and tells if another round is needed. */
    method SendSourceSpecificQuery(gaddr: Addr, slist: SrcMap) returns (list: SrcMap, more: bool)
      requires CountersTimed(slist)
      modifies `log
      ensures list == CountedDown(slist) && (more <==> Asking(list) != {})
      ensures State() == old(State()).(log := old(log) + SourceQueries(gaddr, slist, now + lag + cfg.Llqt()))
    {
      hide CountedDown, Asking, AskingBeyond;
      var higher, lower;
      list, higher, lower, more := CountDown(slist, now + lag + cfg.Llqt());
      if higher != {} {
        log := log + [SourceQuery(gaddr, higher, true)];
      }
      if lower != {} {
        log := log + [SourceQuery(gaddr, lower, false)];
      }
    }

    /** Gives the timer `st` and a full counter to the sources of `tmp` that are not in a retransmission. */
    static method LowerList(slist: SrcMap, tmp: set<Addr>, st: Timer, llqc: nat) returns (list: SrcMap, used: bool)
      ensures var who := Startable(slist, tmp); list == Lowered(slist, who, st, llqc) && (used <==> who != {})
    {
      list, used := slist, false;
      ghost var who: set<Addr> := {};
      var todo := tmp;
      while todo != {}
        invariant todo <= tmp && list.Keys == slist.Keys && who <= slist.Keys && who !! todo
        invariant forall a | a in slist :: list[a] == if a in who then Src(Some(st), llqc) else slist[a]
        invariant forall a | a in slist && a in tmp && a !in todo :: a in who <==> slist[a].count < 1
        invariant who <= tmp && (used <==> who != {})
        decreases |todo|
      {
        var a :| a in todo;
        if a in list {
          if list[a].count < 1 {
            used, who := true, who + {a};
            list := list[a := Src(Some(st), llqc)];
          }
        }
        todo := todo - {a};
      }
      assert who == Startable(slist, tmp);
      assert list == Lowered(slist, who, st, llqc);
    }

    method QuerySourcesOnce(gaddr: Addr)
      requires gaddr in groups && CountersTimed(groups[gaddr].requested)
      modifies `groups, `pending, `nextId, `log
      ensures State() == QueryRound(cfg, old(State()), gaddr)
    {
      hide CountedDown, Asking, SourceQueries;
      var list, more := SendSourceSpecificQuery(gaddr, groups[gaddr].requested);
      groups := groups[gaddr := groups[gaddr].(requested := list)];
      if more {
        var rst := Timer(nextId, RetSourceT, gaddr, now + cfg.llqi);
        groups := groups[gaddr := groups[gaddr].(sourceRetrans := Some(rst))];
        AddTime(rst);
      }
    }

    /** Send Q(MA, tmp), or the retransmission of an earlier one. */
    method SendQSources(gaddr: Addr, tmp: set<Addr>, inRetransmission: bool)
      requires gaddr in groups && CountersTimed(groups[gaddr].requested)
      modifies `groups, `pending, `nextId, `log
      ensures State() == SendSourceQuery(cfg, old(State()), gaddr, tmp, inRetransmission)
    {
      hide QueryRound;
      ghost var s := State();
      var st := Timer(nextId, SourceT, gaddr, now + cfg.Llqt());
      var list, used := LowerList(groups[gaddr].requested, tmp, st, cfg.llqc);
      if used {
        groups := groups[gaddr := groups[gaddr].(requested := list)];
        AddTime(st);
      }
      assert State() == StartQueries(cfg, s, gaddr, tmp);
      if used || inRetransmission {
        QuerySourcesOnce(gaddr);
      }
    }

    method LowerFilter(gaddr: Addr)
      requires gaddr in groups
      modifies `groups, `pending, `nextId
      ensures State() == StartBurst(cfg, old(State()), gaddr)
    {
      if groups[gaddr].groupRetrans.None? {
        groups := groups[gaddr := groups[gaddr].(groupCount := cfg.llqc)];
        var ftimer := Timer(nextId, FilterT, gaddr, now + cfg.Llqt());
        groups := groups[gaddr := groups[gaddr].(filterTimer := Some(ftimer))];
        AddTime(ftimer);
      }
    }

    method QueryGroupOnce(gaddr: Addr)
      requires gaddr in groups && (groups[gaddr].groupCount > 0 ==> groups[gaddr].filterTimer.Some?)
      modifies `groups, `pending, `nextId, `log
      ensures State() == BurstRound(cfg, old(State()), gaddr)
    {
      if groups[gaddr].groupCount > 0 {
        groups := groups[gaddr := groups[gaddr].(groupCount := groups[gaddr].groupCount - 1)];
        if groups[gaddr].groupCount > 0 {
          var rtimer := Timer(nextId, RetGroupT, gaddr, now + cfg.llqi);
          groups := groups[gaddr := groups[gaddr].(groupRetrans := Some(rtimer))];
          AddTime(rtimer);
        }
        log := log + [GroupQuery(gaddr, now + lag + cfg.Llqt() <= groups[gaddr].filterTimer.value.deadline)];
      } else {
        groups := groups[gaddr := groups[gaddr].(groupRetrans := None)];
        groups := groups[gaddr := groups[gaddr].(groupCount := -1)];
      }
    }

    /** Send Q(MA), or the retransmission of an earlier one. The filter timer that a running burst
        looks at must be there. */
    method SendQGroup(gaddr: Addr)
      requires gaddr in groups
      requires var gi := groups[gaddr]; gi.groupRetrans.Some? && gi.groupCount > 0 ==> gi.filterTimer.Some?
      modifies `groups, `pending, `nextId, `log
      ensures State() == SendGroupQuery(cfg, old(State()), gaddr)
    {
      hide BurstRound;
      LowerFilter(gaddr);
      QueryGroupOnce(gaddr);
    }

    // -------------------------------------------------------------- reports

    /** Sets the timers of the listed sources of `tmp` to MALI. */
    method MaliRequested(gaddr: Addr, tmp: SrcMap)
      requires gaddr in groups
      modifies `groups, `pending, `nextId
      ensures State() == RefreshSources(cfg, old(State()), gaddr, tmp.Keys)
    {
      var list := MaliSources(gaddr, groups[gaddr].requested, tmp);
      groups := groups[gaddr := groups[gaddr].(requested := list)];
      if tmp == map[] {
        assert list == old(groups)[gaddr].requested;
        assert groups == old(groups);
      }
    }

    /** INCLUDE (A), ALLOW (B). The Include List A is changed in place, so later uses of A see the change. */
    method AllowInInclude(gaddr: Addr, B: SrcMap)
      requires gaddr in groups && groups[gaddr].mode.Include? && groups[gaddr].excluded == map[] && Fresh(B)
      modifies `groups, `pending, `nextId, `log, `notices
      ensures State() == ApplyRow(cfg, old(State()), gaddr, IncludeRow(Allow, old(groups)[gaddr].requested.Keys, B.Keys))
    {
      hide SendSourceQuery, RefreshSources, RefreshFilter, Notify, Listed, Times, Plus, Minus;
      ghost var s, row := State(), IncludeRow(Allow, groups[gaddr].requested.Keys, B.Keys);
      ListsAsMaps(groups[gaddr].requested, B);
      groups := groups[gaddr := groups[gaddr].(requested := Plus(groups[gaddr].requested, B))];
      assert State() == SetLists(s, gaddr, row);
      NothingAsked(cfg, State(), gaddr);
      MaliRequested(gaddr, B);
      StateChangeNotification(gaddr);
    }

    /** INCLUDE (A), IS_IN (B). */
    method IsInInInclude(gaddr: Addr, B: SrcMap)
      requires gaddr in groups && groups[gaddr].mode.Include? && groups[gaddr].excluded == map[] && Fresh(B)
      modifies `groups, `pending, `nextId, `log, `notices
      ensures State() == ApplyRow(cfg, old(State()), gaddr, IncludeRow(IsIn, old(groups)[gaddr].requested.Keys, B.Keys))
    {
      hide SendSourceQuery, RefreshSources, RefreshFilter, Notify, Listed, Times, Plus, Minus;
      ghost var s, row := State(), IncludeRow(IsIn, groups[gaddr].requested.Keys, B.Keys);
      ListsAsMaps(groups[gaddr].requested, B);
      groups := groups[gaddr := groups[gaddr].(requested := Plus(groups[gaddr].requested, B))];
      assert State() == SetLists(s, gaddr, row);
      NothingAsked(cfg, State(), gaddr);
      MaliRequested(gaddr, B);
      StateChangeNotification(gaddr);
    }

    /** INCLUDE (A), BLOCK (B). */
    method BlockInInclude(gaddr: Addr, B: SrcMap)
      requires gaddr in groups && groups[gaddr].mode.Include? && groups[gaddr].excluded == map[] && Fresh(B)
      requires CountersTimed(groups[gaddr].requested)
      modifies `groups, `pending, `nextId, `log, `notices
      ensures State() == ApplyRow(cfg, old(State()), gaddr, IncludeRow(Block, old(groups)[gaddr].requested.Keys, B.Keys))
    {
      hide SendSourceQuery, RefreshSources, RefreshFilter, Notify, Listed, Times, Plus, Minus;
      ghost var s, row := State(), IncludeRow(Block, groups[gaddr].requested.Keys, B.Keys);
      ListsAsMaps(groups[gaddr].requested, B);
      assert groups == groups[gaddr := groups[gaddr]];
      assert State() == SetLists(s, gaddr, row);
      ListedTimed(s.groups[gaddr].requested, row.x);
      SendQSources(gaddr, Times(groups[gaddr].requested, B).Keys, false);
      NothingAsked(cfg, State(), gaddr);
    }

    /** INCLUDE (A), TO_EX (B). */
    method ToExInInclude(gaddr: Addr, B: SrcMap)
      requires gaddr in groups && groups[gaddr].mode.Include? && groups[gaddr].excluded == map[] && Fresh(B)
      requires CountersTimed(groups[gaddr].requested)
      modifies `groups, `pending, `nextId, `log, `notices
      ensures State() == ApplyRow(cfg, old(State()), gaddr, IncludeRow(ToEx, old(groups)[gaddr].requested.Keys, B.Keys))
    {
      hide SendSourceQuery, RefreshSources, RefreshFilter, Notify, Listed, Times, Plus, Minus;
      ghost var s, row := State(), IncludeRow(ToEx, groups[gaddr].requested.Keys, B.Keys);
      ListsAsMaps(groups[gaddr].requested, B);
      groups := groups[gaddr := groups[gaddr].(mode := Exclude)];
      groups := groups[gaddr := groups[gaddr].(requested := Times(groups[gaddr].requested, B))];
      groups := groups[gaddr := groups[gaddr].(excluded := Minus(B, groups[gaddr].requested))];
      assert State() == SetLists(s, gaddr, row);
      ListedTimed(s.groups[gaddr].requested, row.x);
      SendQSources(gaddr, Times(groups[gaddr].requested, B).Keys, false);
      NothingAsked(cfg, State(), gaddr);
      MaliFilter(gaddr);
      StateChangeNotification(gaddr);
    }

    /** INCLUDE (A), IS_EX (B). */
    method IsExInInclude(gaddr: Addr, B: SrcMap)
      requires gaddr in groups && groups[gaddr].mode.Include? && groups[gaddr].excluded == map[] && Fresh(B)
      modifies `groups, `pending, `nextId, `log, `notices
      ensures State() == ApplyRow(cfg, old(State()), gaddr, IncludeRow(IsEx, old(groups)[gaddr].requested.Keys, B.Keys))
    {
      hide SendSourceQuery, RefreshSources, RefreshFilter, Notify, Listed, Times, Plus, Minus;
      ghost var s, row := State(), IncludeRow(IsEx, groups[gaddr].requested.Keys, B.Keys);
      ListsAsMaps(groups[gaddr].requested, B);
      groups := groups[gaddr := groups[gaddr].(mode := Exclude)];
      groups := groups[gaddr := groups[gaddr].(requested := Times(groups[gaddr].requested, B))];
      groups := groups[gaddr := groups[gaddr].(excluded := Minus(B, groups[gaddr].requested))];
      assert State() == SetLists(s, gaddr, row);
      NothingAsked(cfg, State(), gaddr);
      MaliFilter(gaddr);
      StateChangeNotification(gaddr);
    }

    /** INCLUDE (A), TO_IN (B). */
    method ToInInInclude(gaddr: Addr, B: SrcMap)
      requires gaddr in groups && groups[gaddr].mode.Include? && groups[gaddr].excluded == map[] && Fresh(B)
      requires CountersTimed(groups[gaddr].requested)
      modifies `groups, `pending, `nextId, `log, `notices
      ensures State() == ApplyRow(cfg, old(State()), gaddr, IncludeRow(ToIn, old(groups)[gaddr].requested.Keys, B.Keys))
    {
      hide SendSourceQuery, RefreshSources, RefreshFilter, Notify, Listed, Times, Plus, Minus;
      ghost var s, row := State(), IncludeRow(ToIn, groups[gaddr].requested.Keys, B.Keys);
      ListsAsMaps(groups[gaddr].requested, B);
      groups := groups[gaddr := groups[gaddr].(requested := Plus(groups[gaddr].requested, B))];
      assert State() == SetLists(s, gaddr, row);
      ListedTimed(s.groups[gaddr].requested, row.x);
      SendQSources(gaddr, Minus(groups[gaddr].requested, B).Keys, false);
      MaliRequested(gaddr, B);
      StateChangeNotification(gaddr);
    }

    /** A record over the fresh list B arrives in INCLUDE mode. */
    method ReceiveRecordInIncludeMode(rtype: RecordType, gaddr: Addr, B: SrcMap)
      requires gaddr in groups && groups[gaddr].mode.Include? && groups[gaddr].excluded == map[] && Fresh(B)
      requires CountersTimed(groups[gaddr].requested)
      modifies `groups, `pending, `nextId, `log, `notices
      ensures State() == ApplyRow(cfg, old(State()), gaddr, IncludeRow(rtype, old(groups)[gaddr].requested.Keys, B.Keys))
    {
      match rtype {
        case Allow => AllowInInclude(gaddr, B);
        case Block => BlockInInclude(gaddr, B);
        case ToEx => ToExInInclude(gaddr, B);
        case ToIn => ToInInInclude(gaddr, B);
        case IsEx => IsExInInclude(gaddr, B);
        case IsIn => IsInInInclude(gaddr, B);
        case Unknown => UnknownChangesNothing(cfg, State(), gaddr, B.Keys);
      }
    }

    /** EXCLUDE (X,Y), ALLOW (A). */
    method AllowInExclude(gaddr: Addr, A: SrcMap)
      requires gaddr in groups && groups[gaddr].mode.Exclude? && groups[gaddr].filterTimer.Some? && Fresh(A)
      requires groups[gaddr].requested.Keys !! groups[gaddr].excluded.Keys
      modifies `groups, `pending, `nextId, `log, `notices
      ensures
        var gi := old(groups)[gaddr];
        State() == ApplyRow(cfg, old(State()), gaddr, ExcludeRow(Allow, gi.requested.Keys, gi.excluded.Keys, A.Keys))
    {
      hide SendSourceQuery, SendGroupQuery, RefreshSources, RefreshFilter, Notify, Listed, Times, Plus, Minus;
      ghost var s, X, Y := State(), groups[gaddr].requested, groups[gaddr].excluded;
      ghost var row := ExcludeRow(Allow, X.Keys, Y.Keys, A.Keys);
      ListsAsMaps(X, A);
      ListsAsMaps(Y, A);
      groups := groups[gaddr := groups[gaddr].(requested := Plus(groups[gaddr].requested, A))];
      groups := groups[gaddr := groups[gaddr].(excluded := Minus(groups[gaddr].excluded, A))];
      assert State() == SetLists(s, gaddr, row);
      NothingAsked(cfg, State(), gaddr);
      MaliRequested(gaddr, A);
      StateChangeNotification(gaddr);
    }

    /** EXCLUDE (X,Y), IS_IN (A). */
    method IsInInExclude(gaddr: Addr, A: SrcMap)
      requires gaddr in groups && groups[gaddr].mode.Exclude? && groups[gaddr].filterTimer.Some? && Fresh(A)
      requires groups[gaddr].requested.Keys !! groups[gaddr].excluded.Keys
      modifies `groups, `pending, `nextId, `log, `notices
      ensures
        var gi := old(groups)[gaddr];
        State() == ApplyRow(cfg, old(State()), gaddr, ExcludeRow(IsIn, gi.requested.Keys, gi.excluded.Keys, A.Keys))
    {
      hide SendSourceQuery, SendGroupQuery, RefreshSources, RefreshFilter, Notify, Listed, Times, Plus, Minus;
      ghost var s, X, Y := State(), groups[gaddr].requested, groups[gaddr].excluded;
      ghost var row := ExcludeRow(IsIn, X.Keys, Y.Keys, A.Keys);
      ListsAsMaps(X, A);
      ListsAsMaps(Y, A);
      groups := groups[gaddr := groups[gaddr].(requested := Plus(groups[gaddr].requested, A))];
      groups := groups[gaddr := groups[gaddr].(excluded := Minus(groups[gaddr].excluded, A))];
      assert State() == SetLists(s, gaddr, row);
      NothingAsked(cfg, State(), gaddr);
      MaliRequested(gaddr, A);
      StateChangeNotification(gaddr);
    }

    /** EXCLUDE (X,Y), BLOCK (A). */
    method BlockInExclude(gaddr: Addr, A: SrcMap)
      requires gaddr in groups && groups[gaddr].mode.Exclude? && groups[gaddr].filterTimer.Some? && Fresh(A)
      requires groups[gaddr].requested.Keys !! groups[gaddr].excluded.Keys && CountersTimed(groups[gaddr].requested)
      modifies `groups, `pending, `nextId, `log, `notices
      ensures
        var gi := old(groups)[gaddr];
        State() == ApplyRow(cfg, old(State()), gaddr, ExcludeRow(Block, gi.requested.Keys, gi.excluded.Keys, A.Keys))
    {
      hide SendSourceQuery, SendGroupQuery, RefreshSources, RefreshFilter, Notify, Listed, Times, Plus, Minus;
      ghost var s, X, Y := State(), groups[gaddr].requested, groups[gaddr].excluded;
      ghost var row := ExcludeRow(Block, X.Keys, Y.Keys, A.Keys);
      ListsAsMaps(X, A);
      ListsAsMaps(Y, A);
      ExcludeLists(X, Y, A);
      groups := groups[gaddr := groups[gaddr].(requested := Plus(groups[gaddr].requested, Minus(A, groups[gaddr].excluded)))];
      assert State() == SetLists(s, gaddr, row);
      ListedTimed(s.groups[gaddr].requested, row.x);
      SendQSources(gaddr, Minus(A, groups[gaddr].excluded).Keys, false);
      NothingAsked(cfg, State(), gaddr);
    }

    /** The new lists of TO_EX: X is computed as (X*A)+(A-Y), which is A-Y because X and Y are disjoint. */
    method ShrinkLists(gaddr: Addr, A: SrcMap)
      requires gaddr in groups && groups[gaddr].mode.Exclude? && Fresh(A)
      requires groups[gaddr].requested.Keys !! groups[gaddr].excluded.Keys
      modifies `groups
      ensures
        var gi := old(groups)[gaddr];
        State() == SetLists(old(State()), gaddr, ExcludeRow(ToEx, gi.requested.Keys, gi.excluded.Keys, A.Keys))
      ensures groups[gaddr].requested.Keys == A.Keys - old(groups)[gaddr].excluded.Keys
      ensures groups[gaddr].requested == Listed(old(groups)[gaddr].requested, A.Keys - old(groups)[gaddr].excluded.Keys)
    {
      hide Listed, Times, Plus, Minus;
      ExcludeLists(groups[gaddr].requested, groups[gaddr].excluded, A);
      groups := groups[gaddr := groups[gaddr].(requested := Times(groups[gaddr].requested, A))];
      groups := groups[gaddr := groups[gaddr].(requested := Plus(groups[gaddr].requested, Minus(A, groups[gaddr].excluded)))];
      groups := groups[gaddr := groups[gaddr].(excluded := Times(groups[gaddr].excluded, A))];
    }

    /** EXCLUDE (X,Y), TO_EX (A). */
    method ToExInExclude(gaddr: Addr, A: SrcMap)
      requires gaddr in groups && groups[gaddr].mode.Exclude? && groups[gaddr].filterTimer.Some? && Fresh(A)
      requires groups[gaddr].requested.Keys !! groups[gaddr].excluded.Keys && CountersTimed(groups[gaddr].requested)
      modifies `groups, `pending, `nextId, `log, `notices
      ensures
        var gi := old(groups)[gaddr];
        State() == ApplyRow(cfg, old(State()), gaddr, ExcludeRow(ToEx, gi.requested.Keys, gi.excluded.Keys, A.Keys))
    {
      hide SetLists, SendSourceQuery, SendGroupQuery, RefreshSources, RefreshFilter, Notify;
      ListedTimed(groups[gaddr].requested, A.Keys - groups[gaddr].excluded.Keys);
      ShrinkLists(gaddr, A);
      SendQSources(gaddr, groups[gaddr].requested.Keys, false);
      NothingAsked(cfg, State(), gaddr);
      MaliFilter(gaddr);
      StateChangeNotification(gaddr);
    }

    /** EXCLUDE (X,Y), TO_IN (A). */
    method ToInInExclude(gaddr: Addr, A: SrcMap)
      requires gaddr in groups && groups[gaddr].mode.Exclude? && groups[gaddr].filterTimer.Some? && Fresh(A)
      requires groups[gaddr].requested.Keys !! groups[gaddr].excluded.Keys && CountersTimed(groups[gaddr].requested)
      modifies `groups, `pending, `nextId, `log, `notices
      ensures
        var gi := old(groups)[gaddr];
        State() == ApplyRow(cfg, old(State()), gaddr, ExcludeRow(ToIn, gi.requested.Keys, gi.excluded.Keys, A.Keys))
    {
      hide SendSourceQuery, SendGroupQuery, RefreshSources, RefreshFilter, Notify, Listed, Times, Plus, Minus;
      ghost var s, X, Y := State(), groups[gaddr].requested, groups[gaddr].excluded;
      ghost var row := ExcludeRow(ToIn, X.Keys, Y.Keys, A.Keys);
      ListsAsMaps(X, A);
      ListsAsMaps(Y, A);
      groups := groups[gaddr := groups[gaddr].(requested := Plus(groups[gaddr].requested, A))];
      groups := groups[gaddr := groups[gaddr].(excluded := Minus(groups[gaddr].excluded, A))];
      assert State() == SetLists(s, gaddr, row);
      ListedTimed(s.groups[gaddr].requested, row.x);
      SendQSources(gaddr, Minus(groups[gaddr].requested, A).Keys, false);
      FilterTimerKept(cfg, SetLists(s, gaddr, row), gaddr, row.ask);
      SendQGroup(gaddr);
      MaliRequested(gaddr, A);
      StateChangeNotification(gaddr);
    }

    /** The new lists of IS_EX. The timers of A-X-Y are set on the received list before it is merged. */
    method MergeLists(gaddr: Addr, A: SrcMap)
      requires gaddr in groups && groups[gaddr].mode.Exclude? && Fresh(A)
      requires groups[gaddr].requested.Keys !! groups[gaddr].excluded.Keys
      modifies `groups, `pending, `nextId
      ensures
        var gi := old(groups)[gaddr];
        var row := ExcludeRow(IsEx, gi.requested.Keys, gi.excluded.Keys, A.Keys);
        State() == RefreshSources(cfg, SetLists(old(State()), gaddr, row), gaddr, row.refresh)
    {
      hide SetLists, RefreshSources, Refreshed, Listed, Times, Plus, Minus, ExcludeRow;
      MergedLater(cfg, State(), gaddr, A);
      var who := Minus(Minus(A, groups[gaddr].requested), groups[gaddr].excluded);
      var A' := MaliSources(gaddr, A, who);
      var gi := groups[gaddr];
      gi := gi.(requested := Times(gi.requested, A'));
      gi := gi.(requested := Plus(gi.requested, Minus(A', gi.excluded)));
      gi := gi.(excluded := Times(gi.excluded, A'));
      groups := groups[gaddr := gi];
    }

    /** EXCLUDE (X,Y), IS_EX (A). */
    method IsExInExclude(gaddr: Addr, A: SrcMap)
      requires gaddr in groups && groups[gaddr].mode.Exclude? && groups[gaddr].filterTimer.Some? && Fresh(A)
      requires groups[gaddr].requested.Keys !! groups[gaddr].excluded.Keys
      modifies `groups, `pending, `nextId, `log, `notices
      ensures
        var gi := old(groups)[gaddr];
        State() == ApplyRow(cfg, old(State()), gaddr, ExcludeRow(IsEx, gi.requested.Keys, gi.excluded.Keys, A.Keys))
    {
      hide SetLists, SendSourceQuery, SendGroupQuery, RefreshSources, RefreshFilter, Notify;
      ghost var gi := groups[gaddr];
      NothingAsked(cfg, SetLists(State(), gaddr, ExcludeRow(IsEx, gi.requested.Keys, gi.excluded.Keys, A.Keys)), gaddr);
      MergeLists(gaddr, A);
      MaliFilter(gaddr);
      StateChangeNotification(gaddr);
    }

    /** A record over the fresh list A arrives in EXCLUDE mode. */
    method ReceiveRecordInExcludeMode(rtype: RecordType, gaddr: Addr, A: SrcMap)
      requires gaddr in groups && groups[gaddr].mode.Exclude? && groups[gaddr].filterTimer.Some? && Fresh(A)
      requires groups[gaddr].requested.Keys !! groups[gaddr].excluded.Keys && CountersTimed(groups[gaddr].requested)
      modifies `groups, `pending, `nextId, `log, `notices
      ensures
        var gi := old(groups)[gaddr];
        State() == ApplyRow(cfg, old(State()), gaddr, ExcludeRow(rtype, gi.requested.Keys, gi.excluded.Keys, A.Keys))
    {
      match rtype {
        case Allow => AllowInExclude(gaddr, A);
        case Block => BlockInExclude(gaddr, A);
        case ToEx => ToExInExclude(gaddr, A);
        case ToIn => ToInInExclude(gaddr, A);
        case IsEx => IsExInExclude(gaddr, A);
        case IsIn => IsInInExclude(gaddr, A);
        case Unknown => UnknownChangesNothing(cfg, State(), gaddr, A.Keys);
      }
    }

    /** Finds or adds the record of the group and notes the presence of an older host. */
    method OpenRecord(r: GroupRecord)
      modifies `groups, `pending, `nextId
      ensures State() == Downgraded(cfg, Opened(cfg, old(State()), r.gaddr), r)
    {
      var gaddr := r.gaddr;
      if gaddr !in groups {
        groups := groups[gaddr := NewGroup(cfg.version)];
      }
      if !r.version.IsNewest() && r.version.OlderOrEqual(cfg.version) {
        groups := groups[gaddr := groups[gaddr].(compat := r.version)];
        var ohpt := Timer(nextId, OlderHostT, gaddr, now + cfg.ohpi);
        groups := groups[gaddr := groups[gaddr].(olderHost := Some(ohpt))];
        AddTime(ohpt);
      }
    }

    /** Hands a record to the handler of the current mode and drops a record that is not used. */
    method Dispatch(rtype: RecordType, gaddr: Addr, slist: SrcMap)
      requires gaddr in groups && Fresh(slist) && CountersTimed(groups[gaddr].requested)
      requires groups[gaddr].mode.Include? ==> groups[gaddr].excluded == map[]
      requires groups[gaddr].mode.Exclude? ==> groups[gaddr].filterTimer.Some? && groups[gaddr].requested.Keys !! groups[gaddr].excluded.Keys
      modifies `groups, `pending, `nextId, `log, `notices
      ensures
        var gi := old(groups)[gaddr];
        var row := TableRow(gi.mode, rtype, gi.requested.Keys, gi.excluded.Keys, slist.Keys);
        State() == Closed(ApplyRow(cfg, old(State()), gaddr, row), gaddr, gi.mode.Include?)
    {
      hide ApplyRow, IncludeRow, ExcludeRow;
      match groups[gaddr].mode {
        case Include =>
          ReceiveRecordInIncludeMode(rtype, gaddr, slist);
          if groups[gaddr].mode.Include? && groups[gaddr].requested == map[] {
            groups := groups - {gaddr};
          }
        case Exclude =>
          ReceiveRecordInExcludeMode(rtype, gaddr, slist);
      }
    }

    /** Entry point for all group records. */
    method ReceiveRecord(r: GroupRecord)
      requires Valid() && Receivable(cfg, r)
      modifies `groups, `pending, `nextId, `log, `notices
      ensures State() == QuerierSpec.ReceiveRecord(cfg, old(State()), r)
      ensures Valid()
    {
      hide ApplyRow, Inv, TableRow, Downgraded, Opened, Closed;
      ReceiveRecordInv(cfg, State(), r);
      RecordShape(cfg, State(), r);
      OpenRecord(r);
      var slist: SrcMap := map a | a in r.sources :: FRESH;
      assert slist.Keys == r.sources;
      if groups[r.gaddr].InCompatibilityMode() {
        if r.rtype.ToEx? {
          slist := map[];
        } else if r.rtype.Block? {
          return;
        }
      }
      ghost var s1 := State();
      assert slist.Keys == if s1.groups[r.gaddr].InCompatibilityMode() && r.rtype.ToEx? then {} else r.sources;
      Dispatch(r.rtype, r.gaddr, slist);
      assert State() == Closed(ApplyRow(cfg, s1, r.gaddr, RowFor(s1, r)), r.gaddr, s1.groups[r.gaddr].mode.Include?);
      assert s1 == Downgraded(cfg, Opened(cfg, old(State()), r.gaddr), r);
    }

    // -------------------------------------------------------------- timers that fire

    method TimerTriggeredFilterTimer(gaddr: Addr, t: Timer)
      requires gaddr in groups
      modifies `groups, `notices
      ensures State() == FilterTimerFired(old(State()), gaddr, t)
    {
      if groups[gaddr].filterTimer != Some(t) {
        return;
      }
      if groups[gaddr].mode.Exclude? {
        if groups[gaddr].requested == map[] {
          groups := groups - {gaddr};
          StateChangeNotification(gaddr);
        } else {
          groups := groups[gaddr := groups[gaddr].(mode := Include)];
          groups := groups[gaddr := groups[gaddr].(filterTimer := None)];
          groups := groups[gaddr := groups[gaddr].(excluded := map[])];
          StateChangeNotification(gaddr);
        }
      }
    }

    /** Takes the sources that wait for `t` out of a list and returns them without their timer. */
    static method TakeExpired(list: SrcMap, t: Timer) returns (left: SrcMap, gone: SrcMap)
      ensures left == list - Expired(list, t) && gone == Stopped(list, Expired(list, t))
    {
      left, gone := list, map[];
      var todo := list.Keys;
      while todo != {}
        invariant todo <= list.Keys
        invariant forall a :: a in left <==> a in list && (a in todo || list[a].timer != Some(t))
        invariant forall a | a in left :: left[a] == list[a]
        invariant forall a :: a in gone <==> a in list && a !in todo && list[a].timer == Some(t)
        invariant forall a | a in gone :: gone[a] == Src(None, list[a].count)
        decreases |todo|
      {
        var a :| a in todo;
        if list[a].timer == Some(t) {
          gone := gone[a := Src(None, list[a].count)];
          left := left - {a};
        }
        todo := todo - {a};
      }
      assert left == list - Expired(list, t);
      assert gone == Stopped(list, Expired(list, t));
    }

    method TimerTriggeredSourceTimer(gaddr: Addr, t: Timer)
      requires gaddr in groups
      modifies `groups, `notices
      ensures State() == SourceTimerFired(old(State()), gaddr, t)
    {
      ghost var list := groups[gaddr].requested;
      var left, gone := TakeExpired(groups[gaddr].requested, t);
      assert left.Keys == list.Keys - Expired(list, t) && Expired(list, t) <= list.Keys;
      match groups[gaddr].mode {
        case Include =>
          groups := groups[gaddr := groups[gaddr].(requested := left)];
          if groups[gaddr].requested == map[] {
            assert list.Keys - Expired(list, t) == {};
            assert list.Keys == Expired(list, t);
            groups := groups - {gaddr};
            assert groups == old(groups) - {gaddr};
          } else {
            assert list.Keys - Expired(list, t) != {};
          }
          StateChangeNotification(gaddr);
        case Exclude =>
          // insertion keeps a source that is excluded already
          groups := groups[gaddr := groups[gaddr].(requested := left, excluded := Plus(groups[gaddr].excluded, gone))];
          StateChangeNotification(gaddr);
      }
    }

    method TimerTriggeredOlderHostPresentTimer(gaddr: Addr, t: Timer)
      requires gaddr in groups
      modifies `groups, `pending, `nextId, `notices
      ensures State() == OlderHostTimerFired(cfg, old(State()), gaddr, t)
    {
      if groups[gaddr].olderHost == Some(t) {
        if groups[gaddr].compat.IsNewest() {
          groups := groups[gaddr := groups[gaddr].(olderHost := None)];
          StateChangeNotification(gaddr);
        } else {
          groups := groups[gaddr := groups[gaddr].(compat := NextNewer(groups[gaddr].compat))];
          var delay := if groups[gaddr].compat.IsNewest() then cfg.mali else cfg.ohpi;
          var ohpt := Timer(nextId, OlderHostT, gaddr, now + delay);
          groups := groups[gaddr := groups[gaddr].(olderHost := Some(ohpt))];
          AddTime(ohpt);
        }
      }
    }

    /** Entry point for all timer messages. A message nobody else points to is outdated. */
    method TimerTriggered(t: Timer)
      requires Valid() && t in pending && t.deadline <= now
      modifies `groups, `pending, `nextId, `log, `notices
      ensures State() == QuerierSpec.TimerTriggered(cfg, old(State()), t)
      ensures Valid()
    {
      hide SendSourceQuery, SendGroupQuery, FilterTimerFired, SourceTimerFired, OlderHostTimerFired, Inv;
      ghost var s := State();
      TimerTriggeredInv(cfg, s, t);
      pending := pending - {t};
      var inUse := exists g | g in groups :: groups[g].Holds(t);
      if !inUse || t.gaddr !in groups {
        return;
      }
      match t.kind {
        case FilterT => TimerTriggeredFilterTimer(t.gaddr, t);
        case SourceT => TimerTriggeredSourceTimer(t.gaddr, t);
        case RetGroupT =>
          if groups[t.gaddr].groupRetrans == Some(t) {
            RetransmissionTimed(cfg, s, t.gaddr);
            SendQGroup(t.gaddr);
          }
        case RetSourceT =>
          if groups[t.gaddr].sourceRetrans == Some(t) {
            RequestedTimed(cfg, s, t.gaddr);
            SendQSources(t.gaddr, {}, true);
          }
        case OlderHostT => TimerTriggeredOlderHostPresentTimer(t.gaddr, t);
      }
    }

    /** Time passes up to the next deadline. */
    method Pass(to: int, lag: nat)
      requires Valid() && now <= to && forall t | t in pending :: to <= t.deadline
      modifies `now, `lag
      ensures State() == Step(cfg, old(State()), Tick(to, lag)) && Valid()
    {
      TickInv(cfg, State(), to, lag);
      now, this.lag := to, lag;
    }

    // -------------------------------------------------------------- queries by the routing layer

    /** Appends this interface to the output list of every source that the view of the group admits
        and the interface filter accepts. */
    method SuggestToForwardTraffic(gaddr: Addr, rtList: seq<(Addr, seq<IfIndex>)>, accepts: Addr -> bool)
      returns (list: seq<(Addr, seq<IfIndex>)>)
      ensures |list| == |rtList|
      ensures forall i | 0 <= i < |list| ::
        && list[i].0 == rtList[i].0
        && list[i].1 == rtList[i].1 +
             if State().Membership(gaddr).Admits(rtList[i].0) && accepts(rtList[i].0) then [ifIndex] else []
    {
      list := rtList;
      if gaddr !in groups {
        return;
      }
      var gi := groups[gaddr];
      for n := 0 to |rtList|
        invariant |list| == |rtList|
        invariant forall i | n <= i < |list| :: list[i] == rtList[i]
        invariant forall i | 0 <= i < n ::
          && list[i].0 == rtList[i].0
          && list[i].1 == rtList[i].1 + if gi.Membership().Admits(rtList[i].0) && accepts(rtList[i].0) then [ifIndex] else []
      {
        var a := list[n].0;
        var interested :=
          if gi.UnderCompatibilityEffects() then true
          else if gi.mode.Include? then a in gi.requested
          else a !in gi.excluded;
        if interested && accepts(a) {
          list := list[n := (a, list[n].1 + [ifIndex])];
        }
      }
    }

    method GetGroupMembershipInfos(gaddr: Addr) returns (view: View)
      ensures view == State().Membership(gaddr)
    {
      view := NOTHING;
      if gaddr in groups {
        if groups[gaddr].UnderCompatibilityEffects() {
          view := View(Exclude, {});
        } else {
          view := View(groups[gaddr].mode, {});
          if groups[gaddr].mode.Include? {
            view := view.(sources := groups[gaddr].requested.Keys);
          } else {
            view := view.(sources := groups[gaddr].excluded.Keys);
          }
        }
      }
    }
  }

  /** A record of unknown type is logged and otherwise ignored. */
  lemma UnknownChangesNothing(cfg: Config, s: QState, g: Addr, list: set<Addr>)
    requires g in s.groups && (s.groups[g].mode.Include? ==> s.groups[g].excluded == map[])
    ensures
      var gi := s.groups[g];
      ApplyRow(cfg, s, g, TableRow(gi.mode, Unknown, gi.requested.Keys, gi.excluded.Keys, list)) == s
  {
    hide SendSourceQuery, RefreshSources;
    var gi := s.groups[g];
    assert Listed(gi.requested, gi.requested.Keys) == gi.requested;
    assert Listed(gi.excluded, gi.excluded.Keys) == gi.excluded;
    assert s.groups[g := gi] == s.groups;
    NothingAsked(cfg, s, g);
  }

  /** A list as it comes with a record: no timers, no counters. */
  predicate Fresh(list: SrcMap) {
    forall a | a in list :: list[a] == FRESH
  }

  /** The list operators and the lists of the tables. */
  lemma ListsAsMaps(l: SrcMap, r: SrcMap)
    requires Fresh(r)
    ensures Listed(l, l.Keys) == l
    ensures Listed(l, l.Keys + r.Keys) == Plus(l, r) && Plus(l, r).Keys == l.Keys + r.Keys
    ensures Listed(l, l.Keys * r.Keys) == Times(l, r) && Times(l, r).Keys == l.Keys * r.Keys
    ensures Listed(l, l.Keys - r.Keys) == Minus(l, r) && Minus(l, r).Keys == l.Keys - r.Keys
    ensures Listed(map[], r.Keys - l.Keys) == Minus(r, l) == Minus(r, Times(l, r))
    ensures Times(Times(l, r), r).Keys == l.Keys * r.Keys
    ensures Minus(Plus(l, r), r).Keys == l.Keys - r.Keys
    ensures Listed(map[], {}) == map[]
  {
  }

  lemma NothingAsked(cfg: Config, s: QState, g: Addr)
    requires g in s.groups
    ensures SendSourceQuery(cfg, s, g, {}, false) == s && RefreshSources(cfg, s, g, {}) == s
  {
  }

  lemma ExcludeLists(X: SrcMap, Y: SrcMap, A: SrcMap)
    requires X.Keys !! Y.Keys && Fresh(A)
    ensures Listed(X, X.Keys + (A.Keys - Y.Keys)) == Plus(X, Minus(A, Y)) && Minus(A, Y).Keys == A.Keys - Y.Keys
    ensures Listed(X, A.Keys - Y.Keys) == Plus(Times(X, A), Minus(A, Y)) && Plus(Times(X, A), Minus(A, Y)).Keys == A.Keys - Y.Keys
    ensures Listed(Y, Y.Keys * A.Keys) == Times(Y, A)
    ensures Listed(Y, Y.Keys) == Y
  {
  }

  /** The merge of IS_EX and TO_EX, (X*A)+(A-Y), gives the list A-Y of the table exactly if X and Y have no
      source of A in common. */
  lemma MergeNeedsDisjoint(X: SrcMap, Y: SrcMap, A: SrcMap)
    ensures Plus(Times(X, A), Minus(A, Y)).Keys == A.Keys - Y.Keys <==> X.Keys * Y.Keys * A.Keys == {}
  {
    var merged := Plus(Times(X, A), Minus(A, Y)).Keys;
    assert merged == X.Keys * A.Keys + (A.Keys - Y.Keys);
    if a :| a in X.Keys * Y.Keys * A.Keys {
      assert a in merged;
    } else {
      assert forall a | a in X.Keys && a in A.Keys :: a in Y.Keys ==> a in X.Keys * Y.Keys * A.Keys;
    }
  }

  lemma FilterTimerKept(cfg: Config, s: QState, g: Addr, ask: set<Addr>)
    requires g in s.groups
    ensures SendSourceQuery(cfg, s, g, ask, false).groups[g].filterTimer == s.groups[g].filterTimer
  {
  }

  /** Setting the timers of A-X-Y before or after the merge of A makes no difference. */
  lemma MergedLists(X: SrcMap, Y: SrcMap, A: SrcMap, st: Timer)
    requires X.Keys !! Y.Keys && Fresh(A)
    ensures
      var who := Minus(Minus(A, X), Y);
      var A' := Refreshed(A, who.Keys, st);
      && who.Keys == A.Keys - X.Keys - Y.Keys
      && Plus(Times(X, A'), Minus(A', Y)) == Refreshed(Listed(X, A.Keys - Y.Keys), who.Keys, st)
      && Times(Y, A') == Listed(Y, Y.Keys * A.Keys)
      && (who.Keys == {} ==> Refreshed(Listed(X, A.Keys - Y.Keys), {}, st) == Listed(X, A.Keys - Y.Keys))
  {
    var who := Minus(Minus(A, X), Y);
    var A' := Refreshed(A, who.Keys, st);
    assert who.Keys == A.Keys - X.Keys - Y.Keys;
    assert A'.Keys == A.Keys;
    assert forall a | a in A' :: a !in X && a !in Y ==> A'[a] == Src(Some(st), -1);
    MergedRequested(X, Y, A, A', st);
    assert Times(Y, A').Keys == Y.Keys * A.Keys;
  }

  lemma MergedRequested(X: SrcMap, Y: SrcMap, A: SrcMap, A': SrcMap, st: Timer)
    requires X.Keys !! Y.Keys && A'.Keys == A.Keys
    requires forall a | a in A' :: a !in X && a !in Y ==> A'[a] == Src(Some(st), -1)
    ensures Plus(Times(X, A'), Minus(A', Y)) == Refreshed(Listed(X, A.Keys - Y.Keys), A.Keys - X.Keys - Y.Keys, st)
  {
    var kept, merged := Times(X, A'), Plus(Times(X, A'), Minus(A', Y));
    var later := Refreshed(Listed(X, A.Keys - Y.Keys), A.Keys - X.Keys - Y.Keys, st);
    assert kept.Keys == X.Keys * A.Keys;
    assert merged.Keys == A.Keys - Y.Keys == later.Keys;
    forall a | a in merged
      ensures merged[a] == later[a]
    {
      assert a in kept <==> a in X;
    }
  }

  lemma MergedLater(cfg: Config, s: QState, g: Addr, A: SrcMap)
    requires g in s.groups && s.groups[g].mode.Exclude? && Fresh(A)
    requires s.groups[g].requested.Keys !! s.groups[g].excluded.Keys
    ensures
      var gi := s.groups[g];
      var X, Y := gi.requested, gi.excluded;
      var who := Minus(Minus(A, X), Y);
      var st := NewTimer(s, SourceT, g, cfg.mali);
      var A' := Refreshed(A, who.Keys, st);
      var s1 := SetGroup(s, g, gi.(requested := Plus(Times(X, A'), Minus(A', Y)), excluded := Times(Y, A')));
      var row := ExcludeRow(IsEx, X.Keys, Y.Keys, A.Keys);
      (if who == map[] then s1 else Arm(s1, st)) == RefreshSources(cfg, SetLists(s, g, row), g, row.refresh)
  {
    hide Refreshed, Listed, Plus, Times, Minus;
    var gi := s.groups[g];
    var X, Y := gi.requested, gi.excluded;
    var row := ExcludeRow(IsEx, X.Keys, Y.Keys, A.Keys);
    var who := Minus(Minus(A, X), Y);
    MergedLists(X, Y, A, NewTimer(s, SourceT, g, cfg.mali));
    assert row.refresh == who.Keys && row.x == A.Keys - Y.Keys && row.y == Y.Keys * A.Keys && row.mode == gi.mode;
    assert who == map[] <==> who.Keys == {};
    var lists := gi.(requested := Listed(X, row.x), excluded := Listed(Y, row.y));
    var done := lists.(requested := Refreshed(lists.requested, row.refresh, NewTimer(s, SourceT, g, cfg.mali)));
    assert s.groups[g := lists][g := done] == s.groups[g := done];
  }

  /** The lists of a record are ready for the handler of its mode. */
  lemma RecordShape(cfg: Config, s: QState, r: GroupRecord)
    requires cfg.Ok() && Inv(cfg, s) && Receivable(cfg, r)
    ensures
      var gi := Downgraded(cfg, Opened(cfg, s, r.gaddr), r).groups[r.gaddr];
      && (gi.mode.Include? ==> gi.excluded == map[])
      && (gi.mode.Exclude? ==> gi.filterTimer.Some? && gi.requested.Keys !! gi.excluded.Keys)
      && CountersTimed(gi.requested)
  {
    hide BurstOk;
    OpenedSound(cfg, s, r);
  }

  lemma RequestedTimed(cfg: Config, s: QState, g: Addr)
    requires Inv(cfg, s) && g in s.groups
    ensures CountersTimed(s.groups[g].requested)
  {
    hide BurstOk, ModeOk;
    assert GroupInv(cfg, s, g);
  }

  /** A new list has the sources of the old one or fresh ones. */
  lemma ListedTimed(list: SrcMap, keys: set<Addr>)
    requires CountersTimed(list)
    ensures CountersTimed(Listed(list, keys))
  {
  }

  /** A retransmission that has not run out finds a filter timer. */
  lemma RetransmissionTimed(cfg: Config, s: QState, g: Addr)
    requires cfg.Ok() && Inv(cfg, s) && g in s.groups
    ensures s.groups[g].groupRetrans.Some? && s.groups[g].groupCount > 0 ==> s.groups[g].filterTimer.Some?
  {
    hide SourcesOk;
    assert GroupInv(cfg, s, g);
  }
}
