/** The membership database of one downstream interface: timers with an identity, sources
    with their timer and query counter, the record of one group, and the state of a querier. */
module MembershipDb {
  import opened Defs

  datatype TimerKind = FilterT | SourceT | RetGroupT | RetSourceT | OlderHostT

  /** A timer message. Two timers are the same object exactly when they are equal, because
      every registered timer draws its own identity `id`. */
  datatype Timer = Timer(id: nat, kind: TimerKind, gaddr: Addr, deadline: int)

  /** The mutable part of a source: its timer and the number of queries still to send,
      -1 outside of a retransmission. */
  datatype Src = Src(timer: Option<Timer>, count: int)

  const FRESH := Src(None, -1)

  type SrcMap = map<Addr, Src>

  /** Sources with queries to come have a timer. */
  ghost predicate CountersTimed(list: SrcMap) {
    forall a | a in list && list[a].count > 0 :: list[a].timer.Some?
  }

  datatype GroupInfo = GroupInfo(
    mode: FilterMode,
    filterTimer: Option<Timer>,
    compat: Version,
    olderHost: Option<Timer>,
    groupRetrans: Option<Timer>,
    groupCount: int,
    sourceRetrans: Option<Timer>,
    requested: SrcMap,   // the Include List or, in EXCLUDE mode, the Requested List
    excluded: SrcMap)
  {
    predicate InCompatibilityMode() {
      !compat.IsNewest()
    }

    predicate UnderCompatibilityEffects() {
      olderHost.Some?
    }

    /** Some field of the record still points to timer `t`. */
    predicate Holds(t: Timer) {
      || filterTimer == Some(t)
      || olderHost == Some(t)
      || groupRetrans == Some(t)
      || sourceRetrans == Some(t)
      || (exists a | a in requested :: requested[a].timer == Some(t))
      || (exists a | a in excluded :: excluded[a].timer == Some(t))
    }

    function Membership(): View {
      if UnderCompatibilityEffects() then EVERYTHING
      else if mode.Include? then View(Include, requested.Keys)
      else View(Exclude, excluded.Keys)
    }
  }

  function NewGroup(v: Version): GroupInfo {
    GroupInfo(Include, None, v, None, None, -1, None, map[], map[])
  }

  /** Queries handed to the sender; `suppress` is the "Suppress Router-Side Processing" flag. */
  datatype Query =
    | GroupQuery(gaddr: Addr, suppress: bool)
    | SourceQuery(gaddr: Addr, sources: set<Addr>, suppress: bool)

  /** One call of the state change callback, with the view the callee could read then. */
  datatype Notice = Notice(gaddr: Addr, view: View)

  /** The state of a querier: its database, the clock, the time `lag` that passes between the arming of
      a timer and the sending of a query in one event, the registered timers that have not fired yet,
      the queries sent and the notifications made so far. */
  datatype QState = QState(
    groups: map<Addr, GroupInfo>,
    now: int,
    lag: nat,
    nextId: nat,
    pending: set<Timer>,
    log: seq<Query>,
    notices: seq<Notice>)
  {
    function Membership(g: Addr): View {
      if g in groups then groups[g].Membership() else NOTHING
    }

    predicate InUse(t: Timer) {
      exists g | g in groups :: groups[g].Holds(t)
    }
  }

  const EMPTY := QState(map[], 0, 0, 0, {}, [], [])

  /** The view of group `g` at its last notification. */
  function LastView(notices: seq<Notice>, g: Addr): View
  {
    if notices == [] then NOTHING
    else
      var n := notices[|notices| - 1];
      if n.gaddr == g then n.view else LastView(notices[..|notices| - 1], g)
  }

  datatype GroupRecord = GroupRecord(rtype: RecordType, gaddr: Addr, sources: set<Addr>, version: Version)

  /** The time that `n` rounds of length `interval` take. */
  function Span(n: int, interval: nat): nat
    decreases n
  {
    if n <= 0 then 0 else interval + Span(n - 1, interval)
  }

  lemma {:induction false} SpanIsProduct(n: nat, interval: nat)
    ensures Span(n, interval) == n * interval
  {
    if n > 0 {
      SpanIsProduct(n - 1, interval);
    }
  }

  lemma {:induction false} SpanMonotone(m: int, n: int, interval: nat)
    requires m <= n
    ensures Span(m, interval) <= Span(n, interval)
    decreases n - m
  {
    if m < n {
      SpanMonotone(m, n - 1, interval);
    }
  }

  /** The intervals and counts a querier works with, in milliseconds. */
  datatype Config = Config(mali: nat, ohpi: nat, llqi: nat, llqc: nat, version: Version) {

    /** Last Listener Query Time, the product of interval and count. */
    function Llqt(): nat {
      Span(llqc, llqi)
    }

    predicate Ok() {
      0 < llqi && 0 < mali && 0 < ohpi && Llqt() <= mali && version.IsNewest()
    }
  }
}
