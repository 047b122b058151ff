/** The tables of sections 7.4.1 and 7.4.2 of RFC 3810 (sections 6.4.1 and 6.4.2 of RFC 3376),
    read as a function from a router state and a report to a new state and its actions. */
module ReportTables {
  import opened Defs

  /** A row of the tables: the new router state and the actions. `ask` is the set of
      "Send Q(MA, ask)", `askGroup` stands for "Send Q(MA)", `refresh` for "(refresh)=MALI",
      `refreshFilter` for "Filter Timer=MALI". The BLOCK and TO_EX rows of EXCLUDE mode also
      set the timers of A-X-Y to the filter timer; the query of the same row, which those
      sources are part of, lowers them at once, so that action is not listed. */
  datatype Row = Row(
    mode: FilterMode,
    x: set<Addr>,
    y: set<Addr>,
    ask: set<Addr>,
    askGroup: bool,
    refresh: set<Addr>,
    refreshFilter: bool,
    notify: bool)

  /** INCLUDE (A) receives a record over B. */
  function IncludeRow(t: RecordType, A: set<Addr>, B: set<Addr>): Row {
    match t
    case IsIn => Row(Include, A + B, {}, {}, false, B, false, true)
    case Allow => Row(Include, A + B, {}, {}, false, B, false, true)
    case IsEx => Row(Exclude, A * B, B - A, {}, false, {}, true, true)
    case ToEx => Row(Exclude, A * B, B - A, A * B, false, {}, true, true)
    case ToIn => Row(Include, A + B, {}, A - B, false, B, false, true)
    case Block => Row(Include, A, {}, A * B, false, {}, false, false)
    case Unknown => Row(Include, A, {}, {}, false, {}, false, false)
  }

  /** EXCLUDE (X,Y) receives a record over A. */
  function ExcludeRow(t: RecordType, X: set<Addr>, Y: set<Addr>, A: set<Addr>): Row {
    match t
    case IsIn => Row(Exclude, X + A, Y - A, {}, false, A, false, true)
    case Allow => Row(Exclude, X + A, Y - A, {}, false, A, false, true)
    case IsEx => Row(Exclude, A - Y, Y * A, {}, false, A - X - Y, true, true)
    case ToEx => Row(Exclude, A - Y, Y * A, A - Y, false, {}, true, true)
    case ToIn => Row(Exclude, X + A, Y - A, X - A, true, A, false, true)
    case Block => Row(Exclude, X + (A - Y), Y, A - Y, false, {}, false, false)
    case Unknown => Row(Exclude, X, Y, {}, false, {}, false, false)
  }

  function TableRow(mode: FilterMode, t: RecordType, x: set<Addr>, y: set<Addr>, list: set<Addr>): Row {
    if mode.Include? then IncludeRow(t, x, list) else ExcludeRow(t, x, y, list)
  }
}
