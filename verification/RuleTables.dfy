/** Filter tables: matching follows references between tables. */
module RuleTables {
  import opened Defs

  /** The unspecified address stands for any address. */
  const ANY: Addr := 0

  datatype AddrMatch = Single(addr: Addr) | Range(from: Addr, to: Addr) {
    predicate Matches(a: Addr) {
      match this
      case Single(addr) => a == addr || addr == ANY
      case Range(from, to) => (a >= from || from == ANY) && (a <= to || to == ANY)
    }
  }

  datatype Rule =
    | AddrRule(ifName: string, group: AddrMatch, source: AddrMatch)
    | TableRule(table: Table)
    | TableRef(name: string)

  datatype Table = Table(name: string, rules: seq<Rule>)

  datatype Packet = Packet(ifName: string, gaddr: Addr, saddr: Addr)

  predicate LeafMatches(r: Rule, p: Packet) {
    r.AddrRule? && (r.ifName == "" || r.ifName == p.ifName) && r.group.Matches(p.gaddr) && r.source.Matches(p.saddr)
  }

  // ---------------------------------------------------------------- references

  /** The names that the first `n` rules of a table refer to, also inside of inner tables. */
  function RefsIn(t: Table, n: nat): set<string>
    requires n <= |t.rules|
    decreases t, n
  {
    if n == 0 then {}
    else
      RefsIn(t, n - 1) +
      match t.rules[n - 1]
      case AddrRule(_, _, _) => {}
      case TableRule(u) => RefsIn(u, |u.rules|)
      case TableRef(name) => {name}
  }

  function Refs(t: Table): set<string> {
    RefsIn(t, |t.rules|)
  }

  /** The place of a table among the definitions, in the order they were made. */
  function Find(defs: seq<Table>, name: string): (i: Option<nat>)
    ensures i.Some? ==> i.value < |defs| && defs[i.value].name == name
    ensures i.None? ==> forall k | 0 <= k < |defs| :: defs[k].name != name
  {
    if defs == [] then None
    else if defs[|defs| - 1].name == name then Some(|defs| - 1)
    else Find(defs[..|defs| - 1], name)
  }

  predicate UniqueNames(defs: seq<Table>) {
    forall i, j | 0 <= i < j < |defs| :: defs[i].name != defs[j].name
  }

  /** Every name in `names` is that of a table defined before `bound`. */
  ghost predicate Resolved(defs: seq<Table>, names: set<string>, bound: nat) {
    forall n | n in names :: Find(defs, n).Some? && Find(defs, n).value < bound
  }

  /** Names are unique and tables refer only to tables defined before them. */
  ghost predicate WellFounded(defs: seq<Table>) {
    && UniqueNames(defs)
    && forall i | 0 <= i < |defs| :: Resolved(defs, Refs(defs[i]), i)
  }

  // ---------------------------------------------------------------- matching

  /** One of the first `n` rules of a table matches. A reference is looked up among all definitions. The
      measure is the place of the definition the rules belong to, then the structure of the table. */
  predicate Match(defs: seq<Table>, ghost bound: nat, t: Table, n: nat, p: Packet)
    requires WellFounded(defs) && n <= |t.rules| && Resolved(defs, RefsIn(t, n), bound)
    decreases bound, t, n
  {
    n > 0 &&
    (|| Match(defs, bound, t, n - 1, p)
     || match t.rules[n - 1]
        case AddrRule(_, _, _) => LeafMatches(t.rules[n - 1], p)
        case TableRule(u) => Match(defs, bound, u, |u.rules|, p)
        case TableRef(name) =>
          match Find(defs, name)
          case None => false
          case Some(i) => Match(defs, i, defs[i], |defs[i].rules|, p))
  }

  /** All address rules that the first `n` rules of a table lead to. */
  function Flattened(defs: seq<Table>, bound: nat, t: Table, n: nat): (leaves: seq<Rule>)
    requires WellFounded(defs) && n <= |t.rules| && Resolved(defs, RefsIn(t, n), bound)
    ensures forall i | 0 <= i < |leaves| :: leaves[i].AddrRule?
    decreases bound, t, n
  {
    if n == 0 then []
    else
      Flattened(defs, bound, t, n - 1) +
      match t.rules[n - 1]
      case AddrRule(_, _, _) => [t.rules[n - 1]]
      case TableRule(u) => Flattened(defs, bound, u, |u.rules|)
      case TableRef(name) =>
        match Find(defs, name)
        case None => []
        case Some(i) => Flattened(defs, i, defs[i], |defs[i].rules|)
  }

  ghost predicate SomeLeaf(leaves: seq<Rule>, p: Packet) {
    exists i :: 0 <= i < |leaves| && LeafMatches(leaves[i], p)
  }

  lemma SomeLeafSplit(a: seq<Rule>, b: seq<Rule>, p: Packet)
    ensures SomeLeaf(a + b, p) <==> SomeLeaf(a, p) || SomeLeaf(b, p)
  {
    if i :| 0 <= i < |a| && LeafMatches(a[i], p) {
      assert (a + b)[i] == a[i];
    }
    if i :| 0 <= i < |b| && LeafMatches(b[i], p) {
      assert (a + b)[|a| + i] == b[i];
    }
    if i :| 0 <= i < |a + b| && LeafMatches((a + b)[i], p) {
      assert (a + b)[i] == if i < |a| then a[i] else b[i - |a|];
    }
  }

  /** A table matches exactly if some address rule of the flattened table does. */
  lemma {:induction false} MatchIsFlat(defs: seq<Table>, bound: nat, t: Table, n: nat, p: Packet)
    requires WellFounded(defs) && n <= |t.rules| && Resolved(defs, RefsIn(t, n), bound)
    ensures Match(defs, bound, t, n, p) <==> SomeLeaf(Flattened(defs, bound, t, n), p)
    decreases bound, t, n
  {
    if n > 0 {
      var front := Flattened(defs, bound, t, n - 1);
      MatchIsFlat(defs, bound, t, n - 1, p);
      match t.rules[n - 1]
      case AddrRule(_, _, _) =>
        assert [t.rules[n - 1]][0] == t.rules[n - 1];
        SomeLeafSplit(front, [t.rules[n - 1]], p);
      case TableRule(u) =>
        MatchIsFlat(defs, bound, u, |u.rules|, p);
        SomeLeafSplit(front, Flattened(defs, bound, u, |u.rules|), p);
      case TableRef(name) =>
        var i := Find(defs, name).value;
        MatchIsFlat(defs, i, defs[i], |defs[i].rules|, p);
        SomeLeafSplit(front, Flattened(defs, i, defs[i], |defs[i].rules|), p);
    }
  }

  // ---------------------------------------------------------------- what a rule means

  /** The address lies between the ends of an address part; an unspecified end is no bound, and an unspecified single
      address is any address. */
  ghost predicate Covers(m: AddrMatch, a: Addr) {
    match m
    case Single(x) => x != 0 ==> x == a
    case Range(from, to) =>
      if from == 0 && to == 0 then true
      else if from == 0 then a <= to
      else if to == 0 then from <= a
      else from <= a <= to
  }

  /** An address rule covers a packet: group and source each by its own part, the interface by name unless it is empty. */
  ghost predicate RuleCovers(r: Rule, p: Packet) {
    && r.AddrRule?
    && (r.ifName != "" ==> p.ifName == r.ifName)
    && Covers(r.group, p.gaddr)
    && Covers(r.source, p.saddr)
  }

  lemma LeafCovers(r: Rule, p: Packet)
    ensures LeafMatches(r, p) <==> RuleCovers(r, p)
  {
  }

  /** A table matches a packet if and only if one of the address rules it leads to covers it. */
  lemma MatchMeans(defs: seq<Table>, bound: nat, t: Table, p: Packet)
    requires WellFounded(defs) && Resolved(defs, Refs(t), bound)
    ensures
      var leaves := Flattened(defs, bound, t, |t.rules|);
      Match(defs, bound, t, |t.rules|, p) <==> exists i :: 0 <= i < |leaves| && RuleCovers(leaves[i], p)
  {
    hide LeafMatches, RuleCovers, WellFounded, Resolved;
    var leaves := Flattened(defs, bound, t, |t.rules|);
    MatchIsFlat(defs, bound, t, |t.rules|, p);
    forall i | 0 <= i < |leaves|
      ensures LeafMatches(leaves[i], p) <==> RuleCovers(leaves[i], p)
    {
      LeafCovers(leaves[i], p);
    }
  }

  lemma NoRefs(t: Table)
    requires |t.rules| == 1 && t.rules[0].AddrRule?
    ensures RefsIn(t, 0) == {} && Refs(t) == {}
  {
    assert RefsIn(t, 0) == {};
  }

  /** A table with one address rule, end by end: a range matches the addresses from its lower to its upper end, both
      included; an unspecified end lifts its own bound only; a single address matches itself only. */
  lemma OneRuleMatches(defs: seq<Table>, name: string, ifName: string, group: AddrMatch, source: AddrMatch, p: Packet)
    requires WellFounded(defs)
    ensures
      var t := Table(name, [AddrRule(ifName, group, source)]);
      && Resolved(defs, Refs(t), 0)
      && (Match(defs, 0, t, 1, p) <==> (ifName == "" || p.ifName == ifName) && Covers(group, p.gaddr) && Covers(source, p.saddr))
  {
    var t := Table(name, [AddrRule(ifName, group, source)]);
    NoRefs(t);
    LeafCovers(t.rules[0], p);
  }

  // ---------------------------------------------------------------- later definitions

  lemma {:induction false} FoundAgain(defs: seq<Table>, more: seq<Table>, name: string)
    requires UniqueNames(defs + more) && Find(defs, name).Some?
    ensures Find(defs + more, name) == Find(defs, name)
  {
    var all := defs + more;
    var i, j := Find(defs, name).value, Find(all, name);
    assert all[i] == defs[i];
    assert all[j.value].name == all[i].name;
  }

  /** What the last of `n` rules refers to is resolved if all of them are. */
  lemma LastResolved(defs: seq<Table>, t: Table, n: nat, bound: nat)
    requires 0 < n <= |t.rules| && Resolved(defs, RefsIn(t, n), bound)
    ensures Resolved(defs, RefsIn(t, n - 1), bound)
    ensures t.rules[n - 1].TableRule? ==> Resolved(defs, Refs(t.rules[n - 1].table), bound)
    ensures t.rules[n - 1].TableRef? ==> Find(defs, t.rules[n - 1].name).Some? && Find(defs, t.rules[n - 1].name).value < bound
  {
  }

  lemma PlacedBefore(defs: seq<Table>, i: nat)
    requires WellFounded(defs) && i < |defs|
    ensures Resolved(defs, Refs(defs[i]), i)
  {
  }

  /** Later definitions change neither the flattened rules nor, with them, what matches. */
  lemma {:induction false} StableFlat(defs: seq<Table>, more: seq<Table>, b: nat, c: nat, t: Table, n: nat)
    requires WellFounded(defs) && WellFounded(defs + more) && n <= |t.rules|
    requires Resolved(defs, RefsIn(t, n), b) && Resolved(defs + more, RefsIn(t, n), c)
    ensures Flattened(defs + more, c, t, n) == Flattened(defs, b, t, n)
    decreases b, t, n
  {
    hide Resolved, RefsIn, UniqueNames, Find;
    if n > 0 {
      var r := t.rules[n - 1];
      LastResolved(defs, t, n, b);
      LastResolved(defs + more, t, n, c);
      StableFlat(defs, more, b, c, t, n - 1);
      if r.TableRule? {
        StableFlat(defs, more, b, c, r.table, |r.table.rules|);
      } else if r.TableRef? {
        FoundAgain(defs, more, r.name);
        var i := Find(defs, r.name).value;
        assert (defs + more)[i] == defs[i];
        PlacedBefore(defs, i);
        PlacedBefore(defs + more, i);
        StableFlat(defs, more, i, i, defs[i], |defs[i].rules|);
      }
    }
  }

  lemma MatchIsStable(defs: seq<Table>, more: seq<Table>, b: nat, c: nat, t: Table, p: Packet)
    requires WellFounded(defs) && WellFounded(defs + more)
    requires Resolved(defs, Refs(t), b) && Resolved(defs + more, Refs(t), c)
    ensures Match(defs + more, c, t, |t.rules|, p) <==> Match(defs, b, t, |t.rules|, p)
  {
    StableFlat(defs, more, b, c, t, |t.rules|);
    MatchIsFlat(defs, b, t, |t.rules|, p);
    MatchIsFlat(defs + more, c, t, |t.rules|, p);
  }

  // ---------------------------------------------------------------- definitions

  class GlobalTableSet {
    var tables: seq<Table>

    constructor ()
      ensures tables == []
    {
      tables := [];
    }

    method GetTable(name: string) returns (t: Option<Table>)
      ensures t == if Find(tables, name).Some? then Some(tables[Find(tables, name).value]) else None
      ensures t.Some? ==> t.value in tables && t.value.name == name
    {
      var i := Find(tables, name);
      t := if i.Some? then Some(tables[i.value]) else None;
    }

    /** A table whose name is taken is refused. One that refers only to tables defined already keeps
        the definitions well-founded. */
    method Insert(t: Table) returns (inserted: bool)
      modifies this
      ensures inserted <==> Find(old(tables), t.name).None?
      ensures tables == old(tables) + if inserted then [t] else []
      ensures WellFounded(old(tables)) && Resolved(old(tables), Refs(t), |old(tables)|) ==> WellFounded(tables)
    {
      inserted := Find(tables, t.name).None?;
      if inserted {
        if WellFounded(tables) && Resolved(tables, Refs(t), |tables|) {
          Extended(tables, t);
        }
        tables := tables + [t];
      }
    }
  }

  lemma Extended(defs: seq<Table>, t: Table)
    requires WellFounded(defs) && Find(defs, t.name).None? && Resolved(defs, Refs(t), |defs|)
    ensures WellFounded(defs + [t])
  {
    var all := defs + [t];
    assert UniqueNames(all);
    forall i | 0 <= i < |all|
      ensures Resolved(all, Refs(all[i]), i)
    {
      assert Resolved(defs, Refs(all[i]), i);
      forall n | n in Refs(all[i])
        ensures Find(all, n).Some? && Find(all, n).value < i
      {
        FoundAgain(defs, [t], n);
      }
    }
  }
}
