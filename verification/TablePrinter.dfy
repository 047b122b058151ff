/** Filter tables written out as tokens: the parser reads back exactly the table that was written. */
module TablePrinter {
  import opened Defs
  import opened RuleTables
  import opened TableParser

  /** How addresses are written, so that they are read back. */
  ghost predicate Spells(rd: Reading, spell: Addr -> seq<Token>) {
    forall a: Addr ::
      && spell(a) != [] && spell(a)[0].Str? && rd.addr(Spelled(spell(a))) == Some(a)
      && forall i | 0 <= i < |spell(a)| :: IsAddrToken(spell(a)[i])
  }

  function EndText(spell: Addr -> seq<Token>, a: Addr): seq<Token> {
    if a == ANY then [Star] else spell(a)
  }

  function PartText(spell: Addr -> seq<Token>, m: AddrMatch): seq<Token> {
    match m
    case Single(a) => EndText(spell, a)
    case Range(from, to) => EndText(spell, from) + [Dash] + EndText(spell, to)
  }

  function NameText(name: string): seq<Token> {
    if name == "" then [] else [Str(name)]
  }

  /** A table that does nothing but refer to another one. */
  predicate IsReference(t: Table) {
    t.name == "" && |t.rules| == 1 && t.rules[0].TableRef?
  }

  function RuleText(spell: Addr -> seq<Token>, r: Rule): seq<Token>
    decreases r, 0
  {
    match r
    case AddrRule(ifName, group, source) =>
      NameText(ifName) + [LeftBracket] + PartText(spell, group) + [Pipe] + PartText(spell, source) + [RightBracket]
    case TableRule(t) => [LeftBracket] + TableText(spell, t) + [RightBracket]
    case TableRef(_) => []
  }

  function RulesText(spell: Addr -> seq<Token>, t: Table, n: nat): seq<Token>
    requires n <= |t.rules|
    decreases t, n
  {
    if n == 0 then [] else RulesText(spell, t, n - 1) + RuleText(spell, t.rules[n - 1])
  }

  function TableText(spell: Addr -> seq<Token>, t: Table): seq<Token>
    decreases t, |t.rules| + 1
  {
    if IsReference(t) then [TableWord, Str(t.rules[0].name)]
    else [TableWord] + NameText(t.name) + [LeftBrace] + RulesText(spell, t, |t.rules|) + [RightBrace]
  }

  /** References stand alone in a table without a name and refer to known tables. */
  predicate Printable(names: set<string>, t: Table)
    decreases t
  {
    if IsReference(t) then t.rules[0].name in names
    else forall i | 0 <= i < |t.rules| ::
      !t.rules[i].TableRef? && (t.rules[i].TableRule? ==> Printable(names, t.rules[i].table))
  }

  lemma EndWritten(rd: Reading, spell: Addr -> seq<Token>, a: Addr)
    requires Spells(rd, spell)
    ensures IsEnd(rd, EndText(spell, a), a)
  {
  }

  lemma PartWritten(rd: Reading, spell: Addr -> seq<Token>, m: AddrMatch)
    requires Spells(rd, spell)
    ensures IsPart(rd, PartText(spell, m), m)
  {
    hide IsEnd, EndText, Spells;
    match m
    case Single(a) => EndWritten(rd, spell, a);
    case Range(from, to) =>
      EndWritten(rd, spell, from);
      EndWritten(rd, spell, to);
      var ts, k := PartText(spell, m), |EndText(spell, from)|;
      assert ts[..k] == EndText(spell, from) && ts[k] == Dash && ts[k + 1..] == EndText(spell, to);
  }

  lemma AddrRuleWritten(rd: Reading, spell: Addr -> seq<Token>, names: set<string>, r: Rule)
    requires Spells(rd, spell) && r.AddrRule?
    ensures IsRule(rd, names, RuleText(spell, r), r)
  {
    hide IsPart, PartText, Spells, IsTable;
    PartWritten(rd, spell, r.group);
    PartWritten(rd, spell, r.source);
    var group, source := PartText(spell, r.group), PartText(spell, r.source);
    var body := group + [Pipe] + source;
    assert IsAddrRule(rd, body, r.ifName, r) by {
      assert body[..|group|] == group && body[|group|] == Pipe && body[|group| + 1..] == source;
    }
    Bracketed(r.ifName, body);
    assert RuleText(spell, r) == NameText(r.ifName) + [LeftBracket] + body + [RightBracket];
  }

  lemma Bracketed(ifName: string, body: seq<Token>)
    ensures
      var ts, n := NameText(ifName) + [LeftBracket] + body + [RightBracket], |NameText(ifName)|;
      ts[n] == LeftBracket && ts[|ts| - 1] == RightBracket && ts[n + 1..|ts| - 1] == body && (ts[0].Str? <==> n == 1)
  {
  }

  lemma TableRuleWritten(rd: Reading, names: set<string>, ts: seq<Token>, t: Table)
    requires IsTable(rd, names, ts, t)
    ensures IsRule(rd, names, [LeftBracket] + ts + [RightBracket], TableRule(t))
  {
    hide IsTable;
    assert ([LeftBracket] + ts + [RightBracket])[1..|ts| + 1] == ts;
  }

  lemma {:induction false} RulesWritten(rd: Reading, spell: Addr -> seq<Token>, names: set<string>, t: Table, n: nat)
    requires Spells(rd, spell) && n <= |t.rules| && Printable(names, t) && !IsReference(t)
    ensures IsRules(rd, names, RulesText(spell, t, n), t.rules[..n])
    decreases t, n
  {
    hide IsRules, IsRule, IsTable, Spells;
    if n == 0 {
      NoRules(rd, names);
      assert t.rules[..0] == [];
    } else {
      var r := t.rules[n - 1];
      RulesWritten(rd, spell, names, t, n - 1);
      if r.AddrRule? {
        AddrRuleWritten(rd, spell, names, r);
      } else {
        TableWritten(rd, spell, names, r.table);
        TableRuleWritten(rd, names, TableText(spell, r.table), r.table);
      }
      RulesAppended(rd, names, RulesText(spell, t, n - 1), RuleText(spell, r), t.rules[..n - 1], r);
      assert t.rules[..n] == t.rules[..n - 1] + [r];
    }
  }

  /** What is written for a table is that table by the grammar: group part before source part, lower end before upper. */
  lemma {:induction false} TableWritten(rd: Reading, spell: Addr -> seq<Token>, names: set<string>, t: Table)
    requires Spells(rd, spell) && Printable(names, t)
    ensures IsTable(rd, names, TableText(spell, t), t)
    decreases t, |t.rules| + 1
  {
    hide IsRules, Spells;
    if !IsReference(t) {
      RulesWritten(rd, spell, names, t, |t.rules|);
      assert t.rules[..|t.rules|] == t.rules;
      var ts, n := TableText(spell, t), 1 + |NameText(t.name)|;
      var rules := RulesText(spell, t, |t.rules|);
      assert ts[n] == LeftBrace && ts[n + 1..|ts| - 1] == rules;
    } else {
      assert t.rules == [TableRef(t.rules[0].name)];
    }
  }

  lemma NoNil(rd: Reading, spell: Addr -> seq<Token>, t: Table)
    requires Spells(rd, spell)
    ensures Nil !in TableText(spell, t)
    decreases t, |t.rules| + 1
  {
    NoNilInRules(rd, spell, t, |t.rules|);
  }

  lemma {:induction false} NoNilInRules(rd: Reading, spell: Addr -> seq<Token>, t: Table, n: nat)
    requires Spells(rd, spell) && n <= |t.rules|
    ensures Nil !in RulesText(spell, t, n)
    decreases t, n
  {
    if n > 0 {
      NoNilInRules(rd, spell, t, n - 1);
      match t.rules[n - 1]
      case AddrRule(_, group, source) =>
        NoNilInPart(rd, spell, group);
        NoNilInPart(rd, spell, source);
      case TableRule(u) => NoNil(rd, spell, u);
      case TableRef(_) =>
    }
  }

  lemma NoNilInPart(rd: Reading, spell: Addr -> seq<Token>, m: AddrMatch)
    requires Spells(rd, spell)
    ensures Nil !in PartText(spell, m)
  {
    match m
    case Single(a) => NoNilInEnd(rd, spell, a);
    case Range(from, to) =>
      NoNilInEnd(rd, spell, from);
      NoNilInEnd(rd, spell, to);
  }

  lemma NoNilInEnd(rd: Reading, spell: Addr -> seq<Token>, a: Addr)
    requires Spells(rd, spell)
    ensures Nil !in EndText(spell, a)
  {
    assert forall i | 0 <= i < |spell(a)| :: spell(a)[i] != Nil;
  }

  /** Round trip: the parser reads back every table that can be written. */
  method ReadBack(rd: Reading, spell: Addr -> seq<Token>, names: set<string>, t: Table) returns (r: Option<Table>)
    requires Spells(rd, spell) && Printable(names, t)
    ensures r == Some(t)
  {
    hide IsTable, Spells, Printable;
    var ts := TableText(spell, t);
    TableWritten(rd, spell, names, t);
    NoNil(rd, spell, t);
    assert ts[0..|ts|] == ts;
    var parser := new Parser(rd, names, ts);
    r := parser.ParseTable(false, Some((|ts|, t)));
  }
}
