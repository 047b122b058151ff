/** The parser of filter tables: recursive descent over the tokens of one command, proved against the
    grammar of the configuration language. */
module TableParser {
  import opened Defs
  import opened RuleTables

  /** Tokens; `Other` stands for the keywords that do not occur in tables. */
  datatype Token =
    | TableWord | LeftBrace | RightBrace | LeftBracket | RightBracket
    | Dash | Slash | Star | Pipe | Dot | Colon | Other | Nil
    | Str(text: string)

  /** Reading of addresses and numbers: the address of the right family that a text spells, the number it
      spells, and the lowest and highest address under a prefix. */
  datatype Reading = Reading(
    addr: string -> Option<Addr>,
    number: string -> Option<nat>,
    low: (Addr, nat) -> Addr,
    high: (Addr, nat) -> Addr)

  // ---------------------------------------------------------------- grammar

  predicate IsAddrToken(t: Token) {
    t.Str? || t.Dot? || t.Colon?
  }

  /** The text that the tokens of an address spell. */
  function Spelled(ts: seq<Token>): string {
    if ts == [] then "" else Spelled(ts[..|ts| - 1]) + Character(ts[|ts| - 1])
  }

  function Character(t: Token): string {
    match t
    case Str(text) => text
    case Dot => "."
    case Colon => ":"
    case _ => ""
  }

  /** One end of a range: a star or an address. */
  ghost predicate IsEnd(rd: Reading, ts: seq<Token>, a: Addr) {
    || (ts == [Star] && a == ANY)
    || (ts != [] && ts[0].Str? && (forall i | 0 <= i < |ts| :: IsAddrToken(ts[i])) && rd.addr(Spelled(ts)) == Some(a))
  }

  /** A group or source part: an address, a prefix or a range. */
  ghost predicate IsPart(rd: Reading, ts: seq<Token>, m: AddrMatch) {
    || (m.Single? && IsEnd(rd, ts, m.addr))
    || (exists k, a, n :: IsPrefix(rd, ts, k, a, n, m))
    || (exists k :: m.Range? && 0 <= k < |ts| && IsEnd(rd, ts[..k], m.from) && ts[k] == Dash && IsEnd(rd, ts[k + 1..], m.to))
  }

  ghost predicate IsPrefix(rd: Reading, ts: seq<Token>, k: nat, a: Addr, n: nat, m: AddrMatch) {
    && |ts| == k + 2 && IsEnd(rd, ts[..k], a) && ts[k] == Slash
    && ts[k + 1].Str? && rd.number(ts[k + 1].text) == Some(n) && n <= 128
    && m == Range(rd.low(a, n), rd.high(a, n))
  }

  ghost predicate IsAddrRule(rd: Reading, ts: seq<Token>, ifName: string, r: Rule) {
    r.AddrRule? && r.ifName == ifName
    && exists k :: 0 <= k < |ts| && IsPart(rd, ts[..k], r.group) && ts[k] == Pipe && IsPart(rd, ts[k + 1..], r.source)
  }

  /** A rule is an address rule or a table in brackets, after an interface name or not. The interface name
      before a table has no effect. */
  ghost predicate IsRule(rd: Reading, names: set<string>, ts: seq<Token>, r: Rule)
    decreases |ts|, 0
  {
    var n := if ts != [] && ts[0].Str? then 1 else 0;
    && |ts| >= n + 2 && ts[n] == LeftBracket && ts[|ts| - 1] == RightBracket
    && var body := ts[n + 1..|ts| - 1];
       || IsAddrRule(rd, body, if n == 1 then ts[0].text else "", r)
       || (r.TableRule? && IsTable(rd, names, body, r.table))
  }

  /** An interface name makes no difference to a rule that is a table: it matches on every interface. */
  lemma NameBeforeTable(rd: Reading, names: set<string>, name: string, ts: seq<Token>, t: Table)
    requires ts != [] && !ts[0].Str?
    ensures IsRule(rd, names, [Str(name)] + ts, TableRule(t)) <==> IsRule(rd, names, ts, TableRule(t))
  {
    hide IsTable;
    var named := [Str(name)] + ts;
    if |ts| >= 2 {
      assert named[1] == ts[0] && named[|named| - 1] == ts[|ts| - 1];
      assert named[2..|named| - 1] == ts[1..|ts| - 1];
    }
  }

  ghost predicate IsRules(rd: Reading, names: set<string>, ts: seq<Token>, rules: seq<Rule>)
    decreases |ts|, 1
  {
    if rules == [] then ts == []
    else exists k :: 0 < k <= |ts| && IsRule(rd, names, ts[..k], rules[0]) && IsRules(rd, names, ts[k..], rules[1..])
  }

  /** A table is a reference to a known table or a list of rules in braces, named or not. */
  ghost predicate IsTable(rd: Reading, names: set<string>, ts: seq<Token>, t: Table)
    decreases |ts|, 2
  {
    && ts != [] && ts[0] == TableWord
    && (|| (|ts| == 2 && ts[1].Str? && ts[1].text in names && t == Table("", [TableRef(ts[1].text)]))
        || var n := if |ts| > 1 && ts[1].Str? then 2 else 1;
           && |ts| >= n + 2 && ts[n] == LeftBrace && ts[|ts| - 1] == RightBrace
           && t.name == (if n == 2 then ts[1].text else "")
           && IsRules(rd, names, ts[n + 1..|ts| - 1], t.rules))
  }

  lemma NoRules(rd: Reading, names: set<string>)
    ensures IsRules(rd, names, [], [])
  {
  }

  lemma {:induction false} RulesAppended(rd: Reading, names: set<string>, ts: seq<Token>, us: seq<Token>, rules: seq<Rule>, r: Rule)
    requires IsRules(rd, names, ts, rules) && IsRule(rd, names, us, r) && us != []
    ensures IsRules(rd, names, ts + us, rules + [r])
    decreases |rules|
  {
    hide IsRule;
    if rules == [] {
      var k := |us|;
      assert ts + us == us && us[..k] == us && us[k..] == [] && ([] + [r])[1..] == [];
    } else {
      var k :| 0 < k <= |ts| && IsRule(rd, names, ts[..k], rules[0]) && IsRules(rd, names, ts[k..], rules[1..]);
      RulesAppended(rd, names, ts[k..], us, rules[1..], r);
      assert (ts + us)[..k] == ts[..k] && (ts + us)[k..] == ts[k..] + us && (rules + [r])[1..] == rules[1..] + [r];
    }
  }

  lemma SpelledOneMore(ts: seq<Token>, a: nat, b: nat)
    requires a <= b < |ts|
    ensures Spelled(ts[a..b + 1]) == Spelled(ts[a..b]) + Character(ts[b])
  {
    assert ts[a..b + 1][..b - a] == ts[a..b];
  }

  lemma SpelledNone(ts: seq<Token>, a: nat)
    requires a <= |ts|
    ensures Spelled(ts[a..a]) == ""
  {
  }

  lemma RangePart(rd: Reading, ts: seq<Token>, a: nat, k: nat, b: nat, m: AddrMatch)
    requires a <= k < b <= |ts| && m.Range? && IsEnd(rd, ts[a..k], m.from) && ts[k] == Dash && IsEnd(rd, ts[k + 1..b], m.to)
    ensures IsPart(rd, ts[a..b], m)
  {
    var all, n := ts[a..b], k - a;
    assert all[..n] == ts[a..k] && all[n + 1..] == ts[k + 1..b] && all[n] == Dash;
  }

  lemma PrefixPart(rd: Reading, ts: seq<Token>, a: nat, k: nat, addr: Addr, n: nat)
    requires a <= k && k + 2 <= |ts| && IsEnd(rd, ts[a..k], addr) && ts[k] == Slash
    requires ts[k + 1].Str? && rd.number(ts[k + 1].text) == Some(n) && n <= 128
    ensures IsPart(rd, ts[a..k + 2], Range(rd.low(addr, n), rd.high(addr, n)))
  {
    var all := ts[a..k + 2];
    assert all[..k - a] == ts[a..k];
    assert IsPrefix(rd, all, k - a, addr, n, Range(rd.low(addr, n), rd.high(addr, n)));
  }

  lemma AddrRuleHere(rd: Reading, names: set<string>, ts: seq<Token>, a: nat, named: bool, k: nat, b: nat, r: Rule)
    requires
      var n := if named then 1 else 0;
      && a + n + 1 <= k < b < |ts| && (named <==> ts[a].Str?) && ts[a + n] == LeftBracket && ts[b] == RightBracket
      && r.AddrRule? && r.ifName == (if named then ts[a].text else "")
      && IsPart(rd, ts[a + n + 1..k], r.group) && ts[k] == Pipe && IsPart(rd, ts[k + 1..b], r.source)
    ensures IsRule(rd, names, ts[a..b + 1], r)
  {
    hide IsPart, IsTable;
    var n := if named then 1 else 0;
    Inner(ts, a, n + 1, b);
    Divided(ts, a + n + 1, k, b);
    assert IsAddrRule(rd, ts[a + n + 1..b], r.ifName, r);
  }

  lemma Divided(ts: seq<Token>, a: nat, k: nat, b: nat)
    requires a <= k < b <= |ts|
    ensures ts[a..b][..k - a] == ts[a..k] && ts[a..b][k - a] == ts[k] && ts[a..b][k - a + 1..] == ts[k + 1..b]
  {
  }

  lemma Inner(ts: seq<Token>, a: nat, n: nat, b: nat)
    requires a + n <= b < |ts|
    ensures ts[a..b + 1][n..b - a] == ts[a + n..b]
  {
    var all := ts[a..b + 1];
    var body := all[n..b - a];
    assert forall i | 0 <= i < |body| :: body[i] == all[n + i] == ts[a + n..b][i];
  }

  lemma TableRuleHere(rd: Reading, names: set<string>, ts: seq<Token>, a: nat, named: bool, b: nat, t: Table)
    requires
      var n := if named then 1 else 0;
      && a + n + 1 <= b < |ts| && (named <==> ts[a].Str?) && ts[a + n] == LeftBracket && ts[b] == RightBracket
      && IsTable(rd, names, ts[a + n + 1..b], t)
    ensures IsRule(rd, names, ts[a..b + 1], TableRule(t))
  {
    hide IsTable;
    var n := if named then 1 else 0;
    Inner(ts, a, n + 1, b);
  }

  // ---------------------------------------------------------------- what the parser is to find

  /** The tokens from `a` to `e` are an end of a range, and no further token belongs to it. */
  ghost predicate EndHere(rd: Reading, ts: seq<Token>, a: nat, e: nat, addr: Addr) {
    a < e < |ts| && !IsAddrToken(ts[e]) && IsEnd(rd, ts[a..e], addr)
  }

  /** A prefix above 128 stands here. */
  ghost predicate LongPrefix(rd: Reading, ts: seq<Token>, a: nat, k: nat, addr: Addr, n: nat) {
    && EndHere(rd, ts, a, k, addr) && ts[k] == Slash
    && k + 1 < |ts| && ts[k + 1].Str? && rd.number(ts[k + 1].text) == Some(n) && n > 128
  }

  ghost predicate LongPrefixAt(rd: Reading, ts: seq<Token>, a: nat) {
    exists k, addr, n :: LongPrefix(rd, ts, a, k, addr, n)
  }

  /** An end of a range is found in one way only. */
  lemma OneEnd(rd: Reading, ts: seq<Token>, a: nat, k: nat, addr: Addr)
    requires a < k <= |ts| && IsEnd(rd, ts[a..k], addr) && (ts[a].Str? && k < |ts| ==> !IsAddrToken(ts[k]))
    ensures forall l, b | EndHere(rd, ts, a, l, b) :: l == k && b == addr
  {
    forall l: nat, b: Addr | EndHere(rd, ts, a, l, b)
      ensures l == k && b == addr
    {
      var s, t := ts[a..k], ts[a..l];
      assert s[0] == t[0] == ts[a];
      if ts[a].Str? {
        assert forall i | a <= i < k :: ts[i] == s[i - a];
        assert forall i | a <= i < l :: ts[i] == t[i - a];
      }
    }
  }

  /** The tokens from `k` on are a slash and a number above 128. */
  predicate LongSuffix(rd: Reading, ts: seq<Token>, k: nat) {
    && k + 1 < |ts| && ts[k] == Slash && ts[k + 1].Str?
    && rd.number(ts[k + 1].text).Some? && rd.number(ts[k + 1].text).value > 128
  }

  lemma LongPrefixIs(rd: Reading, ts: seq<Token>, a: nat, k: nat, addr: Addr)
    requires a < k <= |ts| && IsEnd(rd, ts[a..k], addr) && (ts[a].Str? && k < |ts| ==> !IsAddrToken(ts[k]))
    ensures LongPrefixAt(rd, ts, a) <==> LongSuffix(rd, ts, k)
  {
    hide IsEnd;
    OneEnd(rd, ts, a, k, addr);
    if LongSuffix(rd, ts, k) {
      assert LongPrefix(rd, ts, a, k, addr, rd.number(ts[k + 1].text).value);
    }
  }

  ghost predicate PartHere(rd: Reading, ts: seq<Token>, a: nat, e: nat, m: AddrMatch) {
    a < e < |ts| && (ts[e].RightBracket? || ts[e].Pipe?) && IsPart(rd, ts[a..e], m)
  }

  lemma EndNotEmpty(rd: Reading, ts: seq<Token>, addr: Addr)
    requires IsEnd(rd, ts, addr)
    ensures ts != [] && (ts[0].Str? || ts[0].Star?)
  {
  }

  ghost predicate PrefixFrom(rd: Reading, ts: seq<Token>, k: nat, e: nat, addr: Addr, m: AddrMatch) {
    && k + 2 == e < |ts| && ts[k] == Slash && ts[k + 1].Str?
    && var n := rd.number(ts[k + 1].text);
       n.Some? && n.value <= 128 && m == Range(rd.low(addr, n.value), rd.high(addr, n.value))
  }

  ghost predicate RangeFrom(rd: Reading, ts: seq<Token>, k: nat, e: nat, addr: Addr, m: AddrMatch) {
    && k + 1 < e < |ts| && ts[k] == Dash && (ts[k + 1].Str? || ts[k + 1].Star?)
    && m.Range? && addr == m.from && EndHere(rd, ts, k + 1, e, m.to)
  }

  /** A part begins with one end; what follows tells the three forms apart. */
  lemma PartBegins(rd: Reading, ts: seq<Token>, a: nat, e: nat, m: AddrMatch) returns (k: nat, addr: Addr)
    requires PartHere(rd, ts, a, e, m)
    ensures EndHere(rd, ts, a, k, addr) && (ts[a].Str? || ts[a].Star?)
    ensures (k == e && m == Single(addr)) || PrefixFrom(rd, ts, k, e, addr, m) || RangeFrom(rd, ts, k, e, addr, m)
  {
    hide IsEnd, IsPrefix, PrefixFrom, RangeFrom;
    var all := ts[a..e];
    PartNotEmpty(rd, all, m);
    if m.Single? && IsEnd(rd, all, m.addr) {
      k, addr := e, m.addr;
    } else if j: nat, b: Addr, n: nat :| IsPrefix(rd, all, j, b, n, m) {
      k, addr := a + j, b;
      PrefixBegins(rd, ts, a, e, j, b, n, m);
    } else {
      var j :| 0 <= j < |all| && IsEnd(rd, all[..j], m.from) && all[j] == Dash && IsEnd(rd, all[j + 1..], m.to);
      k, addr := a + j, m.from;
      RangeBegins(rd, ts, a, e, j, m);
    }
  }

  lemma PrefixBegins(rd: Reading, ts: seq<Token>, a: nat, e: nat, j: nat, addr: Addr, n: nat, m: AddrMatch)
    requires a < e < |ts| && IsPrefix(rd, ts[a..e], j, addr, n, m)
    ensures EndHere(rd, ts, a, a + j, addr) && PrefixFrom(rd, ts, a + j, e, addr, m)
  {
    hide IsEnd;
    var all := ts[a..e];
    assert all[..j] == ts[a..a + j] && all[j] == ts[a + j] && all[j + 1] == ts[a + j + 1];
    EndNotEmpty(rd, ts[a..a + j], addr);
  }

  lemma RangeBegins(rd: Reading, ts: seq<Token>, a: nat, e: nat, j: nat, m: AddrMatch)
    requires a < e < |ts| && m.Range? && j < e - a && (ts[e].RightBracket? || ts[e].Pipe?)
    requires var all := ts[a..e]; IsEnd(rd, all[..j], m.from) && all[j] == Dash && IsEnd(rd, all[j + 1..], m.to)
    ensures EndHere(rd, ts, a, a + j, m.from) && RangeFrom(rd, ts, a + j, e, m.from, m)
  {
    hide IsEnd;
    var all, k := ts[a..e], a + j;
    assert all[..j] == ts[a..k] && all[j + 1..] == ts[k + 1..e] && all[j] == ts[k];
    EndNotEmpty(rd, ts[a..k], m.from);
    EndNotEmpty(rd, ts[k + 1..e], m.to);
  }

  ghost predicate RuleHere(rd: Reading, names: set<string>, ts: seq<Token>, a: nat, e: nat, r: Rule) {
    a < e < |ts| && IsRule(rd, names, ts[a..e + 1], r)
  }

  ghost predicate TableHere(rd: Reading, names: set<string>, ts: seq<Token>, a: nat, e: nat, inside: bool, t: Table) {
    a < e <= |ts| && IsTable(rd, names, ts[a..e], t) && EndsTable(ts, e, inside)
  }

  /** The token after a table: the closing bracket of the rule it is in, or none. */
  ghost predicate EndsTable(ts: seq<Token>, e: nat, inside: bool) {
    if inside then e < |ts| && ts[e] == RightBracket else e == |ts|
  }

  lemma ReferenceFound(rd: Reading, names: set<string>, ts: seq<Token>, a: nat, inside: bool, name: string)
    requires a + 2 <= |ts| && ts[a] == TableWord && ts[a + 1] == Str(name) && name in names && EndsTable(ts, a + 2, inside)
    ensures TableHere(rd, names, ts, a, a + 2, inside, Table("", [TableRef(name)]))
  {
    assert ts[a..a + 2] == [TableWord, Str(name)];
  }

  lemma TableFound(rd: Reading, names: set<string>, ts: seq<Token>, a: nat, named: bool, b: nat, inside: bool, t: Table)
    requires
      var n := if named then 2 else 1;
      && a + n + 1 <= b < |ts| && ts[a] == TableWord && (named <==> ts[a + 1].Str?) && ts[a + n] == LeftBrace
      && ts[b] == RightBrace && t.name == (if named then ts[a + 1].text else "")
      && IsRules(rd, names, ts[a + n + 1..b], t.rules) && EndsTable(ts, b + 1, inside)
    ensures TableHere(rd, names, ts, a, b + 1, inside, t)
  {
    hide IsRules;
    var n := if named then 2 else 1;
    Inner(ts, a, n + 1, b);
  }

  /** The inside of a rule, which begins at `b`; the two parts of an address rule are divided at `k`. */
  lemma RuleBegins(rd: Reading, names: set<string>, ts: seq<Token>, a: nat, e: nat, r: Rule) returns (b: nat, k: nat)
    requires RuleHere(rd, names, ts, a, e, r)
    ensures ts[a].Str? || ts[a].LeftBracket?
    ensures b == (if ts[a].Str? then a + 2 else a + 1) && b < e && ts[b - 1] == LeftBracket && ts[e] == RightBracket
    ensures ts[b] == TableWord ==> r.TableRule? && TableHere(rd, names, ts, b, e, true, r.table)
    ensures ts[b] != TableWord ==> AddrPartsHere(rd, ts, b, k, e, r) && r.ifName == (if ts[a].Str? then ts[a].text else "")
  {
    hide IsTable, IsAddrRule, AddrPartsHere;
    var n := if ts[a].Str? then 1 else 0;
    b, k := a + n + 1, 0;
    Inner(ts, a, n + 1, e);
    if IsAddrRule(rd, ts[b..e], if n == 1 then ts[a].text else "", r) {
      k := PartsDivide(rd, ts, b, e, if n == 1 then ts[a].text else "", r);
    } else {
      TableBegins(rd, names, ts[b..e], r.table);
    }
  }

  ghost predicate AddrPartsHere(rd: Reading, ts: seq<Token>, b: nat, k: nat, e: nat, r: Rule) {
    r.AddrRule? && k < e && PartHere(rd, ts, b, k, r.group) && ts[k] == Pipe && PartHere(rd, ts, k + 1, e, r.source)
  }

  lemma PartsDivide(rd: Reading, ts: seq<Token>, b: nat, e: nat, ifName: string, r: Rule) returns (k: nat)
    requires b <= e < |ts| && IsAddrRule(rd, ts[b..e], ifName, r) && ts[e] == RightBracket
    ensures AddrPartsHere(rd, ts, b, k, e, r) && r.ifName == ifName && b < e && ts[b] != TableWord
  {
    hide IsPart;
    var body := ts[b..e];
    var j :| 0 <= j < |body| && IsPart(rd, body[..j], r.group) && body[j] == Pipe && IsPart(rd, body[j + 1..], r.source);
    k := b + j;
    assert body[..j] == ts[b..k] && body[j + 1..] == ts[k + 1..e];
    PartNotEmpty(rd, ts[b..k], r.group);
    PartNotEmpty(rd, ts[k + 1..e], r.source);
  }

  lemma PartNotEmpty(rd: Reading, ts: seq<Token>, m: AddrMatch)
    requires IsPart(rd, ts, m)
    ensures ts != [] && (ts[0].Str? || ts[0].Star?)
  {
    if k: nat, a: Addr, n: nat :| IsPrefix(rd, ts, k, a, n, m) {
      assert ts[..k] != [] && ts[..k][0] == ts[0];
    } else if !(m.Single? && IsEnd(rd, ts, m.addr)) {
      var k :| 0 <= k < |ts| && IsEnd(rd, ts[..k], m.from) && ts[k] == Dash && IsEnd(rd, ts[k + 1..], m.to);
      assert ts[..k] != [] && ts[..k][0] == ts[0];
    }
  }

  lemma TableBegins(rd: Reading, names: set<string>, ts: seq<Token>, t: Table)
    requires IsTable(rd, names, ts, t)
    ensures ts != [] && ts[0] == TableWord
  {
  }

  /** The tokens from `a` to `e` are the rest of the rules, and the brace closes them. */
  ghost predicate RulesHere(rd: Reading, names: set<string>, ts: seq<Token>, a: nat, e: nat, rules: seq<Rule>) {
    a <= e < |ts| && ts[e] == RightBrace && IsRules(rd, names, ts[a..e], rules)
  }

  /** The tokens from `a` to `b` are rules. */
  ghost predicate RulesFound(rd: Reading, names: set<string>, ts: seq<Token>, a: nat, b: nat, rules: seq<Rule>) {
    a <= b <= |ts| && IsRules(rd, names, ts[a..b], rules)
  }

  lemma NoneFound(rd: Reading, names: set<string>, ts: seq<Token>, a: nat)
    requires a <= |ts|
    ensures RulesFound(rd, names, ts, a, a, [])
  {
    assert ts[a..a] == [];
  }

  lemma RulesOneMore(rd: Reading, names: set<string>, ts: seq<Token>, a: nat, b: nat, e: nat, rules: seq<Rule>, r: Rule)
    requires RulesFound(rd, names, ts, a, b, rules) && RuleHere(rd, names, ts, b, e, r)
    ensures RulesFound(rd, names, ts, a, e + 1, rules + [r])
  {
    hide IsRule, IsRules;
    RulesAppended(rd, names, ts[a..b], ts[b..e + 1], rules, r);
    assert ts[a..b] + ts[b..e + 1] == ts[a..e + 1];
  }

  lemma RulesBegin(rd: Reading, names: set<string>, ts: seq<Token>, a: nat, e: nat, rules: seq<Rule>) returns (k: nat)
    requires RulesHere(rd, names, ts, a, e, rules)
    ensures rules == [] ==> a == e && a < |ts| && ts[a] == RightBrace
    ensures rules != [] ==> a <= k && RuleHere(rd, names, ts, a, k, rules[0]) && RulesHere(rd, names, ts, k + 1, e, rules[1..])
  {
    hide IsRule;
    k := a;
    if rules != [] {
      var all := ts[a..e];
      var j :| 0 < j <= |all| && IsRule(rd, names, all[..j], rules[0]) && IsRules(rd, names, all[j..], rules[1..]);
      k := a + j - 1;
      assert all[..j] == ts[a..k + 1] && all[j..] == ts[k + 1..e];
      RuleIsLong(rd, names, all[..j], rules[0]);
    }
  }

  lemma RuleIsLong(rd: Reading, names: set<string>, ts: seq<Token>, r: Rule)
    requires IsRule(rd, names, ts, r)
    ensures |ts| >= 2
  {
  }

  /** The form of a table: a reference, or rules in braces. */
  lemma TableForm(rd: Reading, names: set<string>, ts: seq<Token>, a: nat, e: nat, inside: bool, t: Table)
    requires TableHere(rd, names, ts, a, e, inside, t)
    ensures ts[a] == TableWord && a + 1 < e <= |ts| && EndsTable(ts, e, inside)
    ensures
      || (&& e == a + 2 && ts[a + 1].Str? && ts[a + 1].text in names && t == Table("", [TableRef(ts[a + 1].text)]))
      || var b := if ts[a + 1].Str? then a + 3 else a + 2;
         && b < e && ts[b - 1] == LeftBrace && ts[e - 1] == RightBrace && RulesHere(rd, names, ts, b, e - 1, t.rules)
         && t.name == (if ts[a + 1].Str? then ts[a + 1].text else "") && ts[a + 2] != RightBracket
  {
    hide IsRules, IsRule;
    var all := ts[a..e];
    var n := if |all| > 1 && all[1].Str? then 2 else 1;
    if |all| >= n + 2 && all[n] == LeftBrace {
      Inner(ts, a, n + 1, e - 1);
      assert RulesHere(rd, names, ts, a + n + 1, e - 1, t.rules);
      var k := RulesBegin(rd, names, ts, a + n + 1, e - 1, t.rules);
      if t.rules != [] {
        var b, bar := RuleBegins(rd, names, ts, a + n + 1, k, t.rules[0]);
      }
    }
  }

  /** The rules found and those left are the ones to find, and the next one has just been found. */
  ghost predicate OnTrack(rd: Reading, names: set<string>, ts: seq<Token>, goal: (nat, seq<Rule>),
      list: seq<Rule>, left: seq<Rule>, start: nat, at: nat, rule: Option<Option<Rule>>)
  {
    && goal.1 == list + left
    && (left == [] ==> rule == Some(None) && start == goal.0)
    && (left != [] ==> rule == Some(Some(left[0])) && RulesHere(rd, names, ts, at + 1, goal.0, left[1..]))
  }

  lemma TrackNow(rd: Reading, names: set<string>, ts: seq<Token>, goal: (nat, seq<Rule>),
      list: seq<Rule>, left: seq<Rule>, start: nat, at: nat, rule: Option<Option<Rule>>, next: Option<(nat, Rule)>)
    requires goal.1 == list + left && (left == [] ==> rule == Some(None) && start == goal.0)
    requires left != [] ==>
      && next.Some? && next.value == (at, left[0]) && rule == Some(Some(left[0]))
      && RulesHere(rd, names, ts, next.value.0 + 1, goal.0, left[1..])
    ensures OnTrack(rd, names, ts, goal, list, left, start, at, rule)
  {
    hide RulesHere;
  }

  lemma TrackStep(rd: Reading, names: set<string>, ts: seq<Token>, goal: (nat, seq<Rule>),
      list: seq<Rule>, left: seq<Rule>, start: nat, at: nat, r: Rule) returns (rest: seq<Rule>)
    requires OnTrack(rd, names, ts, goal, list, left, start, at, Some(Some(r)))
    ensures RulesHere(rd, names, ts, at + 1, goal.0, rest) && goal.1 == list + [r] + rest
  {
    hide RulesHere;
    rest := left[1..];
  }

  lemma TrackEnd(rd: Reading, names: set<string>, ts: seq<Token>, goal: (nat, seq<Rule>),
      list: seq<Rule>, left: seq<Rule>, start: nat, at: nat, rule: Option<Option<Rule>>)
    requires OnTrack(rd, names, ts, goal, list, left, start, at, rule) && (rule.Some? ==> rule.value.None?)
    ensures rule == Some(None) && list == goal.1 && start == goal.0
  {
    assert list + [] == list;
  }

  // ---------------------------------------------------------------- the parser

  class Parser {
    const rd: Reading
    const names: set<string>   // the tables defined so far
    const tokens: seq<Token>
    var at: nat
    var ended: bool   // the program has ended at a prefix above 128

    ghost predicate Valid()
      reads this
    {
      at <= |tokens| && Nil !in tokens
    }

    constructor (rd: Reading, names: set<string>, tokens: seq<Token>)
      requires Nil !in tokens
      ensures Valid() && this.rd == rd && this.names == names && this.tokens == tokens && at == 0 && !ended
    {
      this.rd, this.names, this.tokens := rd, names, tokens;
      at, ended := 0, false;
    }

    function Current(): (t: Token)
      reads this
      ensures t != Nil ==> at < |tokens| && t == tokens[at]
      ensures Valid() && at < |tokens| ==> t == tokens[at] != Nil
    {
      if at < |tokens| then tokens[at] else Nil
    }

    /** The token after the current one. */
    function Peek(): (t: Token)
      reads this
      ensures Valid() && t == Nil ==> at + 1 >= |tokens|
      ensures t != Nil ==> at + 1 < |tokens| && t == tokens[at + 1]
    {
      if at + 1 < |tokens| then tokens[at + 1] else Nil
    }

    method GetNextToken()
      requires Valid()
      modifies `at
      ensures Valid() && at == if old(at) < |tokens| then old(at) + 1 else old(at)
    {
      if at < |tokens| {
        at := at + 1;
      }
    }

    method GetAddr() returns (addr: Option<Addr>)
      requires Valid()
      modifies `at
      ensures Valid() && at >= old(at) && !IsAddrToken(Current())
      ensures forall i | old(at) <= i < at :: IsAddrToken(tokens[i])
      ensures addr == rd.addr(Spelled(tokens[old(at)..at]))
      ensures old(Current()).Str? ==> at > old(at)
    {
      hide Spelled;
      SpelledNone(tokens, at);
      var s := "";
      while IsAddrToken(Current())
        invariant Valid() && old(at) <= at && s == Spelled(tokens[old(at)..at])
        invariant forall i | old(at) <= i < at :: IsAddrToken(tokens[i])
        decreases |tokens| - at
      {
        SpelledOneMore(tokens, old(at), at);
        match Current() {
          case Str(text) => s := s + text;
          case Dot => s := s + ".";
          case Colon => s := s + ":";
        }
        GetNextToken();
      }
      addr := rd.addr(s);
    }

    // What a method finds is right by the grammar. If there is something to find, its ghost parameter
    // `goal` says what and where it ends, and the method finds exactly that.

    /** A star or an address. */
    method ParseEnd(ghost goal: Option<(nat, Addr)>) returns (addr: Option<Addr>)
      requires Valid() && (Current().Str? || Current().Star?)
      requires goal.Some? ==> EndHere(rd, tokens, at, goal.value.0, goal.value.1)
      modifies `at
      ensures Valid() && at > old(at)
      ensures addr.Some? ==> IsEnd(rd, tokens[old(at)..at], addr.value)
      ensures old(Current()).Str? ==> !IsAddrToken(Current())
      ensures goal.Some? ==> addr == Some(goal.value.1) && at == goal.value.0
    {
      if Current().Str? {
        addr := GetAddr();
        if goal.Some? {
          var run := tokens[old(at)..goal.value.0];
          assert forall i | old(at) <= i < goal.value.0 :: tokens[i] == run[i - old(at)];
        }
      } else {
        GetNextToken();
        addr := Some(ANY);
        if goal.Some? {
          assert tokens[old(at)..goal.value.0][0] == Star;
        }
      }
    }

    predicate AtPartEnd()
      reads this
    {
      Current().RightBracket? || Current().Pipe?
    }

    /** The part of a prefix from the slash on. At a number above 128 the program ends: it throws without an exception
        to throw again. */
    method ParsePrefix(ghost start: nat, from: Addr, ghost goal: Option<(nat, AddrMatch)>) returns (m: Option<AddrMatch>)
      requires Valid() && start < at && Current().Slash? && IsEnd(rd, tokens[start..at], from)
      requires goal.Some? ==>
        && PrefixFrom(rd, tokens, at, goal.value.0, from, goal.value.1)
        && (tokens[goal.value.0].RightBracket? || tokens[goal.value.0].Pipe?)
      modifies this
      ensures Valid() && at >= old(at)
      ensures m.Some? ==> IsPart(rd, tokens[start..at], m.value) && AtPartEnd() && !LongSuffix(rd, tokens, old(at))
      ensures goal.Some? ==> m == Some(goal.value.1) && at == goal.value.0
      ensures ended <==> old(ended) || LongSuffix(rd, tokens, old(at))
    {
      hide IsPart, IsEnd;
      ghost var k := at;
      GetNextToken();
      if !Current().Str? {
        return None;
      }
      var n := rd.number(Current().text);
      if n.None? {
        return None;
      }
      if n.value > 128 {
        ended := true;
        return None;
      }
      GetNextToken();
      if AtPartEnd() {
        PrefixPart(rd, tokens, start, k, from, n.value);
        return Some(Range(rd.low(from, n.value), rd.high(from, n.value)));
      }
      return None;
    }

    /** The address, prefix or range at the current token. At a prefix above 128, and only there, the program ends. */
    method ParseRulePart(ghost goal: Option<(nat, AddrMatch)>) returns (m: Option<AddrMatch>)
      requires Valid()
      requires goal.Some? ==> PartHere(rd, tokens, at, goal.value.0, goal.value.1)
      modifies this
      ensures Valid() && at >= old(at)
      ensures m.Some? ==> IsPart(rd, tokens[old(at)..at], m.value) && AtPartEnd() && !LongPrefixAt(rd, tokens, old(at))
      ensures goal.Some? ==> m == Some(goal.value.1) && at == goal.value.0
      ensures ended <==> old(ended) || LongPrefixAt(rd, tokens, old(at))
    {
      hide IsPart, IsEnd, LongPrefixAt, PrefixFrom;
      ghost var first, last, prefix := PartGoals(goal);
      if !(Current().Str? || Current().Star?) {
        return None;
      }
      var from := ParseEnd(first);
      if from.None? {
        return None;
      }
      ghost var k := at;
      LongPrefixIs(rd, tokens, old(at), k, from.value);
      if Current().Slash? {
        m := ParsePrefix(old(at), from.value, prefix);
        return;
      } else if AtPartEnd() {
        SinglePart(rd, tokens[old(at)..at], from.value);
        return Some(Single(from.value));
      } else if Current().Dash? {
        GetNextToken();
        if Current().Str? || Current().Star? {
          var to := ParseEnd(last);
          if to.Some? && AtPartEnd() {
            RangePart(rd, tokens, old(at), k, at, Range(from.value, to.value));
            return Some(Range(from.value, to.value));
          }
        }
      }
      return None;
    }

    /** What to find on the way to a part: its first end, the second end of a range, the rest of a prefix. */
    ghost method PartGoals(goal: Option<(nat, AddrMatch)>)
      returns (first: Option<(nat, Addr)>, last: Option<(nat, Addr)>, prefix: Option<(nat, AddrMatch)>)
      requires Valid()
      requires goal.Some? ==> PartHere(rd, tokens, at, goal.value.0, goal.value.1)
      ensures goal.None? ==> last.None? && prefix.None?
      ensures first.Some? ==> EndHere(rd, tokens, at, first.value.0, first.value.1)
      ensures goal.None? && LongPrefixAt(rd, tokens, at) ==> first.Some?
      ensures first.Some? ==> Current().Str? || Current().Star?
      ensures goal.Some? ==>
        && first.Some? && (tokens[goal.value.0].RightBracket? || tokens[goal.value.0].Pipe?)
        && var k, addr := first.value.0, first.value.1;
        && (tokens[k] == Slash ==> prefix == goal && PrefixFrom(rd, tokens, k, goal.value.0, addr, goal.value.1))
        && (tokens[k] == Dash ==> RangeFrom(rd, tokens, k, goal.value.0, addr, goal.value.1) && last == Some((goal.value.0, goal.value.1.to)))
        && (tokens[k] != Slash && tokens[k] != Dash ==> k == goal.value.0 && goal.value.1 == Single(addr))
        && (tokens[k] != Slash ==> prefix.None?) && (tokens[k] != Dash ==> last.None?)
    {
      hide IsEnd, IsPart;
      first, last, prefix := None, None, None;
      if goal.Some? {
        var k, addr := PartBegins(rd, tokens, at, goal.value.0, goal.value.1);
        first := Some((k, addr));
        if tokens[k] == Dash {
          last := Some((goal.value.0, goal.value.1.to));
        } else if tokens[k] == Slash {
          prefix := goal;
        }
      } else if k: nat, addr: Addr, n: nat :| LongPrefix(rd, tokens, at, k, addr, n) {
        EndNotEmpty(rd, tokens[at..k], addr);
        first := Some((k, addr));
      }
    }

    /** The rule at the current token up to its closing bracket; `Some(None)` if no rule starts here. */
    method ParseRule(ghost goal: Option<(nat, Rule)>) returns (r: Option<Option<Rule>>)
      requires Valid()
      requires goal.Some? ==> RuleHere(rd, names, tokens, at, goal.value.0, goal.value.1)
      modifies this
      ensures Valid() && at >= old(at)
      ensures r == Some(None) ==> at == old(at)
      ensures r.Some? ==> ended == old(ended)
      ensures old(Current()).RightBrace? ==> r == Some(None)
      ensures r.Some? && r.value.Some? ==> old(at) < at < |tokens| && IsRule(rd, names, tokens[old(at)..at + 1], r.value.value)
      ensures goal.Some? ==> r == Some(Some(goal.value.1)) && at == goal.value.0
      decreases |tokens| - at, 0
    {
      hide IsRule, IsTable, IsPart;
      ghost var named := Current().Str?;
      ghost var bar: nat := 0;
      if goal.Some? {
        ghost var b;
        b, bar := RuleBegins(rd, names, tokens, at, goal.value.0, goal.value.1);
      }
      var ifName := "";
      if !(Current().Str? || Current().LeftBracket?) {
        return Some(None);
      }
      if Current().Str? {
        ifName := Current().text;
        GetNextToken();
      }
      if !Current().LeftBracket? {
        return None;
      }
      GetNextToken();
      if Current().TableWord? {
        var t := ParseTable(true, if goal.Some? then Some((goal.value.0, goal.value.1.table)) else None);
        if t.None? {
          return None;
        }
        TableRuleHere(rd, names, tokens, old(at), named, at, t.value);
        return Some(Some(TableRule(t.value)));
      }
      var group := ParseRulePart(if goal.Some? then Some((bar, goal.value.1.group)) else None);
      if group.None? || !Current().Pipe? {
        return None;
      }
      ghost var k := at;
      GetNextToken();
      var source := ParseRulePart(if goal.Some? then Some((goal.value.0, goal.value.1.source)) else None);
      if source.None? || !Current().RightBracket? {
        return None;
      }
      var rule := AddrRule(ifName, group.value, source.value);
      AddrRuleHere(rd, names, tokens, old(at), named, k, at, rule);
      return Some(Some(rule));
    }

    /** The next rule; with a goal, the next one of the rules `left`. */
    method NextRule(ghost goal: Option<(nat, seq<Rule>)>, ghost list: seq<Rule>, ghost left: seq<Rule>) returns (rule: Option<Option<Rule>>)
      requires Valid()
      requires goal.Some? ==> goal.value.1 == list + left && RulesHere(rd, names, tokens, at, goal.value.0, left)
      modifies this
      ensures Valid() && at >= old(at) && (rule == Some(None) ==> at == old(at)) && (rule.Some? ==> ended == old(ended))
      ensures rule.Some? && rule.value.Some? ==> old(at) < at < |tokens| && RuleHere(rd, names, tokens, old(at), at, rule.value.value)
      ensures goal.Some? ==> OnTrack(rd, names, tokens, goal.value, list, left, old(at), at, rule)
      decreases |tokens| - at, 1
    {
      hide IsRule, IsRules, RulesHere, OnTrack;
      ghost var next := NextGoal(goal, left);
      rule := ParseRule(next);
      if goal.Some? {
        TrackNow(rd, names, tokens, goal.value, list, left, old(at), at, rule, next);
      }
    }

    /** The rules from the current token on. */
    method ParseRules(ghost goal: Option<(nat, seq<Rule>)>) returns (rules: Option<seq<Rule>>)
      requires Valid()
      requires goal.Some? ==> RulesHere(rd, names, tokens, at, goal.value.0, goal.value.1)
      modifies this
      ensures Valid() && at >= old(at)
      ensures rules.Some? ==> RulesFound(rd, names, tokens, old(at), at, rules.value) && ended == old(ended)
      ensures goal.Some? ==> rules == Some(goal.value.1) && at == goal.value.0
      decreases |tokens| - at, 2
    {
      hide RulesFound, RulesHere, RuleHere, OnTrack;
      var list := [];
      ghost var start := at;
      ghost var left := if goal.Some? then goal.value.1 else [];
      NoneFound(rd, names, tokens, at);
      var rule := NextRule(goal, list, left);
      while rule.Some? && rule.value.Some?
        invariant Valid() && old(at) <= start <= at && RulesFound(rd, names, tokens, old(at), start, list)
        invariant (rule == Some(None) ==> at == start) && (rule.Some? ==> ended == old(ended))
        invariant rule.Some? && rule.value.Some? ==> start < at < |tokens| && RuleHere(rd, names, tokens, start, at, rule.value.value)
        invariant goal.Some? ==> OnTrack(rd, names, tokens, goal.value, list, left, start, at, rule)
        decreases |tokens| - at, rule.Some?
      {
        RulesOneMore(rd, names, tokens, old(at), start, at, list, rule.value.value);
        if goal.Some? {
          left := TrackStep(rd, names, tokens, goal.value, list, left, start, at, rule.value.value);
        }
        list := list + [rule.value.value];
        GetNextToken();
        start := at;
        rule := NextRule(goal, list, left);
      }
      if goal.Some? {
        TrackEnd(rd, names, tokens, goal.value, list, left, start, at, rule);
      }
      return if rule.None? then None else Some(list);
    }

    /** The next rule to find. */
    ghost method NextGoal(goal: Option<(nat, seq<Rule>)>, left: seq<Rule>) returns (next: Option<(nat, Rule)>)
      requires Valid()
      requires goal.Some? ==> RulesHere(rd, names, tokens, at, goal.value.0, left)
      ensures goal.None? || left == [] ==> next.None?
      ensures goal.Some? && left == [] ==> at == goal.value.0 && Current().RightBrace?
      ensures goal.Some? && left != [] ==>
        && next.Some? && next.value.1 == left[0]
        && RuleHere(rd, names, tokens, at, next.value.0, left[0])
        && RulesHere(rd, names, tokens, next.value.0 + 1, goal.value.0, left[1..])
    {
      hide RulesHere, RuleHere;
      next := None;
      if goal.Some? {
        var k := RulesBegin(rd, names, tokens, at, goal.value.0, left);
        if left != [] {
          next := Some((k, left[0]));
        }
      }
    }

    /** A table from the word "table" on; inside of a rule it ends before the closing bracket, otherwise
        with the command. */
    method ParseTable(inside: bool, ghost goal: Option<(nat, Table)>) returns (t: Option<Table>)
      requires Valid()
      requires goal.Some? ==> TableHere(rd, names, tokens, at, goal.value.0, inside, goal.value.1)
      modifies this
      ensures Valid() && at >= old(at)
      ensures t.Some? ==> TableHere(rd, names, tokens, old(at), at, inside, t.value) && ended == old(ended)
      ensures goal.Some? ==> t == Some(goal.value.1) && at == goal.value.0
      decreases |tokens| - at, 3
    {
      hide IsRules, IsTable, TableHere, RulesHere;
      if goal.Some? {
        TableForm(rd, names, tokens, at, goal.value.0, inside, goal.value.1);
      }
      if !Current().TableWord? {
        return None;
      }
      GetNextToken();
      var endToken := if inside then RightBracket else Nil;
      if Peek() == endToken {
        if Current().Str? && Current().text in names {
          var name := Current().text;
          GetNextToken();
          ReferenceFound(rd, names, tokens, old(at), inside, name);
          return Some(Table("", [TableRef(name)]));
        }
        return None;
      }
      if !(Current().Str? || Current().LeftBrace?) {
        return None;
      }
      ghost var named := Current().Str?;
      var name := "";
      if Current().Str? {
        name := Current().text;
        GetNextToken();
        if !Current().LeftBrace? {
          return None;
        }
      }
      GetNextToken();
      var rules := ParseRules(if goal.Some? then Some((goal.value.0 - 1, goal.value.1.rules)) else None);
      if rules.None? || !Current().RightBrace? {
        return None;
      }
      ghost var brace := at;
      GetNextToken();
      if Current() == endToken {
        TableFound(rd, names, tokens, old(at), named, brace, inside, Table(name, rules.value));
        return Some(Table(name, rules.value));
      }
      return None;
    }
  }

  lemma SinglePart(rd: Reading, ts: seq<Token>, a: Addr)
    requires IsEnd(rd, ts, a)
    ensures IsPart(rd, ts, Single(a))
  {
  }

  // ---------------------------------------------------------------- definitions in order

  function RuleRefs(r: Rule): set<string> {
    match r
    case AddrRule(_, _, _) => {}
    case TableRule(t) => Refs(t)
    case TableRef(name) => {name}
  }

  lemma {:induction false} RefsOfAll(t: Table, n: nat, names: set<string>)
    requires n <= |t.rules| && forall i | 0 <= i < n :: RuleRefs(t.rules[i]) <= names
    ensures RefsIn(t, n) <= names
  {
    if n > 0 {
      RefsOfAll(t, n - 1, names);
      assert RuleRefs(t.rules[n - 1]) <= names;
    }
  }

  /** A table that follows the grammar refers only to known tables. */
  lemma {:induction false} TableRefs(rd: Reading, names: set<string>, ts: seq<Token>, t: Table)
    requires IsTable(rd, names, ts, t)
    ensures Refs(t) <= names
    decreases |ts|, 2
  {
    if |ts| == 2 {
      assert t.rules == [TableRef(ts[1].text)];
    } else {
      var n := if |ts| > 1 && ts[1].Str? then 2 else 1;
      RulesRefs(rd, names, ts[n + 1..|ts| - 1], t.rules);
    }
    RefsOfAll(t, |t.rules|, names);
  }

  lemma {:induction false} RulesRefs(rd: Reading, names: set<string>, ts: seq<Token>, rules: seq<Rule>)
    requires IsRules(rd, names, ts, rules)
    ensures forall i | 0 <= i < |rules| :: RuleRefs(rules[i]) <= names
    decreases |ts|, 1
  {
    if rules != [] {
      var k :| 0 < k <= |ts| && IsRule(rd, names, ts[..k], rules[0]) && IsRules(rd, names, ts[k..], rules[1..]);
      RuleRefsKnown(rd, names, ts[..k], rules[0]);
      RulesRefs(rd, names, ts[k..], rules[1..]);
      forall i | 0 <= i < |rules|
        ensures RuleRefs(rules[i]) <= names
      {
        assert i > 0 ==> rules[i] == rules[1..][i - 1];
      }
    }
  }

  lemma {:induction false} RuleRefsKnown(rd: Reading, names: set<string>, ts: seq<Token>, r: Rule)
    requires IsRule(rd, names, ts, r)
    ensures RuleRefs(r) <= names
    decreases |ts|, 0
  {
    if r.TableRule? {
      var n := if ts != [] && ts[0].Str? then 1 else 0;
      TableRefs(rd, names, ts[n + 1..|ts| - 1], r.table);
    }
  }

  function Names(defs: seq<Table>): (names: set<string>)
    ensures forall n :: n in names <==> Find(defs, n).Some?
  {
    set t | t in defs :: t.name
  }

  /** The tables `defs` are what the commands define, each by the tables before it. */
  ghost predicate Defines(rd: Reading, cmds: seq<seq<Token>>, defs: seq<Table>) {
    && |defs| == |cmds| && UniqueNames(defs)
    && forall i | 0 <= i < |cmds| :: IsTable(rd, Names(defs[..i]), cmds[i], defs[i])
  }

  lemma DefinesLess(rd: Reading, cmds: seq<seq<Token>>, defs: seq<Table>, n: nat)
    requires Defines(rd, cmds, defs) && n <= |cmds|
    ensures Defines(rd, cmds[..n], defs[..n])
  {
    forall i | 0 <= i < n
      ensures IsTable(rd, Names(defs[..n][..i]), cmds[..n][i], defs[..n][i])
    {
      assert defs[..n][..i] == defs[..i];
    }
  }

  lemma DefinesMore(rd: Reading, cmds: seq<seq<Token>>, defs: seq<Table>, t: Table)
    requires |defs| < |cmds| && Defines(rd, cmds[..|defs|], defs) && Find(defs, t.name).None?
    requires IsTable(rd, Names(defs), cmds[|defs|], t)
    ensures Defines(rd, cmds[..|defs| + 1], defs + [t])
  {
    hide IsTable;
    var n := |defs|;
    var all, ts := defs + [t], cmds[..n + 1];
    forall i | 0 <= i < n + 1
      ensures IsTable(rd, Names(all[..i]), ts[i], all[i])
    {
      assert all[..i] == defs[..i];
      if i < n {
        assert cmds[..n][i] == ts[i];
      } else {
        assert defs[..n] == defs;
      }
    }
  }

  /** Definitions made one after the other are well-founded: references are acyclic. */
  lemma {:induction false} DefinedIsWellFounded(rd: Reading, cmds: seq<seq<Token>>, defs: seq<Table>)
    requires Defines(rd, cmds, defs)
    ensures WellFounded(defs)
  {
    hide IsTable;
    if defs != [] {
      var n := |defs| - 1;
      DefinesLess(rd, cmds, defs, n);
      DefinedIsWellFounded(rd, cmds[..n], defs[..n]);
      TableRefs(rd, Names(defs[..n]), cmds[n], defs[n]);
      Extended(defs[..n], defs[n]);
      assert defs[..n] + [defs[n]] == defs;
    }
  }

  /** The table commands of a configuration, one after the other. A command that is no table or a name
      that is taken refuses the configuration, and nothing else does. */
  method RunTableCommands(rd: Reading, cmds: seq<seq<Token>>) returns (defs: Option<seq<Table>>, ended: bool)
    requires forall i | 0 <= i < |cmds| :: Nil !in cmds[i]
    ensures defs.Some? ==> Defines(rd, cmds, defs.value) && WellFounded(defs.value)
    ensures defs.Some? <==> exists d :: Defines(rd, cmds, d)
    ensures ended ==> defs.None?
  {
    hide IsTable, Defines;
    ghost var goal: Option<seq<Table>> := None;
    if d :| Defines(rd, cmds, d) {
      goal := Some(d);
    }
    var gts := new GlobalTableSet();
    NothingDefined(rd);
    for n := 0 to |cmds|
      invariant |gts.tables| == n && Defines(rd, cmds[..n], gts.tables)
      invariant goal.Some? ==> Defines(rd, cmds, goal.value) && n <= |goal.value| && gts.tables == goal.value[..n]
    {
      var p := new Parser(rd, Names(gts.tables), cmds[n]);
      if goal.Some? {
        GoalAt(rd, cmds, goal.value, n);
      }
      var t := p.ParseTable(false, if goal.Some? then Some((|cmds[n]|, goal.value[n])) else None);
      if t.None? {
        return None, p.ended;
      }
      assert cmds[n][0..p.at] == cmds[n];
      ghost var before := gts.tables;
      var inserted := gts.Insert(t.value);
      if !inserted {
        return None, false;
      }
      DefinesMore(rd, cmds, before, t.value);
    }
    assert cmds[..|cmds|] == cmds;
    DefinedIsWellFounded(rd, cmds, gts.tables);
    return Some(gts.tables), false;
  }

  lemma NothingDefined(rd: Reading)
    ensures Defines(rd, [], [])
  {
  }

  lemma GoalAt(rd: Reading, cmds: seq<seq<Token>>, defs: seq<Table>, n: nat)
    requires Defines(rd, cmds, defs) && n < |cmds|
    ensures n < |defs| && TableHere(rd, Names(defs[..n]), cmds[n], 0, |cmds[n]|, false, defs[n])
    ensures Find(defs[..n], defs[n].name).None? && defs[..n] + [defs[n]] == defs[..n + 1]
  {
    hide IsTable;
    assert IsTable(rd, Names(defs[..n]), cmds[n], defs[n]);
    assert cmds[n][0..|cmds[n]|] == cmds[n];
    TableBegins(rd, Names(defs[..n]), cmds[n], defs[n]);
  }

  // ---------------------------------------------------------------- a name that has no effect

  /** table t {eth0(table {(* | *)})} */
  const NAMED_INNER: seq<Token> :=
    [TableWord, Str("t"), LeftBrace, Str("eth0"), LeftBracket, TableWord, LeftBrace, LeftBracket, Star, Pipe, Star,
     RightBracket, RightBrace, RightBracket, RightBrace]

  const ANY_RULE := AddrRule("", Single(ANY), Single(ANY))

  lemma AnyRuleIs(rd: Reading, names: set<string>)
    ensures IsRule(rd, names, [LeftBracket, Star, Pipe, Star, RightBracket], ANY_RULE)
  {
    var ts := [LeftBracket, Star, Pipe, Star, RightBracket];
    var body := ts[1..4];
    assert body == [Star, Pipe, Star];
    assert body[..1] == [Star] && body[2..] == [Star] && body[1] == Pipe;
    assert IsEnd(rd, [Star], ANY);
    assert IsPart(rd, body[..1], Single(ANY)) && IsPart(rd, body[1 + 1..], Single(ANY));
    assert IsAddrRule(rd, body, "", ANY_RULE);
  }

  lemma OneRule(rd: Reading, names: set<string>, ts: seq<Token>, r: Rule)
    requires IsRule(rd, names, ts, r)
    ensures IsRules(rd, names, ts, [r])
  {
    hide IsRule;
    RuleIsLong(rd, names, ts, r);
    NoRules(rd, names);
    RulesAppended(rd, names, [], ts, [], r);
    assert [] + ts == ts && [] + [r] == [r];
  }

  lemma NamedInnerIs(rd: Reading, names: set<string>)
    ensures IsTable(rd, names, NAMED_INNER, Table("t", [TableRule(Table("", [ANY_RULE]))]))
  {
    hide IsRules, IsRule;
    var inner := Table("", [ANY_RULE]);
    var ts := NAMED_INNER;
    AnyRuleIs(rd, names);
    OneRule(rd, names, ts[7..12], ANY_RULE) by {
      assert ts[7..12] == [LeftBracket, Star, Pipe, Star, RightBracket];
    }
    var ins := ts[5..13];
    assert ins[2..7] == ts[7..12];
    assert IsTable(rd, names, ins, inner);
    NamedTableRule(rd, names, ts[3..14], ins, inner);
    OneRule(rd, names, ts[3..14], TableRule(inner));
  }

  lemma NamedTableRule(rd: Reading, names: set<string>, ts: seq<Token>, ins: seq<Token>, t: Table)
    requires |ts| == |ins| + 3 && ts[0].Str? && ts[1] == LeftBracket && ts[|ts| - 1] == RightBracket && ts[2..|ts| - 1] == ins
    requires IsTable(rd, names, ins, t)
    ensures IsRule(rd, names, ts, TableRule(t))
  {
    hide IsTable;
  }

  /** The table written for interface eth0 is parsed, and it matches a packet of any other interface. */
  method NameHasNoEffect(rd: Reading, p: Packet) returns (t: Option<Table>)
    requires p.ifName != "eth0"
    ensures t.Some? && t.value.rules != [] && WellFounded([]) && Refs(t.value) == {}
    ensures Match([], 0, t.value, |t.value.rules|, p)
  {
    var parser := new Parser(rd, {}, NAMED_INNER);
    ghost var goal := Table("t", [TableRule(Table("", [ANY_RULE]))]);
    NamedInnerIs(rd, {});
    assert NAMED_INNER[0..|NAMED_INNER|] == NAMED_INNER;
    t := parser.ParseTable(false, Some((|NAMED_INNER|, goal)));
    assert LeafMatches(ANY_RULE, p);
    InnerMatches(p);
  }

  lemma InnerMatches(p: Packet)
    ensures
      var t := Table("t", [TableRule(Table("", [ANY_RULE]))]);
      WellFounded([]) && Refs(t) == {} && Match([], 0, t, 1, p)
  {
    var inner := Table("", [ANY_RULE]);
    var t := Table("t", [TableRule(inner)]);
    assert RefsIn(inner, 0) == {} && Refs(inner) == {};
    assert RefsIn(t, 0) == {} && t.rules[0] == TableRule(inner);
    assert RefsIn(t, 1) == {};
    assert Match([], 0, inner, 1, p);
  }
}
