/** How the routing layer finds out that a source has stopped sending: a check forgets a source exactly if no packet
    has passed since the check or the sighting before. */
module SourceLiveness {
  import opened Defs
  import opened Aggregation
  import opened MutexAggregation
  import opened Memberships
  import opened RoutingSpec

  /** Source `a` of group `g` is known to arrive on interface `i`. */
  predicate ArrivesOn(r: RState, g: Addr, a: Addr, i: IfIndex) {
    a in InterfaceMap(r.data, g) && InterfaceMap(r.data, g)[a] == i
  }

  /** Timers carry the source and interface they are for, and the timers to come are not in use yet. */
  ghost predicate SourcesTimed(r: RState) {
    DataOk(r.data) && forall g, a | a in Sources(r.data, g) :: Sources(r.data, g)[a].timer.id < r.nextId
  }

  /** The check of timer `t` finds source `a` of group `g` silent. */
  predicate FoundSilent(r: RState, t: SourceTimer, packets: nat, g: Addr, a: Addr) {
    a in Sources(r.data, g) && Sources(r.data, g)[a] == Known(t, packets)
  }

  lemma SetSourceKeeps(data: RoutingData, i: IfIndex, g: Addr, a: Addr, t: SourceTimer, packets: nat, h: Addr, b: Addr)
    ensures
      var known, known' := Sources(data, h), Sources(SetSource(data, i, g, a, t, packets), h);
      && (b in known' <==> b in known || (h, b) == (g, a))
      && (b in known' ==> known'[b] == if (h, b) != (g, a) then known[b] else Known(t, if b in known then packets else NEVER_COUNTED))
  {
  }

  lemma DelSourceKeeps(data: RoutingData, g: Addr, a: Addr, h: Addr, b: Addr)
    ensures
      var known, known' := Sources(data, h), Sources(DelSource(data, g, a), h);
      (b in known' <==> b in known && (h, b) != (g, a)) && (b in known' ==> known'[b] == known[b])
  {
    if g in data && b in data[g].sources && b != a {
      assert b in data[g].sources.Keys - {a};
    }
  }

  lemma RefreshedKeeps(data: RoutingData, g: Addr, a: Addr, k: Known, h: Addr, b: Addr)
    requires g in data && a in data[g].sources
    ensures
      var known, known' := Sources(data, h), Sources(Refreshed(data, g, a, k), h);
      (b in known' <==> b in known) && (b in known' ==> known'[b] == if (h, b) == (g, a) then k else known[b])
  {
  }

  lemma SeenTimed(cfg: ProxyConfig, r: RState, i: IfIndex, g: Addr, a: Addr, packets: nat, sts: seq<State>)
    requires SourcesTimed(r)
    ensures SourcesTimed(NewSource(cfg, r, i, g, a, packets, sts))
  {
    hide Rerouted, Reported, DataOk, SetSource;
    var t := SourceTimer(r.nextId, i, g, a);
    SetSourceFacts(r.data, i, g, a, t, packets);
    forall h, b
      ensures b in Sources(SetSource(r.data, i, g, a, t, packets), h) ==>
        Sources(SetSource(r.data, i, g, a, t, packets), h)[b].timer.id < r.nextId + 1
    {
      SetSourceKeeps(r.data, i, g, a, t, packets, h, b);
    }
  }

  /** In agreement with the data, a held timer names the interface of its source. */
  lemma HeldTimer(data: RoutingData, g: Addr, a: Addr)
    requires DataOk(data) && a in Sources(data, g)
    ensures g in data && a in data[g].sources && a in data[g].ifMap
    ensures data[g].sources[a].timer.gaddr == g && data[g].sources[a].timer.saddr == a && data[g].sources[a].timer.ifIndex == data[g].ifMap[a]
  {
  }

  lemma CheckTimed(cfg: ProxyConfig, r: RState, t: SourceTimer, packets: nat, sts: seq<State>)
    requires SourcesTimed(r)
    ensures SourcesTimed(MaintainRoutingTable(cfg, r, t, packets, sts))
  {
    hide Rerouted, Reported, DataOk, DelSource, Refreshed;
    var g, a := t.gaddr, t.saddr;
    if a in Sources(r.data, g) && Sources(r.data, g)[a].timer == t {
      HeldTimer(r.data, g, a);
      var k := Known(SourceTimer(r.nextId, t.ifIndex, g, a), packets);
      DelSourceFacts(r.data, g, a);
      RefreshedFacts(r.data, g, a, k.timer, packets);
      forall h, b
        ensures b in Sources(DelSource(r.data, g, a), h) ==> Sources(DelSource(r.data, g, a), h)[b].timer.id < r.nextId
        ensures b in Sources(Refreshed(r.data, g, a, k), h) ==> Sources(Refreshed(r.data, g, a, k), h)[b].timer.id < r.nextId + 1
      {
        DelSourceKeeps(r.data, g, a, h, b);
        RefreshedKeeps(r.data, g, a, k, h, b);
      }
    }
  }

  /** A sighting: the source arrives where it was seen last, with a timer of its own; no other source is touched. */
  lemma SeenIsKnown(cfg: ProxyConfig, r: RState, i: IfIndex, g: Addr, a: Addr, packets: nat, sts: seq<State>, h: Addr, b: Addr, j: IfIndex)
    requires SourcesTimed(r)
    ensures
      var r' := NewSource(cfg, r, i, g, a, packets, sts);
      && (ArrivesOn(r', h, b, j) <==> if (h, b) == (g, a) then j == i else ArrivesOn(r, h, b, j))
      && a in Sources(r'.data, g) && Sources(r'.data, g)[a].timer.id == r.nextId
      && (Sources(r'.data, g)[a].packets == if a in Sources(r.data, g) then packets else NEVER_COUNTED)
      && ((h, b) != (g, a) && b in Sources(r.data, h) ==> b in Sources(r'.data, h) && Sources(r'.data, h)[b] == Sources(r.data, h)[b])
  {
    hide Rerouted, Reported, SetSource, DataOk;
    var t := SourceTimer(r.nextId, i, g, a);
    SetSourceFacts(r.data, i, g, a, t, packets);
    SetSourceKeeps(r.data, i, g, a, t, packets, g, a);
    SetSourceKeeps(r.data, i, g, a, t, packets, h, b);
  }

  /** A check: exactly the source that is found silent is forgotten, with its forwarding entry; a source that has sent
      goes on under a new timer and with the new count, and no other source is touched. */
  lemma CheckForgets(cfg: ProxyConfig, r: RState, t: SourceTimer, packets: nat, sts: seq<State>, h: Addr, b: Addr, j: IfIndex)
    requires SourcesTimed(r)
    ensures
      var r' := MaintainRoutingTable(cfg, r, t, packets, sts);
      && (ArrivesOn(r', h, b, j) <==> ArrivesOn(r, h, b, j) && !FoundSilent(r, t, packets, h, b))
      && (FoundSilent(r, t, packets, h, b) ==> (h, b) !in r'.kernel)
      && (!FoundSilent(r, t, packets, h, b) ==> Lookup(r'.kernel, (h, b)) == Lookup(r.kernel, (h, b)))
      && (b in Sources(r.data, h) && !FoundSilent(r, t, packets, h, b) ==>
            && b in Sources(r'.data, h)
            && Sources(r'.data, h)[b] ==
               if Sources(r.data, h)[b].timer == t then Known(SourceTimer(r.nextId, t.ifIndex, h, b), packets)
               else Sources(r.data, h)[b])
  {
    hide Reported, DelSource, Refreshed, DataOk;
    var g, a := t.gaddr, t.saddr;
    if b in Sources(r.data, h) {
      HeldTimer(r.data, h, b);
    }
    if a in Sources(r.data, g) && Sources(r.data, g)[a].timer == t {
      HeldTimer(r.data, g, a);
      var k := Known(SourceTimer(r.nextId, t.ifIndex, g, a), packets);
      DelSourceFacts(r.data, g, a);
      DelSourceKeeps(r.data, g, a, h, b);
      RefreshedFacts(r.data, g, a, k.timer, packets);
      RefreshedKeeps(r.data, g, a, k, h, b);
    }
  }

  /** The life of a source that stops sending: the first check after it was first seen lets it live, whatever the count;
      the timer of that check is used up; the second check forgets it if and only if the count has not moved. */
  lemma SilentSourceIsForgotten(cfg: ProxyConfig, r: RState, i: IfIndex, g: Addr, a: Addr, seen: nat, first: nat, second: nat, sts: seq<State>)
    requires SourcesTimed(r) && a !in Sources(r.data, g) && first < NEVER_COUNTED
    ensures
      var r1 := NewSource(cfg, r, i, g, a, seen, sts);
      && a in Sources(r1.data, g)
      && var t1 := Sources(r1.data, g)[a].timer;
      var r2 := MaintainRoutingTable(cfg, r1, t1, first, sts);
      && ArrivesOn(r2, g, a, i) && a in Sources(r2.data, g)
      && var t2 := Sources(r2.data, g)[a].timer;
      && MaintainRoutingTable(cfg, r2, t1, second, sts) == r2
      && (ArrivesOn(MaintainRoutingTable(cfg, r2, t2, second, sts), g, a, i) <==> second != first)
  {
    hide NewSource, MaintainRoutingTable;
    var r1 := NewSource(cfg, r, i, g, a, seen, sts);
    SeenIsKnown(cfg, r, i, g, a, seen, sts, g, a, i);
    SeenTimed(cfg, r, i, g, a, seen, sts);
    var t1 := Sources(r1.data, g)[a].timer;
    var r2 := MaintainRoutingTable(cfg, r1, t1, first, sts);
    CheckForgets(cfg, r1, t1, first, sts, g, a, i);
    CheckTimed(cfg, r1, t1, first, sts);
    assert t1.id < r1.nextId;
    StaleCheck(cfg, r2, t1, second, sts);
    CheckForgets(cfg, r2, Sources(r2.data, g)[a].timer, second, sts, g, a, i);
  }

  /** A timer that was replaced does nothing. */
  lemma StaleCheck(cfg: ProxyConfig, r: RState, t: SourceTimer, packets: nat, sts: seq<State>)
    requires t.saddr !in Sources(r.data, t.gaddr) || Sources(r.data, t.gaddr)[t.saddr].timer != t
    ensures MaintainRoutingTable(cfg, r, t, packets, sts) == r
  {
  }
}
