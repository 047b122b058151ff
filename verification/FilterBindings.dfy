/** The filters bound to the interfaces of a proxy and what they let in and out. */
module FilterBindings {
  import opened Defs
  import opened MembershipDb
  import opened Aggregation
  import opened RoutingSpec
  import opened ProxyRuns
  import opened FilteredProxy
  import opened RuleTables

  datatype FilterKind = Blacklist | Whitelist

  /** A rule binding of an interface: a filter, or a choice of the matching rule, which carries no table. */
  datatype Binding = Filter(kind: FilterKind, table: Table) | MatchingRule

  /** The definitions a table refers to exist. */
  ghost predicate Usable(defs: seq<Table>, b: Binding) {
    b.Filter? ==> Resolved(defs, Refs(b.table), |defs|)
  }

  /** A binding without a table matches nothing. */
  predicate BindingMatches(defs: seq<Table>, b: Binding, p: Packet)
    requires WellFounded(defs) && Usable(defs, b)
  {
    && b.Filter?
    && match b.kind
       case Blacklist => !Match(defs, |defs|, b.table, |b.table.rules|, p)
       case Whitelist => Match(defs, |defs|, b.table, |b.table.rules|, p)
  }

  /** An interface without a filter lets everything through. */
  predicate MatchFilter(defs: seq<Table>, b: Option<Binding>, p: Packet)
    requires WellFounded(defs) && (b.Some? ==> Usable(defs, b.value))
  {
    b.None? || BindingMatches(defs, b.value, p)
  }

  /** The bindings of all interfaces by type and direction, and the names of the interfaces. */
  datatype Bindings = Bindings(filters: (IfType, Direction, IfIndex) -> Option<Binding>, names: IfIndex -> string)

  /** The filters of a proxy are those of its bindings: a packet is looked up under the name of its input interface. */
  ghost predicate BoundBy(cfg: ProxyConfig, defs: seq<Table>, b: Bindings) {
    && WellFounded(defs)
    && (forall ty, dir, i :: b.filters(ty, dir, i).Some? ==> Usable(defs, b.filters(ty, dir, i).value))
    && (forall ty, dir, i, j, g, a ::
          cfg.accepts(ty, dir, i, j, g, a) == MatchFilter(defs, b.filters(ty, dir, i), Packet(b.names(j), g, a)))
  }

  /** Some address rule that the table of a filter leads to covers the packet. */
  ghost predicate Listed(defs: seq<Table>, b: Binding, p: Packet)
    requires WellFounded(defs) && Usable(defs, b) && b.Filter?
  {
    var leaves := Flattened(defs, |defs|, b.table, |b.table.rules|);
    exists i :: 0 <= i < |leaves| && RuleCovers(leaves[i], p)
  }

  /** What is let through: without a filter everything, by a whitelist what its rules cover, by a blacklist the rest. */
  ghost predicate LetThrough(defs: seq<Table>, b: Option<Binding>, p: Packet)
    requires WellFounded(defs) && (b.Some? ==> Usable(defs, b.value))
  {
    b.None? || (b.value.Filter? && (b.value.kind.Whitelist? <==> Listed(defs, b.value, p)))
  }

  lemma FilterMeans(defs: seq<Table>, b: Option<Binding>, p: Packet)
    requires WellFounded(defs) && (b.Some? ==> Usable(defs, b.value))
    ensures MatchFilter(defs, b, p) <==> LetThrough(defs, b, p)
  {
    hide WellFounded, Resolved, Match, RuleCovers;
    if b.Some? && b.value.Filter? {
      MatchMeans(defs, |defs|, b.value.table, p);
    }
  }

  /** From the configuration to the kernel: whenever the kernel agrees with the memberships, a source that has an entry
      is let in by the rules of its input interface, looked up under the name of that interface. */
  lemma EntriesAreLetIn(cfg: ProxyConfig, p: Proxy, defs: seq<Table>, b: Bindings, g: Addr, a: Addr)
    requires |p.queriers| == |cfg.downs| && KernelAgrees(cfg, p) && BoundBy(cfg, defs, b) && (g, a) in p.routing.kernel
    ensures
      var i := p.routing.kernel[(g, a)].input;
      || (i in cfg.ups && LetThrough(defs, b.filters(Upstream, In, i), Packet(b.names(i), g, a)))
      || (i in cfg.downs && LetThrough(defs, b.filters(Downstream, In, i), Packet(b.names(i), g, a)))
  {
    hide KernelAgrees, WellFounded, Usable, LetThrough, MatchFilter, GoesUp, GoesDown;
    ForwardsByFilters(cfg, p, g, a);
    var i := p.routing.kernel[(g, a)].input;
    var o :| o in p.routing.kernel[(g, a)].outputs;
    FilterMeans(defs, b.filters(Upstream, In, i), Packet(b.names(i), g, a));
    FilterMeans(defs, b.filters(Downstream, In, i), Packet(b.names(i), g, a));
  }
}
