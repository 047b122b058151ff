/** Membership aggregation: which memberships of the downstream interfaces are reported on which
    upstream interface. */
module Aggregation {
  import opened Defs

  datatype IfType = Upstream | Downstream
  datatype Direction = In | Out
  datatype RuleMatching = MatchAll | MatchFirst | MatchMutex

  /** The interfaces of a proxy instance in the order they are walked through, the matching rules and
      the filters. `accepts(type, direction, interface, input, group, source)` is the verdict of the
      filter of an interface on traffic that comes in on `input`. */
  datatype ProxyConfig = ProxyConfig(
    ups: seq<IfIndex>,
    downs: seq<IfIndex>,
    inRule: RuleMatching,
    outRule: RuleMatching,
    accepts: (IfType, Direction, IfIndex, IfIndex, Addr, Addr) -> bool)
  {
    predicate IsUpstream(i: IfIndex) {
      i in ups
    }

    predicate IsDownstream(i: IfIndex) {
      i in downs
    }

    /** The output filter of downstream `d` lets upstream `u` report source `a`. */
    predicate DownOut(d: IfIndex, u: IfIndex, g: Addr, a: Addr) {
      accepts(Downstream, Out, d, u, g, a)
    }

    /** The input filter of upstream `u` accepts source `a`. */
    predicate UpIn(u: IfIndex, g: Addr, a: Addr) {
      accepts(Upstream, In, u, u, g, a)
    }
  }

  // ---------------------------------------------------------------- merging

  /** Adds what `from` admits to what `to` admits. */
  function Merge(to: View, from: View): View {
    match (to.mode, from.mode)
    case (Include, Include) => View(Include, to.sources + from.sources)
    case (Include, Exclude) => View(Exclude, from.sources - to.sources)
    case (Exclude, Include) => View(Exclude, to.sources - from.sources)
    case (Exclude, Exclude) => View(Exclude, to.sources * from.sources)
  }

  function MergeAll(views: seq<View>): View {
    if views == [] then NOTHING else Merge(MergeAll(views[..|views| - 1]), views[|views| - 1])
  }

  /** The merged view admits exactly the sources that some view admits, so the order does not matter. */
  lemma {:induction false} MergeAllAdmits(views: seq<View>, a: Addr)
    ensures MergeAll(views).Admits(a) <==> exists i :: 0 <= i < |views| && views[i].Admits(a)
  {
    if views != [] {
      var front, last := views[..|views| - 1], views[|views| - 1];
      MergeAllAdmits(front, a);
      if i :| 0 <= i < |views| && views[i].Admits(a) {
        assert i < |front| ==> front[i].Admits(a);
      }
      if i :| 0 <= i < |front| && front[i].Admits(a) {
        assert views[i].Admits(a);
      }
      assert views[|front|] == last;
    }
  }

  lemma {:induction false} MergeAllMode(views: seq<View>)
    ensures MergeAll(views).mode.Exclude? <==> exists i :: 0 <= i < |views| && views[i].mode.Exclude?
  {
    if views != [] {
      var front, last := views[..|views| - 1], views[|views| - 1];
      MergeAllMode(front);
      if i :| 0 <= i < |front| && front[i].mode.Exclude? {
        assert views[i].mode.Exclude?;
      }
      if i :| 0 <= i < |views| && views[i].mode.Exclude? {
        assert i < |front| ==> front[i].mode.Exclude?;
      }
      assert views[|front|] == last;
    }
  }

  /** Any two sequences of the same views, in whatever order, merge to the same view. */
  lemma MergeOrderIrrelevant(v: seq<View>, w: seq<View>)
    requires forall x :: x in v <==> x in w
    ensures MergeAll(v) == MergeAll(w)
  {
    MergeAllMode(v);
    MergeAllMode(w);
    forall a
      ensures MergeAll(v).Admits(a) <==> MergeAll(w).Admits(a)
    {
      MergeAllAdmits(v, a);
      MergeAllAdmits(w, a);
      assert forall i | 0 <= i < |v| :: v[i] in w;
      assert forall i | 0 <= i < |w| :: w[i] in v;
    }
    assert (exists i :: 0 <= i < |v| && v[i].mode.Exclude?) <==> (exists x :: x in v && x.mode.Exclude?);
    assert (exists i :: 0 <= i < |w| && w[i].mode.Exclude?) <==> (exists x :: x in w && x.mode.Exclude?);
    assert MergeAll(v).mode == MergeAll(w).mode;
    SameView(MergeAll(v), MergeAll(w));
  }

  lemma SameView(v: View, w: View)
    requires v.mode == w.mode && forall a :: v.Admits(a) <==> w.Admits(a)
    ensures v == w
  {
    assert forall a :: a in v.sources <==> v.Admits(a) == v.mode.Include?;
    assert forall a :: a in w.sources <==> w.Admits(a) == w.mode.Include?;
  }

  // ---------------------------------------------------------------- the rule "first"

  /** A membership of a downstream interface. */
  type State = (View, IfIndex)

  /** The listed sources of `st` that the filters let through to upstream `u`. */
  function KeptAt(cfg: ProxyConfig, g: Addr, u: IfIndex, st: State): set<Addr> {
    set a | a in st.0.sources && cfg.DownOut(st.1, u, g, a) && cfg.UpIn(u, g, a)
  }

  /** The listed sources that are left to the next upstream. */
  function PassedOn(cfg: ProxyConfig, g: Addr, u: IfIndex, st: State): set<Addr> {
    set a | a in st.0.sources && cfg.DownOut(st.1, u, g, a) && !cfg.UpIn(u, g, a)
  }

  function KeptStates(cfg: ProxyConfig, g: Addr, u: IfIndex, sts: seq<State>): (r: seq<State>)
    ensures |r| == |sts|
    ensures forall i | 0 <= i < |sts| :: r[i] == (View(sts[i].0.mode, KeptAt(cfg, g, u, sts[i])), sts[i].1)
  {
    if sts == [] then []
    else
      var last := sts[|sts| - 1];
      KeptStates(cfg, g, u, sts[..|sts| - 1]) + [(View(last.0.mode, KeptAt(cfg, g, u, last)), last.1)]
  }

  function PassedStates(cfg: ProxyConfig, g: Addr, u: IfIndex, sts: seq<State>): seq<State> {
    if sts == [] then []
    else
      var last := sts[|sts| - 1];
      var rest := PassedOn(cfg, g, u, last);
      PassedStates(cfg, g, u, sts[..|sts| - 1]) + if rest == {} then [] else [(View(last.0.mode, rest), last.1)]
  }

  /** For every upstream, the memberships reported there. */
  function FirstMatch(cfg: ProxyConfig, g: Addr, ups: seq<IfIndex>, sts: seq<State>): (r: seq<seq<State>>)
    ensures |r| == |ups|
  {
    if ups == [] then []
    else [KeptStates(cfg, g, ups[0], sts)] + FirstMatch(cfg, g, ups[1..], PassedStates(cfg, g, ups[0], sts))
  }

  /** Source `a` is listed for downstream `d`. */
  ghost predicate ListedFor(sts: seq<State>, d: IfIndex, a: Addr) {
    exists i :: 0 <= i < |sts| && sts[i].1 == d && a in sts[i].0.sources
  }

  lemma KeptListed(cfg: ProxyConfig, g: Addr, u: IfIndex, sts: seq<State>, d: IfIndex, a: Addr)
    ensures ListedFor(KeptStates(cfg, g, u, sts), d, a) <==> ListedFor(sts, d, a) && cfg.DownOut(d, u, g, a) && cfg.UpIn(u, g, a)
  {
    var r := KeptStates(cfg, g, u, sts);
    if i :| 0 <= i < |sts| && sts[i].1 == d && a in sts[i].0.sources {
      assert a in r[i].0.sources <==> cfg.DownOut(d, u, g, a) && cfg.UpIn(u, g, a);
    }
  }

  lemma {:induction false} PassedListed(cfg: ProxyConfig, g: Addr, u: IfIndex, sts: seq<State>, d: IfIndex, a: Addr)
    ensures ListedFor(PassedStates(cfg, g, u, sts), d, a) <==> ListedFor(sts, d, a) && cfg.DownOut(d, u, g, a) && !cfg.UpIn(u, g, a)
  {
    if sts != [] {
      var front, last := sts[..|sts| - 1], sts[|sts| - 1];
      PassedListed(cfg, g, u, front, d, a);
      var rest := PassedOn(cfg, g, u, last);
      var tail := if rest == {} then [] else [(View(last.0.mode, rest), last.1)];
      ListedSplit(front, [last], d, a);
      assert front + [last] == sts;
      ListedSplit(PassedStates(cfg, g, u, front), tail, d, a);
      assert ListedFor([last], d, a) <==> last.1 == d && a in last.0.sources by {
        assert [last][0] == last;
      }
      assert ListedFor(tail, d, a) <==> last.1 == d && a in rest by {
        if rest != {} {
          assert tail[0] == (View(last.0.mode, rest), last.1);
        }
      }
    }
  }

  lemma ListedSplit(s: seq<State>, t: seq<State>, d: IfIndex, a: Addr)
    ensures ListedFor(s + t, d, a) <==> ListedFor(s, d, a) || ListedFor(t, d, a)
  {
    if i :| 0 <= i < |s| && s[i].1 == d && a in s[i].0.sources {
      assert (s + t)[i] == s[i];
    }
    if i :| 0 <= i < |t| && t[i].1 == d && a in t[i].0.sources {
      assert (s + t)[|s| + i] == t[i];
    }
    if i :| 0 <= i < |s + t| && (s + t)[i].1 == d && a in (s + t)[i].0.sources {
      if i < |s| {
        assert s[i] == (s + t)[i];
      } else {
        assert t[i - |s|] == (s + t)[i];
      }
    }
  }

  /** Source `a` of downstream `d` gets past the upstreams `ups` one after the other. */
  predicate GetsPast(cfg: ProxyConfig, g: Addr, ups: seq<IfIndex>, d: IfIndex, a: Addr) {
    forall k | 0 <= k < |ups| :: cfg.DownOut(d, ups[k], g, a) && !cfg.UpIn(ups[k], g, a)
  }

  lemma GetsPastOneMore(cfg: ProxyConfig, g: Addr, ups: seq<IfIndex>, k: nat, d: IfIndex, a: Addr)
    requires 0 < k <= |ups|
    ensures GetsPast(cfg, g, ups[..k], d, a) <==>
      cfg.DownOut(d, ups[0], g, a) && !cfg.UpIn(ups[0], g, a) && GetsPast(cfg, g, ups[1..][..k - 1], d, a)
  {
    var all, rest := ups[..k], ups[1..][..k - 1];
    assert all == [ups[0]] + rest;
    forall i | 0 <= i < k - 1
      ensures rest[i] == all[i + 1]
    {
    }
    assert all[0] == ups[0];
    if GetsPast(cfg, g, all, d, a) {
      forall i | 0 <= i < |rest|
        ensures cfg.DownOut(d, rest[i], g, a) && !cfg.UpIn(rest[i], g, a)
      {
        assert rest[i] == all[i + 1];
      }
    }
  }

  /** Upstream `k` is the first one that takes source `a` of downstream `d`. */
  predicate TakenAt(cfg: ProxyConfig, g: Addr, ups: seq<IfIndex>, k: nat, d: IfIndex, a: Addr)
    requires k < |ups|
  {
    GetsPast(cfg, g, ups[..k], d, a) && cfg.DownOut(d, ups[k], g, a) && cfg.UpIn(ups[k], g, a)
  }

  /** First match: a listed source of `d` is reported on upstream `k` exactly if it gets past all
      upstreams before and both filters accept it there. */
  lemma {:induction false} FirstMatchListed(cfg: ProxyConfig, g: Addr, ups: seq<IfIndex>, sts: seq<State>, k: nat, d: IfIndex, a: Addr)
    requires k < |ups|
    ensures ListedFor(FirstMatch(cfg, g, ups, sts)[k], d, a) <==> ListedFor(sts, d, a) && TakenAt(cfg, g, ups, k, d, a)
  {
    hide ListedFor;
    KeptListed(cfg, g, ups[0], sts, d, a);
    if k > 0 {
      PassedListed(cfg, g, ups[0], sts, d, a);
      FirstMatchListed(cfg, g, ups[1..], PassedStates(cfg, g, ups[0], sts), k - 1, d, a);
      GetsPastOneMore(cfg, g, ups, k, d, a);
    }
  }

  /** Partition: every listed source is reported on exactly one upstream, or dropped by an output
      filter on the way, or left over at the end. */
  lemma FirstMatchPartition(cfg: ProxyConfig, g: Addr, ups: seq<IfIndex>, sts: seq<State>, d: IfIndex, a: Addr) returns (n: nat)
    requires ListedFor(sts, d, a)
    ensures n <= |ups| && GetsPast(cfg, g, ups[..n], d, a)
    ensures forall k | 0 <= k < |ups| ::
      ListedFor(FirstMatch(cfg, g, ups, sts)[k], d, a) <==> k == n && cfg.DownOut(d, ups[k], g, a)
  {
    n := Past(cfg, g, ups, d, a);
    forall k | 0 <= k < |ups|
      ensures ListedFor(FirstMatch(cfg, g, ups, sts)[k], d, a) <==> k == n && cfg.DownOut(d, ups[k], g, a)
    {
      FirstMatchListed(cfg, g, ups, sts, k, d, a);
      if k < n {
        assert ups[..n][k] == ups[k];
      } else if n < k {
        assert ups[..k][n] == ups[n];
      }
    }
  }

  /** The number of upstreams a source gets past. */
  lemma {:induction false} Past(cfg: ProxyConfig, g: Addr, ups: seq<IfIndex>, d: IfIndex, a: Addr) returns (n: nat)
    ensures n <= |ups| && GetsPast(cfg, g, ups[..n], d, a)
    ensures n < |ups| ==> !cfg.DownOut(d, ups[n], g, a) || cfg.UpIn(ups[n], g, a)
  {
    n := 0;
    while n < |ups| && cfg.DownOut(d, ups[n], g, a) && !cfg.UpIn(ups[n], g, a)
      invariant n <= |ups| && GetsPast(cfg, g, ups[..n], d, a)
    {
      n := n + 1;
    }
  }

  function Views(sts: seq<State>): (r: seq<View>)
    ensures |r| == |sts| && forall i | 0 <= i < |sts| :: r[i] == sts[i].0
  {
    seq(|sts|, i requires 0 <= i < |sts| => sts[i].0)
  }

  /** The filters of the upstreams `ups` let everything through. */
  ghost predicate TakesAll(cfg: ProxyConfig, g: Addr, ups: seq<IfIndex>) {
    && (forall d, u, a | u in ups :: cfg.DownOut(d, u, g, a))
    && (forall u, a | u in ups :: cfg.UpIn(u, g, a))
  }

  /** With filters that accept everything the first upstream gets the union of all memberships, as in
      section 4.1 of RFC 4605, and the others get nothing. */
  lemma FirstMatchExact(cfg: ProxyConfig, g: Addr, ups: seq<IfIndex>, sts: seq<State>)
    requires ups != [] && TakesAll(cfg, g, [ups[0]])
    ensures
      var r := FirstMatch(cfg, g, ups, sts);
      && MergeAll(Views(r[0])) == MergeAll(Views(sts))
      && (forall a :: MergeAll(Views(r[0])).Admits(a) <==> exists i :: 0 <= i < |sts| && sts[i].0.Admits(a))
      && (forall k | 1 <= k < |ups| :: MergeAll(Views(r[k])) == NOTHING)
  {
    var r := FirstMatch(cfg, g, ups, sts);
    forall i | 0 <= i < |sts|
      ensures r[0][i] == sts[i]
    {
      assert KeptAt(cfg, g, ups[0], sts[i]) == sts[i].0.sources;
    }
    assert r[0] == sts;
    forall a
      ensures MergeAll(Views(r[0])).Admits(a) <==> exists i :: 0 <= i < |sts| && sts[i].0.Admits(a)
    {
      MergeAllAdmits(Views(sts), a);
      assert forall i | 0 <= i < |sts| :: Views(sts)[i].Admits(a) == sts[i].0.Admits(a);
    }
    NothingPassed(cfg, g, ups[0], sts);
    forall k | 1 <= k < |ups|
      ensures MergeAll(Views(r[k])) == NOTHING
    {
      NothingLeft(cfg, g, ups[1..], k - 1);
      assert Views(r[k]) == [];
    }
  }

  lemma {:induction false} NothingPassed(cfg: ProxyConfig, g: Addr, u: IfIndex, sts: seq<State>)
    requires TakesAll(cfg, g, [u])
    ensures PassedStates(cfg, g, u, sts) == []
  {
    if sts != [] {
      NothingPassed(cfg, g, u, sts[..|sts| - 1]);
      assert PassedOn(cfg, g, u, sts[|sts| - 1]) == {};
    }
  }

  lemma {:induction false} NothingLeft(cfg: ProxyConfig, g: Addr, ups: seq<IfIndex>, k: nat)
    requires k < |ups|
    ensures FirstMatch(cfg, g, ups, [])[k] == []
  {
    if k > 0 {
      NothingLeft(cfg, g, ups[1..], k - 1);
    }
  }

  // ---------------------------------------------------------------- states without listed sources

  /** What is left to the next upstream does not depend on a state without listed sources. */
  lemma {:induction false} PassedIgnoresEmpty(cfg: ProxyConfig, g: Addr, u: IfIndex, sts: seq<State>, k: nat, v: View)
    requires k < |sts| && sts[k].0.sources == {} && v.sources == {}
    ensures PassedStates(cfg, g, u, sts[k := (v, sts[k].1)]) == PassedStates(cfg, g, u, sts)
  {
    var n := |sts| - 1;
    var sts' := sts[k := (v, sts[k].1)];
    assert PassedOn(cfg, g, u, sts[k]) == {} && PassedOn(cfg, g, u, sts'[k]) == {};
    if k < n {
      assert sts'[..n] == sts[..n][k := (v, sts[k].1)];
      PassedIgnoresEmpty(cfg, g, u, sts[..n], k, v);
    } else {
      assert sts'[..n] == sts[..n];
    }
  }

  /** If a state without listed sources is taken for a join of every source, the first upstream is asked for
      everything and the others are asked for what they were. */
  lemma JoinedFirst(cfg: ProxyConfig, g: Addr, ups: seq<IfIndex>, sts: seq<State>, k: nat, j: nat)
    requires k < |sts| && sts[k].0.sources == {} && j < |ups|
    ensures
      var sts' := sts[k := (EVERYTHING, sts[k].1)];
      && (j == 0 ==> MergeAll(Views(FirstMatch(cfg, g, ups, sts')[j])) == EVERYTHING)
      && (j > 0 ==> FirstMatch(cfg, g, ups, sts')[j] == FirstMatch(cfg, g, ups, sts)[j])
  {
    hide MergeAll, KeptStates, PassedStates;
    var sts' := sts[k := (EVERYTHING, sts[k].1)];
    PassedIgnoresEmpty(cfg, g, ups[0], sts, k, EVERYTHING);
    assert KeptAt(cfg, g, ups[0], sts'[k]) == {};
    EverythingMerged(Views(KeptStates(cfg, g, ups[0], sts')), k);
  }

  /** A merge with a view that admits everything admits everything. */
  lemma EverythingMerged(views: seq<View>, k: nat)
    requires k < |views| && views[k] == EVERYTHING
    ensures MergeAll(views) == EVERYTHING
  {
    hide MergeAll;
    MergeAllMode(views);
    forall a
      ensures MergeAll(views).Admits(a)
    {
      MergeAllAdmits(views, a);
      assert views[k].Admits(a);
    }
    SameView(MergeAll(views), EVERYTHING);
  }

  // ---------------------------------------------------------------- asking only for what is wanted

  /** The listed sources of a downstream state that are reported on upstream `k`. */
  function TakenSet(cfg: ProxyConfig, g: Addr, ups: seq<IfIndex>, k: nat, st: State): set<Addr>
    requires k < |ups|
  {
    set a | a in st.0.sources && TakenAt(cfg, g, ups, k, st.1, a)
  }

  /** A downstream state is considered on the first upstream, and on a later one if some listed source gets there. */
  ghost predicate Reaches(cfg: ProxyConfig, g: Addr, ups: seq<IfIndex>, k: nat, st: State)
    requires k <= |ups|
  {
    k == 0 || exists b :: b in st.0.sources && GetsPast(cfg, g, ups[..k], st.1, b)
  }

  /** What is reported on upstream `k` for a downstream state that gets there. */
  function ReportOf(cfg: ProxyConfig, g: Addr, ups: seq<IfIndex>, k: nat, st: State): State
    requires k < |ups|
  {
    (View(st.0.mode, TakenSet(cfg, g, ups, k, st)), st.1)
  }

  lemma {:induction false} PassedIs(cfg: ProxyConfig, g: Addr, u: IfIndex, sts: seq<State>, st: State)
    ensures st in PassedStates(cfg, g, u, sts) <==>
      exists i :: 0 <= i < |sts| && PassedOn(cfg, g, u, sts[i]) != {} && st == (View(sts[i].0.mode, PassedOn(cfg, g, u, sts[i])), sts[i].1)
  {
    if sts != [] {
      var front, last := sts[..|sts| - 1], sts[|sts| - 1];
      PassedIs(cfg, g, u, front, st);
      assert forall i | 0 <= i < |front| :: front[i] == sts[i];
      assert sts[|front|] == last;
      if i :| 0 <= i < |sts| && PassedOn(cfg, g, u, sts[i]) != {} && st == (View(sts[i].0.mode, PassedOn(cfg, g, u, sts[i])), sts[i].1) {
        assert i < |front| ==> front[i] == sts[i];
      }
    }
  }

  /** Passing the first upstream leaves the same report to upstream `k`. */
  lemma ReportAfterPassing(cfg: ProxyConfig, g: Addr, ups: seq<IfIndex>, k: nat, st: State)
    requires 0 < k < |ups|
    ensures
      var rest := (View(st.0.mode, PassedOn(cfg, g, ups[0], st)), st.1);
      && ReportOf(cfg, g, ups[1..], k - 1, rest) == ReportOf(cfg, g, ups, k, st)
      && (PassedOn(cfg, g, ups[0], st) != {} && Reaches(cfg, g, ups[1..], k - 1, rest) <==> Reaches(cfg, g, ups, k, st))
  {
    var rest := (View(st.0.mode, PassedOn(cfg, g, ups[0], st)), st.1);
    hide GetsPast;
    forall a
      ensures a in PassedOn(cfg, g, ups[0], st) && GetsPast(cfg, g, ups[1..][..k - 1], st.1, a) <==>
        a in st.0.sources && GetsPast(cfg, g, ups[..k], st.1, a)
    {
      GetsPastOneMore(cfg, g, ups, k, st.1, a);
    }
    assert TakenSet(cfg, g, ups[1..], k - 1, rest) == TakenSet(cfg, g, ups, k, st);
    if k == 1 {
      NothingToPass(cfg, g, ups[1..], st.1);
    }
    if b :| b in st.0.sources && GetsPast(cfg, g, ups[..k], st.1, b) {
      assert b in rest.0.sources;
    }
  }

  lemma NothingToPass(cfg: ProxyConfig, g: Addr, ups: seq<IfIndex>, d: IfIndex)
    ensures forall a :: GetsPast(cfg, g, ups[..0], d, a)
  {
  }

  lemma FirstReportIs(cfg: ProxyConfig, g: Addr, ups: seq<IfIndex>, sts: seq<State>, st: State)
    requires ups != []
    ensures st in KeptStates(cfg, g, ups[0], sts) <==>
      exists i :: 0 <= i < |sts| && Reaches(cfg, g, ups, 0, sts[i]) && st == ReportOf(cfg, g, ups, 0, sts[i])
  {
    forall i | 0 <= i < |sts|
      ensures KeptStates(cfg, g, ups[0], sts)[i] == ReportOf(cfg, g, ups, 0, sts[i])
    {
      assert KeptAt(cfg, g, ups[0], sts[i]) == TakenSet(cfg, g, ups, 0, sts[i]);
    }
  }

  lemma ReportFromPassed(cfg: ProxyConfig, g: Addr, ups: seq<IfIndex>, sts: seq<State>, k: nat, rest: State) returns (i: nat)
    requires 0 < k < |ups| && rest in PassedStates(cfg, g, ups[0], sts) && Reaches(cfg, g, ups[1..], k - 1, rest)
    ensures i < |sts| && Reaches(cfg, g, ups, k, sts[i])
    ensures ReportOf(cfg, g, ups[1..], k - 1, rest) == ReportOf(cfg, g, ups, k, sts[i])
  {
    hide Reaches, ReportOf, PassedOn, PassedStates;
    PassedIs(cfg, g, ups[0], sts, rest);
    i :| 0 <= i < |sts| && PassedOn(cfg, g, ups[0], sts[i]) != {} && rest == (View(sts[i].0.mode, PassedOn(cfg, g, ups[0], sts[i])), sts[i].1);
    ReportAfterPassing(cfg, g, ups, k, sts[i]);
  }

  lemma ReportToPassed(cfg: ProxyConfig, g: Addr, ups: seq<IfIndex>, sts: seq<State>, k: nat, i: nat) returns (j: nat)
    requires 0 < k < |ups| && i < |sts| && Reaches(cfg, g, ups, k, sts[i])
    ensures
      var passed := PassedStates(cfg, g, ups[0], sts);
      && j < |passed| && Reaches(cfg, g, ups[1..], k - 1, passed[j])
      && ReportOf(cfg, g, ups[1..], k - 1, passed[j]) == ReportOf(cfg, g, ups, k, sts[i])
  {
    hide Reaches, ReportOf, PassedOn, PassedStates;
    ReportAfterPassing(cfg, g, ups, k, sts[i]);
    var rest := (View(sts[i].0.mode, PassedOn(cfg, g, ups[0], sts[i])), sts[i].1);
    PassedIs(cfg, g, ups[0], sts, rest);
    var passed := PassedStates(cfg, g, ups[0], sts);
    j :| 0 <= j < |passed| && passed[j] == rest;
  }

  /** The reports on upstream `k` are those of the downstream states that get there. */
  lemma {:induction false} FirstMatchIs(cfg: ProxyConfig, g: Addr, ups: seq<IfIndex>, sts: seq<State>, k: nat, st: State)
    requires k < |ups|
    ensures st in FirstMatch(cfg, g, ups, sts)[k] <==>
      exists i :: 0 <= i < |sts| && Reaches(cfg, g, ups, k, sts[i]) && st == ReportOf(cfg, g, ups, k, sts[i])
    decreases k
  {
    hide Reaches, ReportOf, PassedStates, KeptStates;
    if k == 0 {
      FirstReportIs(cfg, g, ups, sts, st);
    } else {
      var rest, passed := ups[1..], PassedStates(cfg, g, ups[0], sts);
      FirstMatchIs(cfg, g, rest, passed, k - 1, st);
      if j :| 0 <= j < |passed| && Reaches(cfg, g, rest, k - 1, passed[j]) && st == ReportOf(cfg, g, rest, k - 1, passed[j]) {
        var i := ReportFromPassed(cfg, g, ups, sts, k, passed[j]);
      }
      if i :| 0 <= i < |sts| && Reaches(cfg, g, ups, k, sts[i]) && st == ReportOf(cfg, g, ups, k, sts[i]) {
        var j := ReportToPassed(cfg, g, ups, sts, k, i);
      }
    }
  }

  ghost predicate SomeAdmits(sts: seq<State>, a: Addr) {
    exists i :: 0 <= i < |sts| && sts[i].0.Admits(a)
  }

  /** Every source that is struck from the list of an EXCLUDE state on its way to upstream `k` is admitted by some
      downstream. */
  ghost predicate StruckAreWanted(cfg: ProxyConfig, g: Addr, ups: seq<IfIndex>, sts: seq<State>, k: nat)
    requires k < |ups|
  {
    forall i, a | 0 <= i < |sts| && sts[i].0.mode.Exclude? && Reaches(cfg, g, ups, k, sts[i])
        && a in sts[i].0.sources && !TakenAt(cfg, g, ups, k, sts[i].1, a) :: SomeAdmits(sts, a)
  }

  /** Rule "first" with any filters: upstream `k` is asked only for what some downstream admits if and only if every
      source that the filters strike from an EXCLUDE list is admitted by some downstream. */
  lemma AsksOnlyForWanted(cfg: ProxyConfig, g: Addr, ups: seq<IfIndex>, sts: seq<State>, k: nat)
    requires k < |ups|
    ensures (forall a :: MergeAll(Views(FirstMatch(cfg, g, ups, sts)[k])).Admits(a) ==> SomeAdmits(sts, a))
      <==> StruckAreWanted(cfg, g, ups, sts, k)
  {
    hide MergeAll, FirstMatch, Reaches, TakenAt;
    var r := FirstMatch(cfg, g, ups, sts)[k];
    var sent := MergeAll(Views(r));
    if StruckAreWanted(cfg, g, ups, sts, k) {
      forall a | sent.Admits(a)
        ensures SomeAdmits(sts, a)
      {
        MergeAllAdmits(Views(r), a);
        var j :| 0 <= j < |r| && Views(r)[j].Admits(a);
        FirstMatchIs(cfg, g, ups, sts, k, r[j]);
        var i :| 0 <= i < |sts| && Reaches(cfg, g, ups, k, sts[i]) && r[j] == ReportOf(cfg, g, ups, k, sts[i]);
        if !sts[i].0.Admits(a) {
          assert sts[i].0.mode.Exclude? && a in sts[i].0.sources && !TakenAt(cfg, g, ups, k, sts[i].1, a);
        }
      }
    }
    if forall a :: sent.Admits(a) ==> SomeAdmits(sts, a) {
      forall i, a | 0 <= i < |sts| && sts[i].0.mode.Exclude? && Reaches(cfg, g, ups, k, sts[i])
          && a in sts[i].0.sources && !TakenAt(cfg, g, ups, k, sts[i].1, a)
        ensures SomeAdmits(sts, a)
      {
        var st := ReportOf(cfg, g, ups, k, sts[i]);
        FirstMatchIs(cfg, g, ups, sts, k, st);
        var j :| 0 <= j < |r| && r[j] == st;
        assert Views(r)[j].Admits(a);
        MergeAllAdmits(Views(r), a);
      }
    }
  }

  /** The filters can make an upstream ask for what nobody wants: EXCLUDE({a}) with `a` rejected by the upstream. */
  lemma RejectedSourceIsAskedFor(cfg: ProxyConfig, g: Addr, u: IfIndex, d: IfIndex, a: Addr)
    requires !cfg.UpIn(u, g, a)
    ensures
      var sts := [(View(Exclude, {a}), d)];
      !SomeAdmits(sts, a) && MergeAll(Views(FirstMatch(cfg, g, [u], sts)[0])).Admits(a)
  {
    var sts := [(View(Exclude, {a}), d)];
    assert FirstMatch(cfg, g, [u], sts)[0] == KeptStates(cfg, g, u, sts);
    var views := Views(KeptStates(cfg, g, u, sts));
    assert a !in KeptAt(cfg, g, u, sts[0]);
    assert views[0].Admits(a);
    MergeAllAdmits(views, a);
  }
}
