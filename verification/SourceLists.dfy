/** Source lists: sets of sources ordered by address, each carrying a timer and a counter. The
    operators work on the sorted list in place; here they are tied to operations on maps. */
module SourceLists {
  import opened Defs

  /** A + B: the elements of the left list stay as they are. */
  function Plus<P>(l: map<Addr, P>, r: map<Addr, P>): map<Addr, P> {
    r + l
  }

  /** A * B: the elements of the left list stay as they are. */
  function Times<P>(l: map<Addr, P>, r: map<Addr, P>): map<Addr, P> {
    map a | a in l && a in r :: l[a]
  }

  /** A - B. */
  function Minus<P>(l: map<Addr, P>, r: map<Addr, P>): map<Addr, P> {
    l - r.Keys
  }

  datatype Entry<P> = Entry(saddr: Addr, payload: P)

  ghost predicate Sorted<P>(l: seq<Entry<P>>) {
    forall i, j | 0 <= i < j < |l| :: l[i].saddr < l[j].saddr
  }

  /** The map a sorted list stands for. */
  ghost function Contents<P>(l: seq<Entry<P>>): map<Addr, P> {
    if l == [] then map[] else Contents(l[..|l| - 1])[l[|l| - 1].saddr := l[|l| - 1].payload]
  }

  ghost function Addrs<P>(l: seq<Entry<P>>): set<Addr> {
    set i | 0 <= i < |l| :: l[i].saddr
  }

  lemma {:induction false} ContentsKeys<P>(l: seq<Entry<P>>)
    ensures Contents(l).Keys == Addrs(l)
  {
    if l != [] {
      ContentsKeys(l[..|l| - 1]);
      assert Addrs(l) == Addrs(l[..|l| - 1]) + {l[|l| - 1].saddr};
    }
  }

  /** The elements of `l` whose address is in `keys`, in their order. */
  ghost function Kept<P>(l: seq<Entry<P>>, keys: set<Addr>): seq<Entry<P>> {
    if l == [] then []
    else
      var last := l[|l| - 1];
      Kept(l[..|l| - 1], keys) + if last.saddr in keys then [last] else []
  }

  lemma {:induction false} KeptIsTimes<P>(l: seq<Entry<P>>, r: seq<Entry<P>>)
    ensures Contents(Kept(l, Addrs(r))) == Times(Contents(l), Contents(r))
  {
    if l != [] {
      var front, last := l[..|l| - 1], l[|l| - 1];
      KeptIsTimes(front, r);
      ContentsKeys(r);
      var k := Kept(front, Addrs(r));
      assert last.saddr in Addrs(r) ==> (k + [last])[..|k|] == k;
      assert k + [] == k;
      assert last.saddr in Addrs(r) <==> last.saddr in Contents(r);
    }
  }

  lemma {:induction false} KeptSorted<P>(l: seq<Entry<P>>, keys: set<Addr>)
    requires Sorted(l)
    ensures Sorted(Kept(l, keys))
    ensures forall i | 0 <= i < |Kept(l, keys)| :: Kept(l, keys)[i] in l
  {
    if l != [] {
      KeptSorted(l[..|l| - 1], keys);
    }
  }

  lemma {:induction false} NoneKept<P>(l: seq<Entry<P>>, k: nat, keys: set<Addr>)
    requires k <= |l| && forall i | k <= i < |l| :: l[i].saddr !in keys
    ensures Kept(l, keys) == Kept(l[..k], keys)
  {
    if k < |l| {
      NoneKept(l[..|l| - 1], k, keys);
      assert l[..|l| - 1][..k] == l[..k];
    } else {
      assert l[..k] == l;
    }
  }

  lemma KeptNothing<P>(keys: set<Addr>)
    ensures Kept<P>([], keys) == []
  {
  }

  lemma KeptNext<P>(l: seq<Entry<P>>, k: nat, keys: set<Addr>)
    requires k < |l|
    ensures Kept(l[..k + 1], keys) == Kept(l[..k], keys) + if l[k].saddr in keys then [l[k]] else []
  {
    assert l[..k + 1][..k] == l[..k];
  }

  /** `operator*=`: two cursors walk over both lists; elements of the left one without a partner
      are erased on the way, and so is what is left when the right one ends. */
  method TimesInPlace<P>(left: seq<Entry<P>>, r: seq<Entry<P>>) returns (l: seq<Entry<P>>)
    requires Sorted(left) && Sorted(r)
    ensures Sorted(l) && Contents(l) == Times(Contents(left), Contents(r))
  {
    hide Contents, Kept;
    l := left;
    var curL, curR := 0, 0;
    assert left[..0] == [];
    assert Kept(left[..0], Addrs(r)) == [] by {
      KeptNothing<P>(Addrs(r));
    }
    ghost var k := 0;  // the position of the left cursor in the original list
    while curL < |l| && curR < |r|
      invariant 0 <= curL <= |l| && 0 <= curR <= |r| && 0 <= k <= |left|
      invariant l[..curL] == Kept(left[..k], Addrs(r)) && l[curL..] == left[k..]
      invariant k < |left| ==> forall n | 0 <= n < curR :: r[n].saddr < left[k].saddr
      decreases |l| - curL + |r| - curR
    {
      assert l[curL] == l[curL..][0] == left[k];
      KeptNext(left, k, Addrs(r));
      if l[curL].saddr == r[curR].saddr {
        assert left[k].saddr in Addrs(r);
        assert l[..curL + 1] == l[..curL] + [left[k]];
        curL, curR, k := curL + 1, curR + 1, k + 1;
      } else if l[curL].saddr < r[curR].saddr {
        assert left[k].saddr !in Addrs(r);
        l := l[..curL] + l[curL + 1..];
        k := k + 1;
      } else {
        curR := curR + 1;
      }
    }
    if curL < |l| {
      assert left[k] == l[curL..][0];
      assert forall i | k <= i < |left| :: left[i].saddr !in Addrs(r);
      l := l[..curL];
    }
    assert l == l[..curL];
    assert forall i | k <= i < |left| :: left[i] == left[k..][i - k];
    NoneKept(left, k, Addrs(r));
    KeptSorted(left, Addrs(r));
    KeptIsTimes(left, r);
  }

  /** `operator-=`: erases the elements of the right list one after the other. */
  method MinusInPlace<P>(left: map<Addr, P>, r: seq<Entry<P>>) returns (l: map<Addr, P>)
    requires Sorted(r)
    ensures l == Minus(left, Contents(r))
  {
    l := left;
    for i := 0 to |r|
      invariant l == left - Addrs(r[..i])
    {
      l := l - {r[i].saddr};
      assert Addrs(r[..i + 1]) == Addrs(r[..i]) + {r[i].saddr};
    }
    assert r[..|r|] == r;
    ContentsKeys(r);
  }

  /** `operator+=`: inserts the elements of the right list; an address that is there already keeps its element. */
  method PlusInPlace<P>(left: map<Addr, P>, r: seq<Entry<P>>) returns (l: map<Addr, P>)
    requires Sorted(r)
    ensures l == Plus(left, Contents(r))
  {
    l := left;
    for i := 0 to |r|
      invariant l == Plus(left, Contents(r[..i]))
    {
      assert r[..i + 1][..i] == r[..i];
      if r[i].saddr !in l {
        l := l[r[i].saddr := r[i].payload];
      } else if r[i].saddr !in left {
        // impossible in a sorted list
        ContentsKeys(r[..i]);
        assert false;
      }
    }
    assert r[..|r|] == r;
  }
}
