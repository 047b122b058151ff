/** The register of reminders: an ordered map from deadlines to messages. */
module Timings {

  /** The messages of a register in the order of their deadlines. */
  ghost predicate InOrder<M(!new)>(db: map<nat, M>, delivered: seq<M>, upTo: nat) {
    exists keys: seq<nat> ::
      && |keys| == |delivered|
      && (forall i, j | 0 <= i < j < |keys| :: keys[i] < keys[j])
      && (forall k :: k in keys <==> k in db && k <= upTo)
      && (forall i | 0 <= i < |keys| :: keys[i] in db && delivered[i] == db[keys[i]])
  }

  class Timing<M(!new, ==)> {
    var db: map<nat, M>

    constructor ()
      ensures db == map[]
    {
      db := map[];
    }

    /** Registers a message. A deadline that is taken keeps its first message, so the new one is lost
        exactly if another message has the same deadline. */
    method AddTime(now: nat, delay: nat, msg: M)
      modifies this
      ensures now + delay !in old(db) ==> db == old(db)[now + delay := msg]
      ensures now + delay in old(db) ==> db == old(db)
    {
      var until := now + delay;
      if until !in db {
        db := db[until := msg];
      }
    }

    /** One round of the worker: everything due is delivered in the order of deadlines and leaves the
        register; the rest stays. */
    method Deliver(now: nat) returns (delivered: seq<M>)
      modifies this
      ensures InOrder(old(db), delivered, now)
      ensures db == map k | k in old(db) && now < k :: old(db)[k]
    {
      hide Delivering;
      delivered := [];
      ghost var keys: seq<nat> := [];
      DeliverStart(db, now);
      while db != map[]
        invariant Delivering(old(db), db, keys, delivered, now)
        decreases |db|
      {
        assert db.Keys != {};
        var first := First(db.Keys);
        if first <= now {
          DeliverStep(old(db), db, keys, delivered, now, first);
          delivered := delivered + [db[first]];
          keys := keys + [first];
          db := db - {first};
        } else {
          break;
        }
      }
      DeliverEnd(old(db), db, keys, delivered, now);
    }
  }

  /** The messages delivered so far belong to the smallest deadlines, and the others are still there. */
  ghost predicate Delivering<M(!new)>(before: map<nat, M>, db: map<nat, M>, keys: seq<nat>, delivered: seq<M>, now: nat) {
    && |keys| == |delivered|
    && (forall i, j | 0 <= i < j < |keys| :: keys[i] < keys[j])
    && (forall i | 0 <= i < |keys| :: keys[i] <= now && keys[i] in before && delivered[i] == before[keys[i]])
    && (forall k | k in db :: k in before && db[k] == before[k])
    && (forall k | k in before :: k in db || k in keys)
    && (forall k, i | k in db && 0 <= i < |keys| :: keys[i] < k)
  }

  lemma DeliverStart<M(!new)>(db: map<nat, M>, now: nat)
    ensures Delivering(db, db, [], [], now)
  {
  }

  lemma DeliverStep<M(!new)>(before: map<nat, M>, db: map<nat, M>, keys: seq<nat>, delivered: seq<M>, now: nat, first: nat)
    requires Delivering(before, db, keys, delivered, now)
    requires first in db && first <= now && forall k | k in db :: first <= k
    ensures Delivering(before, db - {first}, keys + [first], delivered + [db[first]], now)
  {
    var keys' := keys + [first];
    assert keys'[|keys|] == first;
    assert forall i | 0 <= i < |keys| :: keys'[i] == keys[i];
  }

  lemma DeliverEnd<M(!new)>(before: map<nat, M>, db: map<nat, M>, keys: seq<nat>, delivered: seq<M>, now: nat)
    requires Delivering(before, db, keys, delivered, now) && forall k | k in db :: now < k
    ensures InOrder(before, delivered, now)
    ensures db == map k | k in before && now < k :: before[k]
  {
    assert forall k | k in db :: k !in keys;
  }

  /** The first key of an ordered map. */
  method First(keys: set<nat>) returns (k: nat)
    requires keys != {}
    ensures k in keys && forall j | j in keys :: k <= j
  {
    k :| k in keys;
    var rest := keys - {k};
    while rest != {}
      invariant rest <= keys && k in keys && k !in rest
      invariant forall j | j in keys && j !in rest :: k <= j
      decreases |rest|
    {
      var j :| j in rest;
      rest := rest - {j};
      if j < k {
        k := j;
      }
    }
  }

  /** The register after a sequence of registrations. */
  function Registered<M>(adds: seq<(nat, M)>): map<nat, M> {
    if adds == [] then map[]
    else
      var db, last := Registered(adds[..|adds| - 1]), adds[|adds| - 1];
      if last.0 in db then db else db[last.0 := last.1]
  }

  function Deadlines<M>(adds: seq<(nat, M)>): set<nat> {
    set i | 0 <= i < |adds| :: adds[i].0
  }

  lemma {:induction false} RegisteredKeys<M>(adds: seq<(nat, M)>)
    ensures Registered(adds).Keys == Deadlines(adds)
  {
    if adds != [] {
      RegisteredKeys(adds[..|adds| - 1]);
      assert Deadlines(adds) == Deadlines(adds[..|adds| - 1]) + {adds[|adds| - 1].0};
    }
  }

  /** A reminder that is the first one for its deadline is kept: with distinct deadlines all are. */
  lemma {:induction false} FirstWins<M>(adds: seq<(nat, M)>, i: nat)
    requires i < |adds| && forall j | 0 <= j < i :: adds[j].0 != adds[i].0
    ensures adds[i].0 in Registered(adds) && Registered(adds)[adds[i].0] == adds[i].1
  {
    var front := adds[..|adds| - 1];
    RegisteredKeys(front);
    if i < |front| {
      FirstWins(front, i);
    } else {
      assert adds[i].0 !in Deadlines(front);
    }
  }

  /** The first registration for the deadline of registration `i`. */
  lemma {:induction false} FirstFor<M>(adds: seq<(nat, M)>, i: nat) returns (j: nat)
    requires i < |adds|
    ensures j <= i && adds[j].0 == adds[i].0 && forall k | 0 <= k < j :: adds[k].0 != adds[i].0
  {
    j := i;
    if k :| 0 <= k < i && adds[k].0 == adds[i].0 {
      j := FirstFor(adds, k);
    }
  }

  /** Of different reminders exactly those are kept that are the first for their deadline; the others are lost. */
  lemma KeptIfFirst<M(!new)>(adds: seq<(nat, M)>, i: nat)
    requires i < |adds| && forall j, k | 0 <= j < k < |adds| :: adds[j].1 != adds[k].1
    ensures adds[i].0 in Registered(adds)
    ensures Registered(adds)[adds[i].0] == adds[i].1 <==> forall j | 0 <= j < i :: adds[j].0 != adds[i].0
  {
    var j := FirstFor(adds, i);
    FirstWins(adds, j);
  }

  /** Two reminders for one deadline: the second one is never delivered. */
  lemma SecondReminderIsLost<M>(deadline: nat, first: M, second: M)
    ensures Registered([(deadline, first), (deadline, second)]) == map[deadline := first]
  {
    var adds := [(deadline, first), (deadline, second)];
    assert adds[..1] == [(deadline, first)];
    assert [(deadline, first)][..0] == [];
    assert Registered(adds[..1]) == map[deadline := first];
  }
}
