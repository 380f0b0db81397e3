/** Bounded batches drawn from a pending set that may hold hopeless items. */
module Batches {

  function AtMost(x: nat, y: nat): nat {
    if x <= y then x else y
  }

  function Minus(x: nat, y: nat): nat {
    if x <= y then 0 else x - y
  }

  /** What is left of `start` after some rounds that each take `room`, or the rest. */
  function CountDown(start: nat, room: nat, rounds: nat): nat {
    if rounds == 0 then start else Minus(CountDown(start, room, rounds - 1), room)
  }

  function Remaining(start: nat, room: nat, rounds: nat): nat {
    Minus(start, rounds * room)
  }

  lemma NoneRemain(start: nat, room: nat)
    requires room > 0
    ensures Remaining(start, room, start) == 0
  {
    assert start * room >= start;
  }

  lemma {:induction false} CountDownIs(start: nat, room: nat, rounds: nat)
    ensures CountDown(start, room, rounds) == Remaining(start, room, rounds)
  {
    if rounds > 0 {
      CountDownIs(start, room, rounds - 1);
      assert rounds * room == (rounds - 1) * room + room;
    }
  }

  predicate Suffice(rounds: nat, room: nat, need: nat) {
    rounds * room >= need
  }

  lemma CountsOut(need: nat, room: nat, rounds: nat)
    requires Suffice(rounds, room, need)
    ensures CountDown(need, room, rounds) == 0
  {
    CountDownIs(need, room, rounds);
  }

  predicate Distinct<T(==)>(q: seq<T>) {
    forall i, j | 0 <= i < j < |q| :: q[i] != q[j]
  }

  function Elements<T>(q: seq<T>): set<T> {
    set x <- q
  }

  /** Some element, with no promise which. */
  method AnyOf<T(==)>(s: set<T>) returns (x: T)
    requires s != {}
    ensures x in s
  {
    x :| x in s;
  }

  lemma SubsetSize<T>(a: set<T>, b: set<T>)
    requires a <= b
    ensures |a| <= |b|
    ensures |a| == |b| ==> a == b
  {
    assert b == a + (b - a);
  }

  lemma AppendOne<T>(q: seq<T>, x: T)
    ensures Elements(q + [x]) == Elements(q) + {x}
    ensures Distinct(q) && x !in Elements(q) ==> Distinct(q + [x])
  {
  }

  lemma NotAmong<T>(q: seq<T>, x: T)
    requires Distinct(q + [x])
    ensures x !in Elements(q)
  {
    forall i | 0 <= i < |q|
      ensures q[i] != x
    {
      assert (q + [x])[i] == q[i] && (q + [x])[|q|] == x;
    }
  }

  lemma {:induction false} DistinctSize<T>(q: seq<T>)
    requires Distinct(q)
    ensures |Elements(q)| == |q|
  {
    if q != [] {
      var front, last := q[..|q| - 1], q[|q| - 1];
      DistinctSize(front);
      AppendOne(front, last);
      assert q == front + [last];
      NotAmong(front, last);
    }
  }

  lemma {:induction false} Pick<T>(s: set<T>, n: nat) returns (q: seq<T>)
    requires n <= |s|
    ensures |q| == n && Distinct(q) && Elements(q) <= s
  {
    if n == 0 {
      q := [];
    } else {
      var x :| x in s;
      q := Pick(s - {x}, n - 1);
      assert Elements(q + [x]) == Elements(q) + {x};
      q := q + [x];
    }
  }

  /** A full batch, or everything, holds at least as many hopeful items as there is room left
      by the hopeless ones. */
  lemma BatchTakesHopeful<T>(pending: set<T>, hopeful: set<T>, batch: set<T>, limit: nat)
    requires hopeful <= pending && batch <= pending
    requires |batch| == AtMost(limit, |pending|)
    requires |pending - hopeful| <= limit
    ensures |hopeful - batch| <= Minus(|hopeful|, limit - |pending - hopeful|)
  {
    SubsetSize(batch, pending);
    if |pending| <= limit {
      assert hopeful - batch == {};
    } else {
      SubsetSize(batch - hopeful, pending - hopeful);
      assert batch == batch * hopeful + (batch - hopeful);
      assert hopeful == batch * hopeful + (hopeful - batch);
    }
  }
}
