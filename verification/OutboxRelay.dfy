/** The outbox relay: one run of it, and how many runs a row can have to wait. */
module OutboxRelay {
  import opened Batches

  type RowId = int

  const LIMIT: nat := 100

  /** The sequence without the members of a set. */
  function Without(s: seq<RowId>, gone: set<RowId>): seq<RowId> {
    if s == [] then []
    else Without(s[..|s| - 1], gone) + (if s[|s| - 1] in gone then [] else [s[|s| - 1]])
  }

  function Head(pending: seq<RowId>): seq<RowId> {
    pending[..AtMost(LIMIT, |pending|)]
  }

  /** What is still unpublished after a complete run in which the broker rejects `bad`. */
  function Pass(pending: seq<RowId>, bad: set<RowId>): seq<RowId> {
    Without(pending, Elements(Head(pending)) - bad)
  }

  // ---- sequences without some members ----

  lemma {:induction false} WithoutElements(s: seq<RowId>, gone: set<RowId>)
    requires Distinct(s)
    ensures Distinct(Without(s, gone)) && Elements(Without(s, gone)) == Elements(s) - gone
    ensures gone !! Elements(s) ==> Without(s, gone) == s
    ensures s != [] && s[|s| - 1] !in gone ==>
              Without(s, gone) != [] && Without(s, gone)[|Without(s, gone)| - 1] == s[|s| - 1]
  {
    if s != [] {
      var front, last := s[..|s| - 1], s[|s| - 1];
      WithoutElements(front, gone);
      assert s == front + [last];
      AppendOne(front, last);
      AppendOne(Without(front, gone), last);
      assert Without(front, gone) + [] == Without(front, gone);
    }
  }

  lemma {:induction false} WithoutJoins(a: seq<RowId>, b: seq<RowId>, gone: set<RowId>)
    ensures Without(a + b, gone) == Without(a, gone) + Without(b, gone)
    decreases |b|
  {
    if b == [] {
      assert a + b == a;
    } else {
      WithoutJoins(a, b[..|b| - 1], gone);
      assert (a + b)[..|a + b| - 1] == a + b[..|b| - 1];
    }
  }

  lemma {:induction false} WithoutTwice(s: seq<RowId>, one: set<RowId>, two: set<RowId>)
    ensures Without(Without(s, one), two) == Without(s, one + two)
  {
    if s != [] {
      var front, last := s[..|s| - 1], s[|s| - 1];
      WithoutTwice(front, one, two);
      var kept := Without(front, one);
      assert kept + [] == kept && (kept + [last])[..|kept|] == kept;
    }
  }

  // ---- what stands in front of a row ----

  function Before(s: seq<RowId>, x: RowId): set<RowId> {
    if s == [] then {}
    else if s[|s| - 1] == x then Elements(s[..|s| - 1])
    else Before(s[..|s| - 1], x)
  }

  lemma {:induction false} BeforeWithout(s: seq<RowId>, gone: set<RowId>, x: RowId)
    requires Distinct(s) && x in s && x !in gone
    ensures Before(Without(s, gone), x) == Before(s, x) - gone
  {
    var front, last := s[..|s| - 1], s[|s| - 1];
    var kept := Without(front, gone);
    WithoutElements(front, gone);
    assert s == front + [last];
    assert kept + [] == kept && (kept + [last])[..|kept|] == kept;
    if last != x {
      BeforeWithout(front, gone, x);
    }
  }

  /** A row outside the first rows has only rows in front of it that are among them, and all of these. */
  lemma {:induction false} HeadIsBefore(s: seq<RowId>, n: nat, x: RowId)
    requires Distinct(s) && x in s && n <= |s| && x !in s[..n]
    ensures Elements(s[..n]) <= Before(s, x)
  {
    var front, last := s[..|s| - 1], s[|s| - 1];
    assert s == front + [last] && s[..|s|] == s;
    assert n < |s| && s[..n] == front[..n];
    if last == x {
      assert forall y :: y in front[..n] ==> y in front;
    } else {
      HeadIsBefore(front, n, x);
    }
  }

  /** With a full batch of rows in front of it, a row is not in the batch. */
  lemma {:induction false} BeforeSize(s: seq<RowId>, x: RowId, i: nat)
    requires Distinct(s) && i < |s| && s[i] == x
    ensures Before(s, x) == Elements(s[..i]) && |Before(s, x)| == i
  {
    var front, last := s[..|s| - 1], s[|s| - 1];
    if i == |s| - 1 {
      DistinctSize(front);
    } else {
      assert front[..i] == s[..i] && s[|s| - 1] != s[i];
      BeforeSize(front, x, i);
    }
  }

  // ---- runs of the relay, with rows arriving anywhere ----

  /** After a run, rows that were not there may have joined in any places: the query orders by creation
      time, and a transaction that began earlier may commit later. */
  predicate Joined(left: seq<RowId>, next: seq<RowId>) {
    Distinct(next) && Without(next, Elements(next) - Elements(left)) == left
  }

  function SentBy(pending: seq<RowId>, rejects: set<RowId>): set<RowId> {
    Elements(Head(pending)) - rejects
  }

  function Sent(pendings: seq<seq<RowId>>, rejects: seq<set<RowId>>): set<RowId>
    requires |pendings| == |rejects| + 1
  {
    if rejects == [] then {}
    else
      var n := |rejects|;
      Sent(pendings[..n], rejects[..n - 1]) + SentBy(pendings[n - 1], rejects[n - 1])
  }

  /** What is pending before each complete run and after the last, and what the broker rejects in each. */
  predicate AreRuns(pendings: seq<seq<RowId>>, rejects: seq<set<RowId>>)
    decreases |rejects|
  {
    && |pendings| == |rejects| + 1
    && if rejects == [] then Distinct(pendings[0])
       else
         var n := |rejects|;
         && AreRuns(pendings[..n], rejects[..n - 1])
         && Joined(Pass(pendings[n - 1], rejects[n - 1]), pendings[n])
         && Elements(pendings[n]) !! Sent(pendings, rejects)
  }

  /** A row that a run does not send keeps its place among the rows that stay. */
  lemma StaysInPlace(p: seq<RowId>, rejects: set<RowId>, next: seq<RowId>, x: RowId)
    requires Distinct(p) && Joined(Pass(p, rejects), next) && x in p && x !in SentBy(p, rejects)
    ensures x in next && Before(p, x) - SentBy(p, rejects) <= Before(next, x)
  {
    var left := Pass(p, rejects);
    WithoutElements(p, SentBy(p, rejects));
    assert x in Elements(left);
    var joined := Elements(next) - Elements(left);
    WithoutElements(next, joined);
    assert x in Elements(next);
    BeforeWithout(p, SentBy(p, rejects), x);
    BeforeWithout(next, joined, x);
  }

  lemma {:induction false} RunsAreDistinct(pendings: seq<seq<RowId>>, rejects: seq<set<RowId>>)
    requires AreRuns(pendings, rejects)
    ensures Distinct(pendings[|rejects|]) && Elements(pendings[|rejects|]) !! Sent(pendings, rejects)
    ensures forall x <- Sent(pendings, rejects) :: x !in pendings[|rejects|]
  {
    var last := pendings[|rejects|];
    assert forall x :: x in last ==> x in Elements(last);
  }

  // ---- how long a row can have to wait ----

  lemma HopefulStep(left: seq<RowId>, bad: set<RowId>)
    requires Distinct(left) && |Elements(left) * bad| <= LIMIT
    ensures Distinct(Pass(left, bad)) && Elements(Pass(left, bad)) * bad == Elements(left) * bad
    ensures |Elements(Pass(left, bad)) - bad| <= Minus(|Elements(left) - bad|, LIMIT - |Elements(left) * bad|)
  {
    var all, batch := Elements(left), Elements(Head(left));
    WithoutElements(left, batch - bad);
    DistinctSize(left);
    DistinctSize(Head(left));
    HopefulSets(all, batch, bad);
    assert Elements(Pass(left, bad)) == all - (batch - bad);
  }

  lemma HopefulSets(all: set<RowId>, batch: set<RowId>, bad: set<RowId>)
    requires batch <= all && |batch| == AtMost(LIMIT, |all|) && |all * bad| <= LIMIT
    ensures (all - (batch - bad)) * bad == all * bad
    ensures |(all - (batch - bad)) - bad| <= Minus(|all - bad|, LIMIT - |all * bad|)
  {
    assert all - (all - bad) == all * bad;
    BatchTakesHopeful(all, all - bad, batch, LIMIT);
    assert (all - (batch - bad)) - bad == (all - bad) - batch;
  }

  /** A batch that passes a row by is full of rows in front of it, and what of these is not bad is sent. */
  lemma PassedBy(p: seq<RowId>, rejects: set<RowId>, x: RowId, bad: set<RowId>, ahead: set<RowId>, sent: set<RowId>)
    requires Distinct(p) && Elements(p) !! sent && x in p && x !in bad && rejects <= bad
    requires Before(p, x) <= ahead && |ahead * bad| <= LIMIT
    ensures x in SentBy(p, rejects)
         || |(ahead - bad) - (sent + SentBy(p, rejects))| <= Minus(|(ahead - bad) - sent|, LIMIT - |ahead * bad|)
  {
    assert |p| <= LIMIT ==> Head(p) == p;
    if x !in SentBy(p, rejects) {
      assert x !in Head(p);
      HeadIsBefore(p, |Head(p)|, x);
      DistinctSize(Head(p));
      FullBatch(Elements(Head(p)), rejects, bad, ahead, sent);
    }
  }

  lemma FullBatch(batch: set<RowId>, rejects: set<RowId>, bad: set<RowId>, ahead: set<RowId>, sent: set<RowId>)
    requires |batch| == LIMIT && batch <= ahead && batch !! sent && rejects <= bad && |ahead * bad| <= LIMIT
    ensures |(ahead - bad) - (sent + (batch - rejects))| <= Minus(|(ahead - bad) - sent|, LIMIT - |ahead * bad|)
  {
    var good := batch - bad;
    assert batch == good + batch * bad;
    SubsetSize(batch * bad, ahead * bad);
    var left := (ahead - bad) - sent;
    assert good <= left && left == good + (left - good);
    SubsetSize((ahead - bad) - (sent + (batch - rejects)), left - good);
  }

  /** A pending row, and whatever stands in front of it before one of the runs. */
  ghost predicate Ahead(pendings: seq<seq<RowId>>, runs: nat, x: RowId, ahead: set<RowId>)
    requires runs <= |pendings|
  {
    x in ahead && forall i | 0 <= i < runs :: Before(pendings[i], x) <= ahead
  }

  /** Not sent so far, and few enough of the rows in front are left. */
  predicate StillWaits(x: RowId, pending: seq<RowId>, good: set<RowId>, sent: set<RowId>, left: nat) {
    x in pending && |good - sent| <= left
  }

  lemma OneMoreRun(p: seq<RowId>, rejects: set<RowId>, next: seq<RowId>, x: RowId, bad: set<RowId>, ahead: set<RowId>,
                   sent: set<RowId>, left: nat)
    requires Distinct(p) && Elements(p) !! sent && Joined(Pass(p, rejects), next)
    requires x !in bad && rejects <= bad && Before(p, x) <= ahead && |ahead * bad| <= LIMIT
    requires StillWaits(x, p, ahead - bad, sent, left)
    ensures x in SentBy(p, rejects)
         || StillWaits(x, next, ahead - bad, sent + SentBy(p, rejects), Minus(left, LIMIT - |ahead * bad|))
  {
    PassedBy(p, rejects, x, bad, ahead, sent);
    if x !in SentBy(p, rejects) {
      StaysInPlace(p, rejects, next, x);
    }
  }

  lemma {:induction false} WaitCountsDown(pendings: seq<seq<RowId>>, rejects: seq<set<RowId>>, x: RowId,
                                         bad: set<RowId>, ahead: set<RowId>)
    requires AreRuns(pendings, rejects) && x in pendings[0] && x !in bad
    requires forall r <- rejects :: r <= bad
    requires Ahead(pendings, |rejects|, x, ahead) && |ahead * bad| <= LIMIT
    ensures x in Sent(pendings, rejects)
         || StillWaits(x, pendings[|rejects|], ahead - bad, Sent(pendings, rejects),
                       CountDown(|ahead - bad|, LIMIT - |ahead * bad|, |rejects|))
    decreases |rejects|
  {
    var n := |rejects|;
    if n == 0 {
      assert (ahead - bad) - {} == ahead - bad;
    } else {
      var ps, rs := pendings[..n], rejects[..n - 1];
      WaitCountsDown(ps, rs, x, bad, ahead);
      if x !in Sent(ps, rs) {
        RunsAreDistinct(ps, rs);
        assert rejects[n - 1] in rejects;
        OneMoreRun(ps[n - 1], rejects[n - 1], pendings[n], x, bad, ahead, Sent(ps, rs),
                   CountDown(|ahead - bad|, LIMIT - |ahead * bad|, n - 1));
      }
    }
  }

  lemma NoneLeft(x: RowId, pending: seq<RowId>, good: set<RowId>, sent: set<RowId>)
    requires x in good && StillWaits(x, pending, good, sent, 0)
    ensures x in sent
  {
    assert x !in sent ==> x in good - sent;
  }

  lemma SentInTime(pendings: seq<seq<RowId>>, rejects: seq<set<RowId>>, x: RowId, bad: set<RowId>, ahead: set<RowId>)
    requires AreRuns(pendings, rejects) && x in pendings[0] && x !in bad
    requires forall r <- rejects :: r <= bad
    requires Ahead(pendings, |rejects|, x, ahead) && |ahead * bad| <= LIMIT
    requires CountDown(|ahead - bad|, LIMIT - |ahead * bad|, |rejects|) == 0
    ensures x in Sent(pendings, rejects)
  {
    WaitCountsDown(pendings, rejects, x, bad, ahead);
    if x !in Sent(pendings, rejects) {
      NoneLeft(x, pendings[|rejects|], ahead - bad, Sent(pendings, rejects));
    }
  }

  /** Of all the rows that ever stand in front of a row, and the row itself, let k be ever rejected and m
      not. With k below 100 the row is sent within m / (100 - k) runs, rounded up, wherever new
      rows join. */
  lemma PublishedInTime(pendings: seq<seq<RowId>>, rejects: seq<set<RowId>>, x: RowId, bad: set<RowId>, ahead: set<RowId>)
    requires AreRuns(pendings, rejects) && x in pendings[0] && x !in bad
    requires forall r <- rejects :: r <= bad
    requires Ahead(pendings, |rejects|, x, ahead)
    requires var k := |ahead * bad|; k < LIMIT && Suffice(|rejects|, LIMIT - k, |ahead - bad|)
    ensures x in Sent(pendings, rejects) && x !in pendings[|rejects|]
  {
    CountsOut(|ahead - bad|, LIMIT - |ahead * bad|, |rejects|);
    SentInTime(pendings, rejects, x, bad, ahead);
    RunsAreDistinct(pendings, rejects);
  }

  /** A hundred rows or more in front of a row that are rejected in every run starve it: no number of runs
      sends it. */
  lemma {:induction false} StarvedForever(pendings: seq<seq<RowId>>, rejects: seq<set<RowId>>, x: RowId, bad: set<RowId>)
    requires AreRuns(pendings, rejects) && x in pendings[0]
    requires forall r <- rejects :: bad <= r
    requires |Before(pendings[0], x) * bad| >= LIMIT
    ensures x in pendings[|rejects|] && x !in Sent(pendings, rejects)
    ensures Before(pendings[0], x) * bad <= Before(pendings[|rejects|], x)
    decreases |rejects|
  {
    var n := |rejects|;
    if n > 0 {
      var ps, rs := pendings[..n], rejects[..n - 1];
      StarvedForever(ps, rs, x, bad);
      RunsAreDistinct(ps, rs);
      assert bad <= rejects[n - 1] by {
        assert rejects[n - 1] in rejects;
      }
      OutOfReach(ps[n - 1], x, Before(pendings[0], x) * bad);
      StaysInPlace(ps[n - 1], rejects[n - 1], pendings[n], x);
    }
  }

  lemma OutOfReach(p: seq<RowId>, x: RowId, block: set<RowId>)
    requires Distinct(p) && x in p && block <= Before(p, x) && |block| >= LIMIT
    ensures x !in Head(p)
  {
    var i :| 0 <= i < |p| && p[i] == x;
    BeforeSize(p, x, i);
    SubsetSize(block, Before(p, x));
  }

  // ---- one run, in the code's steps ----

  class OutboxStore {
    var rows: seq<RowId>       // by creation time
    var published: set<RowId>

    constructor (rows: seq<RowId>)
      ensures this.rows == rows && published == {}
    {
      this.rows, this.published := rows, {};
    }

    function Pending(): seq<RowId>
      reads this
    {
      Without(rows, published)
    }

    method FindUnpublished(limit: nat) returns (batch: seq<RowId>)
      ensures batch == Pending()[..AtMost(limit, |Pending()|)]
    {
      batch := [];
      var i := 0;
      while i < |rows| && |batch| < limit
        invariant 0 <= i <= |rows|
        invariant |batch| <= limit && batch == Without(rows[..i], published)
      {
        assert rows[..i + 1][..i] == rows[..i];
        if rows[i] !in published {
          batch := batch + [rows[i]];
        }
        i := i + 1;
      }
      assert rows == rows[..i] + rows[i..];
      WithoutJoins(rows[..i], rows[i..], published);
    }

    method MarkAsPublished(ids: seq<RowId>)
      modifies this`published
      ensures published == old(published) + Elements(ids)
    {
      published := published + set x <- ids;
    }
  }

  class Broker {
    var accepted: seq<RowId>

    constructor ()
      ensures accepted == []
    {
      accepted := [];
    }

    method Publish(id: RowId, rejects: bool) returns (thrown: bool)
      modifies this
      ensures thrown == rejects
      ensures accepted == if rejects then old(accepted) else old(accepted) + [id]
    {
      if !rejects {
        accepted := accepted + [id];
      }
      thrown := rejects;
    }
  }

  class Lease {
    var held: bool

    constructor ()
      ensures !held
    {
      held := false;
    }
  }

  class OutboxRelayService {
    const store: OutboxStore
    const broker: Broker
    const lease: Lease
    var isProcessing: bool

    constructor (store: OutboxStore, broker: Broker, lease: Lease)
      ensures this.store == store && this.broker == broker && this.lease == lease && !isProcessing
    {
      this.store, this.broker, this.lease := store, broker, lease;
      isProcessing := false;
    }

    /** Publish one by one, going on after a failure. */
    method PublishAll(events: seq<RowId>, bad: set<RowId>) returns (publishedIds: seq<RowId>)
      modifies broker
      ensures publishedIds == Without(events, bad)
      ensures broker.accepted == old(broker.accepted) + publishedIds
    {
      publishedIds := [];
      for i := 0 to |events|
        invariant publishedIds == Without(events[..i], bad)
        invariant broker.accepted == old(broker.accepted) + publishedIds
      {
        assert events[..i + 1][..i] == events[..i];
        var thrown := broker.Publish(events[i], events[i] in bad);
        if !thrown {
          publishedIds := publishedIds + [events[i]];
        }
      }
      assert events[..|events|] == events;
    }

    /** One run: the oldest rows, published or left for later, and the published ones marked. The
        lease stays behind when giving it back throws. */
    method HandleCron(bad: set<RowId>, leaseFails: bool, findFails: bool, markFails: bool, releaseFails: bool)
      requires Distinct(store.rows)
      modifies this, store`published, broker, lease
      ensures isProcessing == old(isProcessing)
      ensures var starts := !old(isProcessing) && !leaseFails && !old(lease.held);
              var sent := if starts && !findFails then Without(Head(old(store.Pending())), bad) else [];
              && lease.held == (old(lease.held) || (starts && releaseFails))
              && broker.accepted == old(broker.accepted) + sent
              && store.published == (if markFails then old(store.published) else old(store.published) + Elements(sent))
              && (starts && !findFails && !markFails ==> store.Pending() == Pass(old(store.Pending()), bad))
    {
      assert store.published + Elements<RowId>([]) == store.published;
      if isProcessing { return; }
      if leaseFails || lease.held { return; }
      lease.held, isProcessing := true, true;
      if !findFails {
        var events := store.FindUnpublished(LIMIT);
        MarkingIsPass(store.rows, store.published, bad);
        var publishedIds := PublishAll(events, bad);
        if publishedIds != [] && !markFails {
          store.MarkAsPublished(publishedIds);
        }
      }
      isProcessing := false;
      if !releaseFails {
        lease.held := false;
      }
    }
  }

  /** Marking what was sent takes exactly the sent rows out of the pending ones. */
  lemma MarkingIsPass(rows: seq<RowId>, published: set<RowId>, bad: set<RowId>)
    requires Distinct(rows)
    ensures var pending := Without(rows, published);
            Without(rows, published + Elements(Without(Head(pending), bad))) == Pass(pending, bad)
  {
    var pending := Without(rows, published);
    WithoutElements(rows, published);
    WithoutElements(Head(pending), bad);
    WithoutTwice(rows, published, Elements(Without(Head(pending), bad)));
  }
}
