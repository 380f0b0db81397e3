/** The sliding window of withdrawals: an incrementally trimmed set of timestamps, and when
    counting it is counting the window. */
module FraudWindow {
  /** Add the event's own timestamp, then drop everything at or before the cutoff. */
  function Slide(kept: set<int>, now: int, window: int): set<int> {
    set t <- kept + {now} | t > now - window
  }

  function Slides(arrivals: seq<int>, window: int): set<int> {
    if arrivals == [] then {}
    else Slide(Slides(arrivals[..|arrivals| - 1], window), arrivals[|arrivals| - 1], window)
  }

  ghost predicate NotOverrun(arrivals: seq<int>, i: nat, window: int)
    requires i < |arrivals|
  {
    forall j | i <= j < |arrivals| :: arrivals[j] < arrivals[i] + window
  }

  /** A timestamp is kept exactly when some arrival of it has, from itself on, no arrival at or
      beyond the end of its window, in whatever order the events arrive. */
  lemma {:induction false} KeptExactly(arrivals: seq<int>, window: int, t: int)
    ensures t in Slides(arrivals, window)
       <==> exists i | 0 <= i < |arrivals| :: arrivals[i] == t && NotOverrun(arrivals, i, window)
  {
    if arrivals != [] {
      var n := |arrivals| - 1;
      var front := arrivals[..n];
      KeptExactly(front, window, t);
      if t in Slides(arrivals, window) {
        if t == arrivals[n] {
          assert NotOverrun(arrivals, n, window);
        } else {
          var i :| 0 <= i < n && front[i] == t && NotOverrun(front, i, window);
          assert NotOverrun(arrivals, i, window);
        }
      }
      if i :| 0 <= i < |arrivals| && arrivals[i] == t && NotOverrun(arrivals, i, window) {
        assert arrivals[n] < t + window;
        if i < n {
          assert front[i] == t && NotOverrun(front, i, window);
        }
      }
    }
  }

  /** The distinct timestamps of all events in the window that ends now. */
  function Recount(arrivals: seq<int>, now: int, window: int): set<int> {
    set t <- arrivals | now - window < t <= now
  }

  ghost predicate NothingLater(arrivals: seq<int>) {
    arrivals != [] ==> forall i | 0 <= i < |arrivals| :: arrivals[i] <= arrivals[|arrivals| - 1]
  }

  lemma {:induction false} Latest(arrivals: seq<int>) returns (m: nat)
    requires arrivals != []
    ensures m < |arrivals| && forall i | 0 <= i < |arrivals| :: arrivals[i] <= arrivals[m]
  {
    m := 0;
    for k := 1 to |arrivals|
      invariant m < k && forall i | 0 <= i < k :: arrivals[i] <= arrivals[m]
    {
      if arrivals[k] > arrivals[m] {
        m := k;
      }
    }
  }

  /** The kept set is the recount of the event's own window exactly when no event with a later
      timestamp arrived before it. */
  lemma WindowIsRecount(arrivals: seq<int>, window: int)
    requires arrivals != [] && window > 0
    ensures var now := arrivals[|arrivals| - 1];
            Slides(arrivals, window) == Recount(arrivals, now, window) <==> NothingLater(arrivals)
  {
    var now := arrivals[|arrivals| - 1];
    forall t
      ensures t in Slides(arrivals, window)
         <==> exists i | 0 <= i < |arrivals| :: arrivals[i] == t && NotOverrun(arrivals, i, window)
    {
      KeptExactly(arrivals, window, t);
    }
    if NothingLater(arrivals) {
      forall t
        ensures t in Slides(arrivals, window) <==> t in Recount(arrivals, now, window)
      {
        if t in Recount(arrivals, now, window) {
          var i :| 0 <= i < |arrivals| && arrivals[i] == t;
          assert NotOverrun(arrivals, i, window);
        }
      }
    } else {
      var m := Latest(arrivals);
      assert NotOverrun(arrivals, m, window);
      assert arrivals[m] in Slides(arrivals, window) && arrivals[m] > now;
    }
  }

  // ---- the key's own expiry ----

  /** The stored set disappears when nothing was added for a whole window. */
  datatype Key = Key(kept: set<int>, expiresAt: int)

  function Alive(k: Key, clock: int): set<int> {
    if clock >= k.expiresAt then {} else k.kept
  }

  /** An event's own timestamp, and when it is processed. */
  datatype Arrival = Arrival(stamp: int, clock: int)

  function Stored(arrivals: seq<Arrival>, window: int): Key {
    if arrivals == [] then Key({}, 0)
    else
      var last := arrivals[|arrivals| - 1];
      Key(Slide(Alive(Stored(arrivals[..|arrivals| - 1], window), last.clock), last.stamp, window), last.clock + window)
  }

  lemma StoredExpires(arrivals: seq<Arrival>, window: int)
    ensures arrivals != [] ==> Stored(arrivals, window).expiresAt == arrivals[|arrivals| - 1].clock + window
    ensures arrivals == [] ==> Stored(arrivals, window).kept == {}
  {
  }

  /** From the i-th arrival on, none is at or beyond the end of its window, and none is processed a whole
      window or more after the one before it. */
  ghost predicate Survives(arrivals: seq<Arrival>, i: nat, window: int)
    requires i < |arrivals|
  {
    && (forall j | i <= j < |arrivals| :: arrivals[j].stamp < arrivals[i].stamp + window)
    && (forall j | i < j < |arrivals| :: arrivals[j].clock < arrivals[j - 1].clock + window)
  }

  lemma SurvivesOneMore(arrivals: seq<Arrival>, i: nat, window: int)
    requires i < |arrivals| - 1
    ensures var n := |arrivals| - 1;
            Survives(arrivals, i, window)
            <==> && Survives(arrivals[..n], i, window)
                 && arrivals[n].stamp < arrivals[i].stamp + window
                 && arrivals[n].clock < arrivals[n - 1].clock + window
  {
    var n := |arrivals| - 1;
    if Survives(arrivals, i, window) {
      assert Survives(arrivals[..n], i, window);
    }
  }

  lemma {:induction false} StoredSurvives(arrivals: seq<Arrival>, window: int, t: int) returns (i: nat)
    requires t in Stored(arrivals, window).kept
    ensures i < |arrivals| && arrivals[i].stamp == t && Survives(arrivals, i, window)
  {
    var n := |arrivals| - 1;
    i := n;
    if t != arrivals[n].stamp {
      StoredExpires(arrivals[..n], window);
      i := StoredSurvives(arrivals[..n], window, t);
      SurvivesOneMore(arrivals, i, window);
    }
  }

  lemma {:induction false} SurvivorStored(arrivals: seq<Arrival>, i: nat, window: int)
    requires i < |arrivals| && Survives(arrivals, i, window)
    ensures arrivals[i].stamp in Stored(arrivals, window).kept
  {
    var n := |arrivals| - 1;
    assert arrivals[n].stamp < arrivals[i].stamp + window;
    if i < n {
      SurvivesOneMore(arrivals, i, window);
      SurvivorStored(arrivals[..n], i, window);
      StoredExpires(arrivals[..n], window);
    }
  }

  /** With the key's expiry, in whatever order events arrive and however late they are processed: a timestamp
      is stored exactly when some arrival of it survives. */
  lemma StoredExactly(arrivals: seq<Arrival>, window: int, t: int)
    ensures t in Stored(arrivals, window).kept
       <==> exists i | 0 <= i < |arrivals| :: arrivals[i].stamp == t && Survives(arrivals, i, window)
  {
    if t in Stored(arrivals, window).kept {
      var i := StoredSurvives(arrivals, window, t);
    }
    if i :| 0 <= i < |arrivals| && arrivals[i].stamp == t && Survives(arrivals, i, window) {
      SurvivorStored(arrivals, i, window);
    }
  }

  /** After a pause of a whole window the next event stands alone. */
  lemma PauseForgets(arrivals: seq<Arrival>, next: Arrival, window: int)
    requires arrivals != [] && window > 0 && next.clock >= arrivals[|arrivals| - 1].clock + window
    ensures Stored(arrivals + [next], window).kept == {next.stamp}
  {
    StoredExpires(arrivals, window);
    assert (arrivals + [next])[..|arrivals|] == arrivals;
  }

  /** Events processed as they happen. */
  function OnTime(stamps: seq<int>): seq<Arrival> {
    seq(|stamps|, i requires 0 <= i < |stamps| => Arrival(stamps[i], stamps[i]))
  }

  predicate InOrder(arrivals: seq<int>) {
    forall i, j | 0 <= i < j < |arrivals| :: arrivals[i] <= arrivals[j]
  }

  lemma InOrderSurvives(arrivals: seq<int>, i: nat, window: int)
    requires InOrder(arrivals) && i < |arrivals|
    ensures Survives(OnTime(arrivals), i, window) <==> NotOverrun(arrivals, i, window)
  {
    var timed := OnTime(arrivals);
    if NotOverrun(arrivals, i, window) {
      forall j | i < j < |timed|
        ensures timed[j].clock < timed[j - 1].clock + window
      {
        assert arrivals[j] < arrivals[i] + window && arrivals[i] <= arrivals[j - 1];
      }
    } else {
      var j :| i <= j < |arrivals| && arrivals[j] >= arrivals[i] + window;
      assert timed[j].stamp >= timed[i].stamp + window;
    }
  }

  /** When events are processed in order and as they happen, the expiry never removes anything
      that the cutoff would have kept. */
  lemma ExpiryIsRedundant(arrivals: seq<int>, window: int)
    requires InOrder(arrivals)
    ensures Stored(OnTime(arrivals), window).kept == Slides(arrivals, window)
  {
    forall t
      ensures t in Stored(OnTime(arrivals), window).kept <==> t in Slides(arrivals, window)
    {
      StoredExactly(OnTime(arrivals), window, t);
      KeptExactly(arrivals, window, t);
      forall i | 0 <= i < |arrivals|
        ensures Survives(OnTime(arrivals), i, window) <==> NotOverrun(arrivals, i, window)
      {
        InOrderSurvives(arrivals, i, window);
      }
      if i :| 0 <= i < |arrivals| && arrivals[i] == t && NotOverrun(arrivals, i, window) {
        assert OnTime(arrivals)[i].stamp == t && Survives(OnTime(arrivals), i, window);
      }
      if i :| 0 <= i < |OnTime(arrivals)| && OnTime(arrivals)[i].stamp == t && Survives(OnTime(arrivals), i, window) {
        assert arrivals[i] == t && NotOverrun(arrivals, i, window);
      }
    }
  }

  // ---- the detector ----

  class WithdrawalWindow {
    var kept: set<int>
    var expiresAt: int

    constructor ()
      ensures kept == {} && expiresAt == 0
    {
      kept, expiresAt := {}, 0;
    }

    function Value(): Key
      reads this
    {
      Key(kept, expiresAt)
    }

    /** Add, trim, extend the expiry, count, compare. */
    method Detect(now: int, clock: int, window: int, maxWithdrawals: int) returns (alert: bool)
      modifies this
      ensures Value() == Key(Slide(Alive(old(Value()), clock), now, window), clock + window)
      ensures alert <==> |kept| > maxWithdrawals
    {
      if clock >= expiresAt {
        kept := {};
      }
      kept := kept + {now};
      var cutoff := now - window;
      kept := set t <- kept | t > cutoff;
      expiresAt := clock + window;
      alert := |kept| > maxWithdrawals;
    }
  }

  /** In order and on time, the alert is raised exactly when more than the allowed number of
      distinct timestamps fall into the window that ends now. */
  lemma AlertIsExact(arrivals: seq<int>, window: int, maxWithdrawals: int)
    requires arrivals != [] && InOrder(arrivals) && window > 0
    ensures |Stored(OnTime(arrivals), window).kept| > maxWithdrawals
       <==> |Recount(arrivals, arrivals[|arrivals| - 1], window)| > maxWithdrawals
  {
    ExpiryIsRedundant(arrivals, window);
    WindowIsRecount(arrivals, window);
  }
}
