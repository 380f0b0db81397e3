/** Any number of relays, await by await, with a lease that may expire, crashes and failures. */
module RelaySafety {
  import opened Basics
  import opened Batches
  import opened OutboxRelay

  datatype RunPc =
    | Begun
    | Leased
    | Sending(batch: seq<RowId>, next: nat, sent: set<RowId>)
    | Closing

  datatype Relays = Relays(
    rows: set<RowId>,
    published: set<RowId>,
    accepted: seq<RowId>,
    lock: Option<nat>,
    runs: map<nat, RunPc>)

  datatype Event =
    | Arrive(row: RowId)
    | Begin(run: nat)
    | Acquire(run: nat)
    | Fetch(run: nat, rows: seq<RowId>)
    | Accept(run: nat)
    | Reject(run: nat)
    | Mark(run: nat)
    | QueryFails(run: nat)
    | MarkFails(run: nat)
    | Release(run: nat)        // deletes the lock key, whoever holds it
    | KeepLock(run: nat)       // deleting it throws
    | Expire
    | Crash(run: nat)

  const NO_RELAYS := Relays({}, {}, [], None, map[])

  function Next(s: Relays, e: Event): Relays {
    match e
    case Arrive(row) => s.(rows := s.rows + {row})
    case Begin(r) => if r in s.runs then s else s.(runs := s.runs[r := Begun])
    case Acquire(r) =>
      if r !in s.runs || !s.runs[r].Begun? then s
      else if s.lock.Some? then s.(runs := s.runs - {r})
      else s.(lock := Some(r), runs := s.runs[r := Leased])
    case Fetch(r, batch) =>
      if r !in s.runs || !s.runs[r].Leased? then s
      else if !(Distinct(batch) && |batch| <= LIMIT && Elements(batch) <= s.rows - s.published) then s
      else s.(runs := s.runs[r := Sending(batch, 0, {})])
    case Accept(r) =>
      if !CanSend(s, r) then s
      else
        var run := s.runs[r];
        s.(accepted := s.accepted + [run.batch[run.next]],
           runs := s.runs[r := Sending(run.batch, run.next + 1, run.sent + {run.batch[run.next]})])
    case Reject(r) =>
      if !CanSend(s, r) then s
      else s.(runs := s.runs[r := Sending(s.runs[r].batch, s.runs[r].next + 1, s.runs[r].sent)])
    case Mark(r) =>
      if r !in s.runs || !s.runs[r].Sending? || s.runs[r].next < |s.runs[r].batch| then s
      else s.(published := s.published + s.runs[r].sent, runs := s.runs[r := Closing])
    case QueryFails(r) =>
      if r !in s.runs || !s.runs[r].Leased? then s else s.(runs := s.runs[r := Closing])
    case MarkFails(r) =>
      if r !in s.runs || !s.runs[r].Sending? || s.runs[r].next < |s.runs[r].batch| then s
      else s.(runs := s.runs[r := Closing])
    case Release(r) =>
      if r !in s.runs || !s.runs[r].Closing? then s else s.(lock := None, runs := s.runs - {r})
    case KeepLock(r) =>
      if r !in s.runs || !s.runs[r].Closing? then s else s.(runs := s.runs - {r})
    case Expire => s.(lock := None)
    case Crash(r) => s.(runs := s.runs - {r})
  }

  predicate CanSend(s: Relays, r: nat) {
    r in s.runs && s.runs[r].Sending? && s.runs[r].next < |s.runs[r].batch|
  }

  function After(s: Relays, es: seq<Event>): Relays
    decreases |es|
  {
    if es == [] then s else Next(After(s, es[..|es| - 1]), es[|es| - 1])
  }

  function Times(accepted: seq<RowId>, row: RowId): nat {
    if accepted == [] then 0
    else Times(accepted[..|accepted| - 1], row) + (if accepted[|accepted| - 1] == row then 1 else 0)
  }

  lemma OneMore(accepted: seq<RowId>, x: RowId)
    ensures forall row :: Times(accepted + [x], row) == Times(accepted, row) + (if x == row then 1 else 0)
  {
    assert (accepted + [x])[..|accepted|] == accepted;
  }

  // ---- no row is lost ----

  ghost predicate Delivered(s: Relays) {
    && (forall row <- s.published :: Times(s.accepted, row) >= 1)
    && (forall r <- s.runs :: s.runs[r].Sending? ==> forall row <- s.runs[r].sent :: Times(s.accepted, row) >= 1)
  }

  lemma AcceptDelivers(s: Relays, r: nat)
    requires Delivered(s) && CanSend(s, r)
    ensures Delivered(Next(s, Accept(r)))
  {
    OneMore(s.accepted, s.runs[r].batch[s.runs[r].next]);
  }

  lemma MarkDelivers(s: Relays, r: nat)
    requires Delivered(s)
    ensures Delivered(Next(s, Mark(r)))
  {
  }

  lemma NextDelivers(s: Relays, e: Event)
    requires Delivered(s)
    ensures Delivered(Next(s, e))
  {
    match e
    case Accept(r) => if CanSend(s, r) { AcceptDelivers(s, r); }
    case Mark(r) => MarkDelivers(s, r);
    case _ =>
  }

  /** Whatever expires, crashes or fails: a row that is marked published was accepted. */
  lemma {:induction false} MarkedMeansAccepted(es: seq<Event>)
    ensures Delivered(After(NO_RELAYS, es))
    ensures forall row <- After(NO_RELAYS, es).published :: Times(After(NO_RELAYS, es).accepted, row) >= 1
    decreases |es|
  {
    if es != [] {
      MarkedMeansAccepted(es[..|es| - 1]);
      NextDelivers(After(NO_RELAYS, es[..|es| - 1]), es[|es| - 1]);
    }
  }

  // ---- when a row is sent twice ----

  predicate InFlight(s: Relays, row: RowId) {
    exists r <- s.runs :: s.runs[r].Sending? && row in s.runs[r].sent
  }

  /** What a run has sent when it crashes or its mark fails: accepted, and nobody knows. */
  function Lost(s: Relays, e: Event): set<RowId> {
    match e
    case Crash(r) => if r in s.runs && s.runs[r].Sending? then s.runs[r].sent else {}
    case MarkFails(r) =>
      if r in s.runs && s.runs[r].Sending? && s.runs[r].next >= |s.runs[r].batch| then s.runs[r].sent else {}
    case _ => {}
  }

  function Dropped(es: seq<Event>): set<RowId> {
    if es == [] then {}
    else Dropped(es[..|es| - 1]) + Lost(After(NO_RELAYS, es[..|es| - 1]), es[|es| - 1])
  }

  predicate Sends(s: Relays, e: Event, row: RowId) {
    e.Accept? && CanSend(s, e.run) && s.runs[e.run].batch[s.runs[e.run].next] == row
  }

  /** A run sends the row although it is marked, or sent by a run still open, or dropped. */
  predicate Resent(es: seq<Event>, row: RowId)
    decreases |es|
  {
    es != [] &&
    var before := es[..|es| - 1];
    var s := After(NO_RELAYS, before);
    || Resent(before, row)
    || (Sends(s, es[|es| - 1], row) && (row in s.published || InFlight(s, row) || row in Dropped(before)))
  }

  lemma TimesStep(s: Relays, e: Event, row: RowId)
    ensures Times(Next(s, e).accepted, row) == Times(s.accepted, row) + (if Sends(s, e, row) then 1 else 0)
  {
    if e.Accept? && CanSend(s, e.run) {
      OneMore(s.accepted, s.runs[e.run].batch[s.runs[e.run].next]);
    }
  }

  /** A row that is marked, in flight or dropped after a step was so before, or is sent by it. */
  lemma KnownStep(s: Relays, e: Event, row: RowId)
    ensures var s' := Next(s, e);
            (row in s'.published || InFlight(s', row) || row in Lost(s, e))
            <==> row in s.published || InFlight(s, row) || Sends(s, e, row)
  {
    var s' := Next(s, e);
    if r :| r in s.runs && s.runs[r].Sending? && row in s.runs[r].sent {
      if r in s'.runs && s'.runs[r].Sending? {
        assert row in s'.runs[r].sent;
      }
    }
    if r :| r in s'.runs && s'.runs[r].Sending? && row in s'.runs[r].sent {
      assert r in s.runs;
      if s.runs[r].Sending? && !Sends(s, e, row) {
        assert row in s.runs[r].sent;
      }
    }
    if Sends(s, e, row) {
      assert row in s'.runs[e.run].sent;
    }
  }

  lemma {:induction false} Tally(es: seq<Event>, row: RowId)
    ensures var s := After(NO_RELAYS, es);
            && (row in s.published || InFlight(s, row) || row in Dropped(es) <==> Times(s.accepted, row) >= 1)
            && (Resent(es, row) <==> Times(s.accepted, row) >= 2)
    decreases |es|
  {
    if es != [] {
      var before, e := es[..|es| - 1], es[|es| - 1];
      Tally(before, row);
      TimesStep(After(NO_RELAYS, before), e, row);
      KnownStep(After(NO_RELAYS, before), e, row);
    }
  }

  /** Whatever expires, crashes or fails, a row is accepted at most once exactly when no run sends it
      while it is marked, in flight, or dropped by a run that crashed or could not mark it. */
  lemma SentOnceExactly(es: seq<Event>, row: RowId)
    ensures Times(After(NO_RELAYS, es).accepted, row) <= 1 <==> !Resent(es, row)
  {
    Tally(es, row);
  }

  // ---- while leases hold ----

  /** A lease expires only when no run is past taking it: one left behind by a release that failed, or
      by a crash. */
  predicate Fair(s: Relays, e: Event) {
    e.Expire? ==> forall r <- s.runs :: s.runs[r].Begun?
  }

  /** Every run keeps its lease to its end. */
  predicate LeasesHold(es: seq<Event>) {
    es == [] || (LeasesHold(es[..|es| - 1]) && Fair(After(NO_RELAYS, es[..|es| - 1]), es[|es| - 1]))
  }

  /** Some run sends the row after a run that had sent it crashed or failed to mark it. */
  predicate SentAgain(es: seq<Event>, row: RowId)
    decreases |es|
  {
    es != [] &&
    var before := es[..|es| - 1];
    SentAgain(before, row) || (Sends(After(NO_RELAYS, before), es[|es| - 1], row) && row in Dropped(before))
  }

  /** One run at a time is past taking the lease, and what it sends next is nowhere else. */
  ghost predicate OneAtATime(s: Relays) {
    && (forall r <- s.runs :: !s.runs[r].Begun? ==> s.lock == Some(r))
    && (forall r <- s.runs :: s.runs[r].Sending? ==>
          var run := s.runs[r];
          && run.next <= |run.batch| && Distinct(run.batch)
          && Elements(run.batch) !! s.published
          && run.sent <= Elements(run.batch[..run.next]))
  }

  lemma SendKeeps(s: Relays, r: nat)
    requires OneAtATime(s) && CanSend(s, r)
    ensures OneAtATime(Next(s, Accept(r))) && OneAtATime(Next(s, Reject(r)))
  {
    var run := s.runs[r];
    assert run.batch[..run.next + 1] == run.batch[..run.next] + [run.batch[run.next]];
    AppendOne(run.batch[..run.next], run.batch[run.next]);
  }

  lemma NextKeeps(s: Relays, e: Event)
    requires OneAtATime(s) && Fair(s, e)
    ensures OneAtATime(Next(s, e))
  {
    assert forall r, u | r in s.runs && u in s.runs && !s.runs[r].Begun? && !s.runs[u].Begun? :: r == u;
    if (e.Accept? || e.Reject?) && CanSend(s, e.run) {
      SendKeeps(s, e.run);
    }
  }

  lemma SendsNew(s: Relays, e: Event, row: RowId)
    requires OneAtATime(s) && Sends(s, e, row)
    ensures row !in s.published && !InFlight(s, row)
  {
    var run := s.runs[e.run];
    assert row in Elements(run.batch);
    assert row !in Elements(run.batch[..run.next]);
    assert forall u <- s.runs :: s.runs[u].Sending? ==> u == e.run;
  }

  lemma {:induction false} LeasedResends(es: seq<Event>, row: RowId)
    requires LeasesHold(es)
    ensures OneAtATime(After(NO_RELAYS, es))
    ensures Resent(es, row) <==> SentAgain(es, row)
    decreases |es|
  {
    if es != [] {
      var before, e := es[..|es| - 1], es[|es| - 1];
      LeasedResends(before, row);
      NextKeeps(After(NO_RELAYS, before), e);
      if Sends(After(NO_RELAYS, before), e, row) {
        SendsNew(After(NO_RELAYS, before), e, row);
      }
    }
  }

  /** While every run keeps its lease to its end, crashes and failed marks are all that is left: a row is
      accepted at most once exactly when it is not sent again after a run that had sent it crashed
      or failed to mark it. */
  lemma LeasedOnceExactly(es: seq<Event>, row: RowId)
    requires LeasesHold(es)
    ensures Times(After(NO_RELAYS, es).accepted, row) <= 1 <==> !SentAgain(es, row)
  {
    SentOnceExactly(es, row);
    LeasedResends(es, row);
  }

  lemma {:induction false} NeverAgain(es: seq<Event>, row: RowId)
    requires row !in Dropped(es)
    ensures !SentAgain(es, row)
    decreases |es|
  {
    if es != [] {
      NeverAgain(es[..|es| - 1], row);
    }
  }

  /** So it is, whatever happens to other rows, if no run that sent it crashes or fails to mark it. */
  lemma AcceptedAtMostOnce(es: seq<Event>, row: RowId)
    requires LeasesHold(es) && row !in Dropped(es)
    ensures Times(After(NO_RELAYS, es).accepted, row) <= 1
  {
    LeasedOnceExactly(es, row);
    NeverAgain(es, row);
  }

  // ---- runs that show each cause ----

  lemma Grow(es: seq<Event>, e: Event) returns (longer: seq<Event>)
    ensures longer == es + [e]
    ensures After(NO_RELAYS, longer) == Next(After(NO_RELAYS, es), e)
    ensures LeasesHold(longer) <==> LeasesHold(es) && Fair(After(NO_RELAYS, es), e)
    ensures Dropped(longer) == Dropped(es) + Lost(After(NO_RELAYS, es), e)
  {
    longer := es + [e];
    assert longer[..|es|] == es;
  }

  lemma FetchOne(s: Relays, r: nat, row: RowId)
    requires s.lock.None? && s.runs == map[] && row !in s.published
    ensures Next(Next(Next(Next(s, Arrive(row)), Begin(r)), Acquire(r)), Fetch(r, [row]))
         == Relays(s.rows + {row}, s.published, s.accepted, Some(r), map[r := Sending([row], 0, {})])
  {
    assert Elements([row]) == {row};
  }

  /** A relay takes the free lease, fetches one row and sends it. */
  lemma OneSent(es: seq<Event>, r: nat, row: RowId) returns (longer: seq<Event>)
    requires var s := After(NO_RELAYS, es); s.lock.None? && s.runs == map[] && row !in s.published
    ensures es <= longer && (LeasesHold(longer) <==> LeasesHold(es)) && Dropped(longer) == Dropped(es)
    ensures var s := After(NO_RELAYS, es);
            After(NO_RELAYS, longer)
              == Relays(s.rows + {row}, s.published, s.accepted + [row], Some(r), map[r := Sending([row], 1, {row})])
  {
    FetchOne(After(NO_RELAYS, es), r, row);
    longer := Grow(es, Arrive(row));
    longer := Grow(longer, Begin(r));
    longer := Grow(longer, Acquire(r));
    longer := Grow(longer, Fetch(r, [row]));
    longer := Grow(longer, Accept(r));
    assert {} + {row} == {row};
  }

  lemma Ends(s: Relays, r: nat, row: RowId)
    requires s.runs == map[r := Sending([row], 1, {row})]
    ensures Next(Next(s, Mark(r)), KeepLock(r)) == s.(published := s.published + {row}, runs := map[])
    ensures Next(s, Crash(r)) == s.(runs := map[]) && Lost(s, Crash(r)) == {row}
  {
  }

  /** ... marks it, and cannot give the lease back. */
  lemma OneMarked(es: seq<Event>, r: nat, row: RowId) returns (longer: seq<Event>)
    requires var s := After(NO_RELAYS, es); s.lock.None? && s.runs == map[] && row !in s.published
    ensures (LeasesHold(longer) <==> LeasesHold(es)) && Dropped(longer) == Dropped(es)
    ensures var s := After(NO_RELAYS, es);
            After(NO_RELAYS, longer) == Relays(s.rows + {row}, s.published + {row}, s.accepted + [row], Some(r), map[])
  {
    longer := OneSent(es, r, row);
    Ends(After(NO_RELAYS, longer), r, row);
    longer := Grow(longer, Mark(r));
    longer := Grow(longer, KeepLock(r));
  }

  /** A failed release alone duplicates nothing: the lease left behind expires, and the next relay sends. */
  lemma ReleaseMayFail(row: RowId, other: RowId) returns (es: seq<Event>)
    requires row != other
    ensures LeasesHold(es) && Dropped(es) == {} && Expire in es
    ensures After(NO_RELAYS, es).accepted == [row, other]
  {
    var kept := OneMarked([], 0, row);
    var free := Grow(kept, Expire);
    assert free[|kept|] == Expire;
    es := OneSent(free, 1, other);
    assert [] + [row] == [row] && [row] + [other] == [row, other];
  }

  /** A crash before the mark duplicates a row, with every lease kept. */
  lemma CrashDuplicates(row: RowId) returns (es: seq<Event>)
    ensures LeasesHold(es) && SentAgain(es, row) && After(NO_RELAYS, es).accepted == [row, row]
  {
    var sent := OneSent([], 0, row);
    assert After(NO_RELAYS, sent).accepted == [row];
    Ends(After(NO_RELAYS, sent), 0, row);
    var crashed := Grow(sent, Crash(0));
    var free := Grow(crashed, Expire);
    es := OneSent(free, 1, row);
    assert [row] + [row] == [row, row];
    OneMore([row], row);
    OneMore([], row);
    assert [] + [row] == [row];
    LeasedOnceExactly(es, row);
  }

  lemma BothStart(row: RowId)
    ensures Next(Next(Next(NO_RELAYS, Arrive(row)), Begin(0)), Begin(1))
         == Relays({row}, {}, [], None, map[0 := Begun, 1 := Begun])
  {
    assert {} + {row} == {row};
  }

  lemma LosesLease(s: Relays, row: RowId)
    requires s == Relays({row}, {}, [], None, map[0 := Begun, 1 := Begun])
    ensures Next(Next(Next(s, Acquire(0)), Fetch(0, [row])), Expire)
         == Relays({row}, {}, [], None, map[0 := Sending([row], 0, {}), 1 := Begun])
  {
    assert Elements([row]) == {row};
    assert Next(s, Acquire(0)) == Relays({row}, {}, [], Some(0), map[0 := Leased, 1 := Begun]);
  }

  lemma TwoRelays(row: RowId) returns (es: seq<Event>)
    ensures After(NO_RELAYS, es) == Relays({row}, {}, [], None, map[0 := Sending([row], 0, {}), 1 := Begun])
    ensures Dropped(es) == {}
  {
    BothStart(row);
    LosesLease(Relays({row}, {}, [], None, map[0 := Begun, 1 := Begun]), row);
    es := Grow([], Arrive(row));
    es := Grow(es, Begin(0));
    es := Grow(es, Begin(1));
    es := Grow(es, Acquire(0));
    es := Grow(es, Fetch(0, [row]));
    es := Grow(es, Expire);
  }

  lemma BothSend(s: Relays, row: RowId)
    requires s == Relays({row}, {}, [], None, map[0 := Sending([row], 0, {}), 1 := Begun])
    ensures Next(Next(Next(Next(s, Acquire(1)), Fetch(1, [row])), Accept(0)), Accept(1)).accepted == [row, row]
  {
    assert Elements([row]) == {row};
    var t := Next(Next(s, Acquire(1)), Fetch(1, [row]));
    assert t.runs == map[0 := Sending([row], 0, {}), 1 := Sending([row], 0, {})];
  }

  /** A lease that expires under its holder protects nothing, without any crash or failure: both relays
      fetch the row, both send it. */
  lemma ExpiryDuplicates(row: RowId) returns (es: seq<Event>)
    ensures Dropped(es) == {} && After(NO_RELAYS, es).accepted == [row, row]
  {
    es := TwoRelays(row);
    BothSend(After(NO_RELAYS, es), row);
    es := Grow(es, Acquire(1));
    es := Grow(es, Fetch(1, [row]));
    es := Grow(es, Accept(0));
    es := Grow(es, Accept(1));
  }
}
