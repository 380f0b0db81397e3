/** Requests that do not overlap: a stored answer makes a repetition harmless, and exactly when an
    answer is stored. */
module Idempotency {
  import opened Basics
  import opened Wallets
  import opened Store
  import opened Ledger
  import opened SagaSystem
  import opened TransferOutcome
  import WalletService

  /** A direct request with what fails around it, and whether its lock was left behind by an earlier one,
      or a transfer with one flag for each await it
      gets to perform: whether that await throws. A short list is a crash. */
  datatype Request =
    | Direct(wallet: WalletId, op: WalletOp, id: Option<RequestId>, locked: bool, env: WalletService.DirectEnv)
    | Transfer(saga: SagaId, from: WalletId, to: WalletId, amount: int, id: Option<RequestId>, throws: seq<bool>)

  function Drive(s: State, sid: SagaId, throws: seq<bool>): State
    decreases |throws|
  {
    if throws == [] then s
    else Drive(Step(s, if throws[0] then Fail(sid) else Advance(sid)), sid, throws[1..])
  }

  function Alone(db: Db): State {
    State(db, map[], map[])
  }

  function RunTransfer(db: Db, r: Request): State
    requires r.Transfer?
  {
    Drive(Step(Alone(db), Begin(r.saga, r.from, r.to, r.amount, r.id)), r.saga, r.throws)
  }

  function AnswerOf(s: State, sid: SagaId): Option<Reply> {
    if sid !in s.coords then None
    else
      match s.coords[sid].pc
      case Replied(reply) => Some(reply)
      case Returned => Some(OwnReply(sid, s.coords[sid]))
      case _ => None
  }

  /** The database after a request, and the client's answer unless it got an error. */
  function Serve(db: Db, r: Request): (Db, Option<Reply>) {
    match r
    case Direct(w, op, id, locked, env) =>
      var locks := if locked && id.Some? then {id.value} else {};
      var (db', reply) := WalletService.Served(db, locks, w, op, id, env);
      (db', if reply.Success? then Some(reply.value) else None)
    case Transfer(sid, _, _, _, _, _) =>
      var s := RunTransfer(db, r);
      (s.db, AnswerOf(s, sid))
  }

  function ServeAll(db: Db, rs: seq<Request>): Db
    decreases |rs|
  {
    if rs == [] then db else ServeAll(Serve(db, rs[0]).0, rs[1..])
  }

  predicate Repeats(db: Db, r: Request) {
    r.id.Some? && r.id.value in db.keys
  }

  /** The list without every request whose id has a stored answer when its turn comes. */
  function Pruned(db: Db, rs: seq<Request>): seq<Request>
    decreases |rs|
  {
    if rs == [] then []
    else (if Repeats(db, rs[0]) then [] else [rs[0]]) + Pruned(Serve(db, rs[0]).0, rs[1..])
  }

  // ---- a repetition changes nothing ----

  predicate Ended(pc: Pc) {
    pc.Replied? || pc == Returned || pc == Threw
  }

  lemma {:induction false} EndedStays(s: State, sid: SagaId, throws: seq<bool>)
    requires sid in s.coords && Ended(s.coords[sid].pc)
    ensures Drive(s, sid, throws) == s
    decreases |throws|
  {
    if throws != [] {
      var s' := Step(s, if throws[0] then Fail(sid) else Advance(sid));
      assert s'.coords == s.coords;
      EndedStays(s, sid, throws[1..]);
    }
  }

  /** The lookup comes first: a repetition leaves the database alone, and is answered with the
      stored response unless the lookup or the cache fails. */
  lemma RepetitionIsHarmless(db: Db, r: Request)
    requires Repeats(db, r)
    ensures Serve(db, r).0 == db
    ensures var stored := Some(db.keys[r.id.value]);
            match r
            case Direct(_, _, _, _, env) => Serve(db, r).1 == if env.lookupFails || env.cacheFails then None else stored
            case Transfer(sid, _, _, _, _, throws) =>
              sid !in db.sagas ==> Serve(db, r).1 == if throws == [] || throws[0] then None else stored
  {
    if r.Transfer? {
      var s := Step(Alone(db), Begin(r.saga, r.from, r.to, r.amount, r.id));
      if r.saga in db.sagas {
        NobodyHome(s, r.saga, r.throws);
      } else if r.throws != [] {
        var s' := Step(s, if r.throws[0] then Fail(r.saga) else Advance(r.saga));
        assert s'.db == db && Ended(s'.coords[r.saga].pc);
        EndedStays(s', r.saga, r.throws[1..]);
      }
    }
  }

  lemma {:induction false} NobodyHome(s: State, sid: SagaId, throws: seq<bool>)
    requires sid !in s.coords
    ensures Drive(s, sid, throws) == s
    decreases |throws|
  {
    if throws != [] {
      assert Step(s, if throws[0] then Fail(sid) else Advance(sid)) == s;
      NobodyHome(s, sid, throws[1..]);
    }
  }

  /** Running a list of requests is running it without the repetitions. */
  lemma {:induction false} RepetitionsDoNotMatter(db: Db, rs: seq<Request>)
    ensures ServeAll(db, rs) == ServeAll(db, Pruned(db, rs))
    decreases |rs|
  {
    if rs != [] {
      var db' := Serve(db, rs[0]).0;
      RepetitionsDoNotMatter(db', rs[1..]);
      if Repeats(db, rs[0]) {
        RepetitionIsHarmless(db, rs[0]);
        assert Pruned(db, rs) == Pruned(db', rs[1..]);
      } else {
        assert Pruned(db, rs)[1..] == Pruned(db', rs[1..]);
      }
    }
  }

  // ---- stored answers stay ----

  ghost predicate WillNotStore(s: State, sid: SagaId, id: RequestId) {
    sid in s.coords && s.coords[sid].request == Some(id) ==> s.coords[sid].pc.Checking? || Ended(s.coords[sid].pc)
  }

  lemma {:induction false} DriveKeepsKey(s: State, sid: SagaId, throws: seq<bool>, id: RequestId)
    requires id in s.db.keys && WillNotStore(s, sid, id)
    ensures id in Drive(s, sid, throws).db.keys && Drive(s, sid, throws).db.keys[id] == s.db.keys[id]
    decreases |throws|
  {
    if throws != [] {
      var s' := Step(s, if throws[0] then Fail(sid) else Advance(sid));
      if sid in s.coords {
        StepKeepsKey(s, sid, throws[0], id);
      }
      DriveKeepsKey(s', sid, throws[1..], id);
    }
  }

  lemma StepKeepsKey(s: State, sid: SagaId, throws: bool, id: RequestId)
    requires sid in s.coords && id in s.db.keys && WillNotStore(s, sid, id)
    ensures var s' := Step(s, if throws then Fail(sid) else Advance(sid));
            id in s'.db.keys && s'.db.keys[id] == s.db.keys[id] && WillNotStore(s', sid, id)
  {
  }

  lemma ServeKeepsKey(db: Db, r: Request, id: RequestId)
    requires id in db.keys
    ensures id in Serve(db, r).0.keys && Serve(db, r).0.keys[id] == db.keys[id]
  {
    if r.Transfer? {
      DriveKeepsKey(Step(Alone(db), Begin(r.saga, r.from, r.to, r.amount, r.id)), r.saga, r.throws, id);
    }
  }

  /** Once stored, an answer is stored for good, so a request is harmless from then on: however
      many others come between, its repetition finds the same answer. */
  lemma {:induction false} StoredForGood(db: Db, rs: seq<Request>, id: RequestId)
    requires id in db.keys
    ensures id in ServeAll(db, rs).keys && ServeAll(db, rs).keys[id] == db.keys[id]
    decreases |rs|
  {
    if rs != [] {
      ServeKeepsKey(db, rs[0], id);
      StoredForGood(Serve(db, rs[0]).0, rs[1..], id);
    }
  }

  // ---- when an answer is stored ----

  /** A direct request stores its answer exactly when it changes anything: the key is written
      in the same transaction. So it takes effect at most once. */
  lemma DirectStoresWithEffect(db: Db, r: Request)
    requires r.Direct? && r.id.Some? && !Repeats(db, r)
    ensures Serve(db, r).0 != db <==> r.id.value in Serve(db, r).0.keys
    ensures Serve(db, r).1.Some? ==> Serve(db, r).0.keys == db.keys[r.id.value := Serve(db, r).1.value]
  {
  }

  /** The first n awaits are reached, and none of them throws. */
  predicate Goes(throws: seq<bool>, n: nat) {
    n <= |throws| && forall i | 0 <= i < n :: !throws[i]
  }

  lemma GoesOn(throws: seq<bool>, n: nat)
    ensures n > 0 && throws != [] ==> (Goes(throws, n) <==> !throws[0] && Goes(throws[1..], n - 1))
    ensures throws == [] ==> (Goes(throws, n) <==> n == 0)
  {
    if n > 0 && throws != [] && !throws[0] && Goes(throws[1..], n - 1) {
      forall i | 0 <= i < n
        ensures !throws[i]
      {
        assert i > 0 ==> throws[i] == throws[1..][i - 1];
      }
    }
  }

  /** How many awaits away the credit is, and the end. */
  function ToCredit(pc: Pc): nat {
    match pc
    case Checking => 7
    case Validating => 6
    case Opening(_) => 5
    case Creating(_) => 4
    case Debiting => 3
    case DebitCache => 2
    case Crediting => 1
    case _ => 0
  }

  /** A request without an id stores no answer; its last await is the cache after the credit. */
  function ToEnd(c: Coord): nat {
    var rest := if c.request.Some? then 2 else 1;
    if c.pc == CreditCache then rest
    else if c.pc == SavingKey then 1
    else if ToCredit(c.pc) > 0 then ToCredit(c.pc) + rest
    else 0
  }

  /** The coordinator has met no error yet, and the database is as it left it. */
  predicate OnWay(db: Db, sid: SagaId, c: Coord) {
    match c.pc
    case Checking => sid !in db.sagas && c.request.Some? && c.request.value !in db.keys
    case Validating => sid !in db.sagas && c.from != c.to
    case Opening(cur) => sid !in db.sagas && c.from != c.to && c.from in db.wallets && db.wallets[c.from].currency == cur
    case Creating(cur) =>
      && sid !in db.sagas && c.from != c.to && c.from in db.wallets && db.wallets[c.from].currency == cur
      && c.to in db.wallets && db.wallets[c.to].currency == cur
    case Debiting => IsSaga(db, sid, Pending, c.from, c.to, c.amount)
    case DebitCache => IsSaga(db, sid, SagaState.Debited, c.from, c.to, c.amount) && c.amount > 0
    case Crediting => IsSaga(db, sid, SagaState.Debited, c.from, c.to, c.amount) && c.amount > 0
    case CreditCache => IsSaga(db, sid, Completed, c.from, c.to, c.amount)
    case SavingKey => IsSaga(db, sid, Completed, c.from, c.to, c.amount) && c.request.Some?
    case _ => false
  }

  /** Nothing in the database stands against the rest of the transfer. */
  predicate Possible(db: Db, c: Coord) {
    match c.pc
    case Debiting =>
      && c.from in db.wallets && ApplyOp(db.wallets[c.from], Withdraw(c.amount), db.today).Success?
      && c.to in db.wallets && db.wallets[c.to].status == Active
    case DebitCache => c.to in db.wallets && db.wallets[c.to].status == Active
    case Crediting => c.to in db.wallets && db.wallets[c.to].status == Active
    case CreditCache => true
    case SavingKey => true
    case _ => Transferable(db, c.from, c.to, c.amount)
  }

  /** Error handling is under way or over. */
  predicate OffWay(db: Db, sid: SagaId, pc: Pc) {
    || pc in {Reloading, Refunding, Publishing, Threw}
    || (pc == Failing && sid in db.sagas && db.sagas[sid].state == Pending)
  }

  lemma OffWayStep(s: State, sid: SagaId, throws: bool)
    requires sid in s.coords && OffWay(s.db, sid, s.coords[sid].pc)
    ensures var s' := Step(s, if throws then Fail(sid) else Advance(sid));
            && sid in s'.coords && OffWay(s'.db, sid, s'.coords[sid].pc)
            && s'.db.keys == s.db.keys && (IsCompleted(s'.db, sid) <==> IsCompleted(s.db, sid))
  {
  }

  /** From there no transfer completes, and no answer is stored or given. */
  lemma {:induction false} NothingMore(s: State, sid: SagaId, throws: seq<bool>)
    requires sid in s.coords && OffWay(s.db, sid, s.coords[sid].pc)
    ensures var t := Drive(s, sid, throws);
            && t.db.keys == s.db.keys && (IsCompleted(t.db, sid) <==> IsCompleted(s.db, sid))
            && AnswerOf(t, sid).None?
    decreases |throws|
  {
    if throws != [] {
      OffWayStep(s, sid, throws[0]);
      NothingMore(Step(s, if throws[0] then Fail(sid) else Advance(sid)), sid, throws[1..]);
    }
  }

  predicate AtLast(c: Coord) {
    c.pc == SavingKey || (c.pc == CreditCache && c.request.None?)
  }

  /** What one await that does not throw, before the last, does. */
  ghost predicate Moves(s: State, s': State, sid: SagaId)
    requires sid in s.coords
  {
    var c := s.coords[sid];
    && sid in s'.coords && s'.coords[sid].(pc := c.pc) == c && s'.db.keys == s.db.keys
    && (IsCompleted(s'.db, sid) <==> c.pc == CreditCache || (c.pc == Crediting && Possible(s.db, c)))
    && if OnWay(s'.db, sid, s'.coords[sid]) then
         && (Possible(s'.db, s'.coords[sid]) <==> Possible(s.db, c))
         && (c.pc != CreditCache ==> ToCredit(s'.coords[sid].pc) == ToCredit(c.pc) - 1)
         && (c.pc == CreditCache ==> ToCredit(s'.coords[sid].pc) == 0)
         && ToEnd(s'.coords[sid]) == ToEnd(c) - 1
       else !Possible(s.db, c) && OffWay(s'.db, sid, s'.coords[sid].pc)
  }

  lemma EarlyStep(s: State, sid: SagaId)
    requires sid in s.coords && OnWay(s.db, sid, s.coords[sid]) && sid !in s.db.sagas
    ensures Moves(s, Step(s, Advance(sid)), sid)
  {
  }

  lemma LegStep(s: State, sid: SagaId)
    requires sid in s.coords && OnWay(s.db, sid, s.coords[sid]) && s.coords[sid].pc in {Debiting, Crediting}
    ensures Moves(s, Step(s, Advance(sid)), sid)
  {
  }

  /** Nearer to both ends, or off the way because the database stands against it. */
  lemma OnWayStep(s: State, sid: SagaId)
    requires sid in s.coords && OnWay(s.db, sid, s.coords[sid]) && !AtLast(s.coords[sid])
    ensures Moves(s, Step(s, Advance(sid)), sid)
  {
    if sid !in s.db.sagas {
      EarlyStep(s, sid);
    } else if s.coords[sid].pc in {Debiting, Crediting} {
      LegStep(s, sid);
    }
  }

  lemma ThrowStep(s: State, sid: SagaId)
    requires sid in s.coords && OnWay(s.db, sid, s.coords[sid])
    ensures var s' := Step(s, Fail(sid)); s'.db == s.db && sid in s'.coords && OffWay(s'.db, sid, s'.coords[sid].pc)
  {
  }

  lemma LastStep(s: State, sid: SagaId, throws: seq<bool>)
    requires sid in s.coords && OnWay(s.db, sid, s.coords[sid]) && AtLast(s.coords[sid])
    ensures var c := s.coords[sid];
            var t := Drive(Step(s, Advance(sid)), sid, throws);
            && t.db.sagas == s.db.sagas
            && t.db.keys == (if c.request.Some? then s.db.keys[c.request.value := OwnReply(sid, c)] else s.db.keys)
            && AnswerOf(t, sid) == Some(OwnReply(sid, c))
  {
    EndedStays(Step(s, Advance(sid)), sid, throws);
  }

  lemma {:induction false} DriveExactly(s: State, sid: SagaId, throws: seq<bool>)
    requires sid in s.coords && OnWay(s.db, sid, s.coords[sid])
    ensures var t, c := Drive(s, sid, throws), s.coords[sid];
            var credited := Possible(s.db, c) && Goes(throws, ToCredit(c.pc));
            var ends := Possible(s.db, c) && Goes(throws, ToEnd(c));
            && (IsCompleted(t.db, sid) <==> credited)
            && t.db.keys == (if ends && c.request.Some? then s.db.keys[c.request.value := OwnReply(sid, c)] else s.db.keys)
            && AnswerOf(t, sid) == (if ends then Some(OwnReply(sid, c)) else None)
    decreases |throws|
  {
    var c := s.coords[sid];
    GoesOn(throws, ToCredit(c.pc));
    GoesOn(throws, ToEnd(c));
    if throws != [] {
      if throws[0] {
        ThrowStep(s, sid);
        NothingMore(Step(s, Fail(sid)), sid, throws[1..]);
      } else if AtLast(c) {
        LastStep(s, sid, throws[1..]);
      } else {
        OnWayStep(s, sid);
        var s' := Step(s, Advance(sid));
        if OnWay(s'.db, sid, s'.coords[sid]) {
          DriveExactly(s', sid, throws[1..]);
        } else {
          NothingMore(s', sid, throws[1..]);
        }
      }
    }
  }

  /** The awaits up to the credit, and all of them: a request without an id has no lookup and no key. */
  function UpToCredit(r: Request): nat {
    if r.id.Some? then 7 else 6
  }

  function UpToEnd(r: Request): nat {
    if r.id.Some? then 9 else 7
  }

  /** A transfer that is no repetition completes exactly when it is possible and its awaits up to the
      credit, the seventh after a lookup or else the sixth, are reached without throwing; it returns
      its answer, and stores it if it has an id, exactly when the awaits after the credit, cache
      and key, are as well. */
  lemma TransferStoresExactly(db: Db, r: Request)
    requires r.Transfer? && r.saga !in db.sagas && !Repeats(db, r)
    ensures var (after, answer) := Serve(db, r);
            var possible, reply := Transferable(db, r.from, r.to, r.amount), TransferReply(r.saga, r.from, r.to, r.amount);
            var ends := possible && Goes(r.throws, UpToEnd(r));
            && (IsCompleted(after, r.saga) <==> possible && Goes(r.throws, UpToCredit(r)))
            && after.keys == (if ends && r.id.Some? then db.keys[r.id.value := reply] else db.keys)
            && answer == (if ends then Some(reply) else None)
  {
    var s := Step(Alone(db), Begin(r.saga, r.from, r.to, r.amount, r.id));
    if r.id.None? && r.from == r.to {
      NothingMore(s, r.saga, r.throws);
    } else {
      DriveExactly(s, r.saga, r.throws);
    }
  }

  /** So the money has moved, the client has no answer and none is stored exactly when one of the two
      awaits after the credit, cache or key, throws or is never reached. The next request with
      the same id is then no repetition, and moves the money again exactly when that is possible. */
  lemma TransferMayCompleteUnstored(db: Db, r: Request, again: Request)
    requires r.Transfer? && r.saga !in db.sagas && !Repeats(db, r) && r.id.Some?
    requires again.Transfer? && again.id == r.id && again.saga !in Serve(db, r).0.sagas
    ensures var (after, answer) := Serve(db, r);
            var unstored := Transferable(db, r.from, r.to, r.amount) && Goes(r.throws, 7) && !Goes(r.throws, 9);
            && (IsCompleted(after, r.saga) && r.id.value !in after.keys <==> unstored)
            && (unstored ==>
                  && answer.None? && !Repeats(after, again)
                  && (IsCompleted(Serve(after, again).0, again.saga)
                      <==> Transferable(after, again.from, again.to, again.amount) && Goes(again.throws, 7)))
  {
    TransferStoresExactly(db, r);
    var after := Serve(db, r).0;
    if r.id.value !in after.keys {
      TransferStoresExactly(after, again);
    }
  }
}
