/** The transfer service's own control flow. Each await also records the step of SagaSystem it
    performs, so what a call leaves in the database is what a run of that system leaves, and
    everything proved about runs holds of the calls. */
module TransferService {
  import opened Basics
  import opened Wallets
  import opened Store
  import opened Ledger
  import opened SagaSystem
  import opened SagaEntity
  import opened Transactions
  import opened Retry
  import opened TransferOutcome

  /** The i-th step of a recorded history is a step of the system. */
  ghost predicate StepAt(path: seq<State>, trace: seq<Action>, i: nat)
    requires i < |trace| && |path| == |trace| + 1
  {
    path[i + 1] == Step(path[i], trace[i])
  }

  ghost predicate InvAt(path: seq<State>, i: nat)
    requires i < |path|
  {
    Inv(path[i])
  }

  ghost predicate History(path: seq<State>, trace: seq<Action>) {
    && |path| == |trace| + 1
    && (forall i: nat | i < |path| :: InvAt(path, i))
    && (forall i: nat | i < |trace| :: StepAt(path, trace, i))
  }

  /** A recorded history is a run of the system. */
  lemma {:induction false} HistoryIsRun(path: seq<State>, trace: seq<Action>, k: nat)
    requires History(path, trace) && k <= |trace|
    ensures path[k] == Run(path[0], trace[..k])
  {
    if k > 0 {
      HistoryIsRun(path, trace, k - 1);
      assert StepAt(path, trace, k - 1);
      assert trace[..k][..k - 1] == trace[..k - 1];
    }
  }

  lemma HistoryGrows(path: seq<State>, trace: seq<Action>, a: Action)
    requires History(path, trace)
    ensures History(path + [Step(path[|path| - 1], a)], trace + [a])
  {
    var last := path[|path| - 1];
    assert InvAt(path, |path| - 1);
    StepKeeps(last, a);
    var path', trace' := path + [Step(last, a)], trace + [a];
    forall i: nat | i < |path'|
      ensures InvAt(path', i)
    {
      assert i < |path| ==> InvAt(path, i);
    }
    forall i: nat | i < |trace'|
      ensures StepAt(path', trace', i)
    {
      assert i < |trace| ==> StepAt(path, trace, i);
    }
  }

  function AfterLeg(leg: Leg): Pc {
    match leg
    case Debit => DebitCache
    case Pay => CreditCache
    case Refund => Publishing
  }

  class TransferSagaService {
    const database: Database
    const runner: LegRunner
    const jitter: nat -> real
    ghost var state: State
    ghost var path: seq<State>
    ghost var trace: seq<Action>

    function Tries(): nat {
      if runner.maxRetries < 0 then 0 else runner.maxRetries
    }

    /** The database is in the last state of a run of the system. */
    ghost predicate Valid()
      reads this, database
    {
      && runner.database == database
      && runner.initialBackoff >= 0.0
      && (forall i :: 0.0 <= jitter(i) < 100.0)
      && History(path, trace)
      && state == path[|path| - 1]
      && state.db == database.db
    }

    constructor (database: Database, maxRetries: int, initialBackoff: real, jitter: nat -> real, ghost start: State)
      requires initialBackoff >= 0.0 && forall i :: 0.0 <= jitter(i) < 100.0
      requires Inv(start) && start.db == database.db
      ensures Valid() && this.database == database && this.runner.maxRetries == maxRetries
      ensures state == start && path == [start] && trace == []
    {
      this.database, this.jitter := database, jitter;
      this.runner := new LegRunner(database, maxRetries, initialBackoff);
      this.state, this.path, this.trace := start, [start], [];
    }

    ghost method Note(a: Action)
      requires History(path, trace) && state == path[|path| - 1]
      modifies this`state, this`path, this`trace
      ensures History(path, trace) && state == path[|path| - 1]
      ensures trace == old(trace) + [a] && path == old(path) + [state]
      ensures state == Step(old(state), a)
    {
      HistoryGrows(path, trace, a);
      state := Step(state, a);
      path, trace := path + [state], trace + [a];
    }

    /** The coordinator of `sid`, at `c`, performs its next await, or sees it fail. */
    ghost method NoteCoord(sid: SagaId, c: Coord, fails: bool)
      requires History(path, trace) && state == path[|path| - 1]
      requires IsAt(sid, c)
      modifies this`state, this`path, this`trace
      ensures History(path, trace) && state == path[|path| - 1]
      ensures trace == old(trace) + [if fails then Fail(sid) else Advance(sid)] && path == old(path) + [state]
      ensures state.db == if fails then old(state.db) else Do(old(state.db), CoordAct(sid, c))
      ensures IsAt(sid, c.(pc := if fails then AfterThrow(c) else AfterSuccess(old(state.db), sid, c)))
    {
      Note(if fails then Fail(sid) else Advance(sid));
    }

    /** What the invariant says of that coordinator. */
    lemma Current(sid: SagaId, c: Coord)
      requires History(path, trace) && state == path[|path| - 1] && IsAt(sid, c)
      ensures CoordOk(state.db, sid, c) && DbInv(state.db)
    {
      assert InvAt(path, |path| - 1);
    }

    lemma CurrentSaga(sid: SagaId, c: Coord)
      requires History(path, trace) && state == path[|path| - 1] && IsAt(sid, c)
      ensures CoordOk(state.db, sid, c)
      ensures sid in state.db.sagas && Moved(state.db.sagas[sid].state) ==> state.db.sagas[sid].amount > 0
    {
      Current(sid, c);
      if sid in state.db.sagas {
        assert SagaShape(state.db.wallets, state.db.sagas[sid]);
      }
    }

    /** The coordinator of saga `sid` is at `c`. */
    ghost predicate IsAt(sid: SagaId, c: Coord)
      reads this
    {
      sid in state.coords && state.coords[sid] == c
    }

    /** Only the named steps were added to the history. */
    twostate predicate OnlySteps(sid: SagaId, begun: Option<Action>)
      reads this
    {
      && old(trace) <= trace
      && forall i | |old(trace)| <= i < |trace| ::
           trace[i] == Advance(sid) || trace[i] == Fail(sid) || begun == Some(trace[i])
    }

    /** One leg with its retries: the coordinator moves on, or to its error handling. */
    method RunCoordLeg(ghost c: Coord, call: LegCall, faults: nat -> Option<Fault>) returns (thrown: Option<Thrown>)
      requires Valid() && IsAt(call.saga, c)
      requires CoordAct(call.saga, c) == Some(RunLeg(call.saga, call.leg, call.wallet, call.amount))
      modifies this`state, this`path, this`trace, database
      ensures Valid() && OnlySteps(call.saga, None)
      ensures thrown.None? ==> Outcome(old(database.db), call) == Success(database.db)
      ensures thrown.Some? ==> database.db == old(database.db)
      ensures (database.db, thrown) == LegRun(old(database.db), call, faults, Tries())
      ensures IsAt(call.saga, c.(pc := if thrown.None? then AfterLeg(call.leg) else AfterThrow(c)))
    {
      var attempts, waited;
      thrown, attempts, waited := runner.Execute(call, faults, jitter);
      BusinessMeansRefused(old(database.db), call, faults, 0, Tries());
      NoteCoord(call.saga, c, thrown.Some? && !thrown.value.Business?);
    }

    method DebitFromSender(sid: SagaId, ghost c: Coord, from: WalletId, amount: int, env: TransferEnv)
      returns (thrown: Option<Thrown>)
      requires Valid() && IsAt(sid, c) && c.pc == Debiting && c.from == from && c.amount == amount
      modifies this`state, this`path, this`trace, database
      ensures Valid() && OnlySteps(sid, None)
      ensures IsAt(sid, c.(pc := if thrown.None? then Crediting else Reloading))
      ensures (database.db, thrown) == DebitRun(old(database.db), sid, from, amount, env, Tries())
    {
      thrown := RunCoordLeg(c, LegCall(sid, Debit, from, amount), env.debitFaults);
      if thrown.Some? { return; }
      NoteCoord(sid, c.(pc := DebitCache), env.debitCacheFails);
      if env.debitCacheFails { thrown := Some(Broken); }
    }

    method CreditToReceiver(sid: SagaId, ghost c: Coord, to: WalletId, amount: int, env: TransferEnv)
      returns (thrown: Option<Thrown>)
      requires Valid() && IsAt(sid, c) && c.pc == Crediting && c.to == to && c.amount == amount
      modifies this`state, this`path, this`trace, database
      ensures Valid() && OnlySteps(sid, None)
      ensures IsAt(sid, c.(pc := if thrown.None? then AfterCredit(c) else Reloading))
      ensures (database.db, thrown) == PayRun(old(database.db), sid, to, amount, env, Tries())
    {
      thrown := RunCoordLeg(c, LegCall(sid, Pay, to, amount), env.creditFaults);
      if thrown.Some? { return; }
      NoteCoord(sid, c.(pc := CreditCache), env.creditCacheFails);
      if env.creditCacheFails { thrown := Some(Broken); }
    }

    method Compensate(sid: SagaId, ghost c: Coord, from: WalletId, amount: int, env: TransferEnv)
      returns (thrown: Option<Thrown>)
      requires Valid() && IsAt(sid, c) && c.pc == Refunding && c.from == from && c.amount == amount
      modifies this`state, this`path, this`trace, database
      ensures Valid() && OnlySteps(sid, None)
      ensures IsAt(sid, c.(pc := Threw))
      ensures (database.db, thrown) == RefundRun(old(database.db), sid, from, amount, env, Tries())
    {
      thrown := RunCoordLeg(c, LegCall(sid, Refund, from, amount), env.refundFaults);
      if thrown.Some? { return; }
      NoteCoord(sid, c.(pc := Publishing), env.publishFails);
      if env.publishFails { thrown := Some(Broken); }
    }

    /** The error handler: read the saga again and undo, give up, or leave it alone. */
    method HandleFailure(sid: SagaId, ghost c: Coord, env: TransferEnv) returns (thrown: Option<Thrown>)
      requires Valid() && IsAt(sid, c) && c.pc == Reloading
      modifies this`state, this`path, this`trace, database
      ensures Valid() && OnlySteps(sid, None)
      ensures IsAt(sid, c.(pc := Threw))
      ensures (database.db, thrown) == Undo(old(database.db), sid, env, Tries())
    {
      NoteCoord(sid, c, env.reloadFails);
      if env.reloadFails { return Some(Broken); }
      assert Matches(database.db, sid, c) && database.db.sagas[sid].state != Failed by {
        ReloadedMatches(sid, c);
      }
      var reading := new TransactionContext(database);
      var saga := reading.FindSaga(sid);
      if saga.state == SagaState.Debited {
        thrown := Compensate(sid, c.(pc := Refunding), saga.from, saga.amount, env);
      } else if saga.state != Completed && saga.state != Compensated && saga.state != Failed {
        thrown := GiveUp(sid, c.(pc := Failing), saga, env);
      } else {
        thrown := None;
      }
    }

    /** Mark the saga FAILED and save it, outside any transaction. */
    method GiveUp(sid: SagaId, ghost c: Coord, saga: TransferSaga, env: TransferEnv) returns (thrown: Option<Thrown>)
      requires Valid() && IsAt(sid, c) && c.pc == Failing
      requires sid in database.db.sagas && saga.Row() == database.db.sagas[sid]
      modifies this`state, this`path, this`trace, database, saga
      ensures Valid() && OnlySteps(sid, None)
      ensures IsAt(sid, c.(pc := Threw))
      ensures database.db == if env.saveFails then old(database.db) else Apply(old(database.db), MarkFailed(sid))
      ensures thrown == if env.saveFails then Some(Broken) else None
    {
      saga.MarkAsFailed();
      if !env.saveFails {
        database.db := database.db.(sagas := database.db.sagas[sid := saga.Row()]);
      }
      NoteCoord(sid, c, env.saveFails);
      thrown := if env.saveFails then Some(Broken) else None;
    }

    /** The coordinator was at its reload one step ago. */
    lemma ReloadedMatches(sid: SagaId, c: Coord)
      requires History(path, trace) && |trace| > 0 && path[|path| - 2].db == state.db
      requires sid in path[|path| - 2].coords && path[|path| - 2].coords[sid] == c && c.pc == Reloading
      ensures Matches(state.db, sid, c) && state.db.sagas[sid].state != Failed
    {
      assert InvAt(path, |path| - 2);
      assert CoordOk(path[|path| - 2].db, sid, c);
    }

    /** Get or create the receiver, in a transaction of its own. */
    method OpenReceiver(to: WalletId, currency: Currency) returns (found: Currency)
      requires WalletsOk(database.db.wallets, database.db.events, database.db.today)
      modifies database
      ensures database.db == Ensure(old(database.db), to, currency)
      ensures to in database.db.wallets && found == database.db.wallets[to].currency
    {
      var ctx := new TransactionContext(database);
      if to !in ctx.work.wallets {
        NoOrphans(ctx.work.events, to);
      }
      var wallet := ctx.GetOrCreate(to, currency);
      found := wallet.currency;
      ctx.Commit(database);
      assert database.db.outbox == old(database.db.outbox);
    }

    method CreateSaga(sid: SagaId, from: WalletId, to: WalletId, amount: int, currency: Currency)
      modifies database
      ensures database.db == NewSagaTx(old(database.db), sid, from, to, amount, currency)
    {
      var ctx := new TransactionContext(database);
      var saga := new TransferSaga.Load(Saga(from, to, amount, currency, Pending));
      ctx.SaveSaga(sid, saga);
      ctx.PublishEvent(OutboxRow(from, TransferInitiated, Some(amount), Some(sid)));
      ctx.Commit(database);
    }

    /** The stored response, if the request has one. */
    method CheckIdempotency(sid: SagaId, ghost c: Coord, request: Option<RequestId>, env: TransferEnv)
      returns (early: Option<Result<Reply, TransferError>>)
      requires Valid() && IsAt(sid, c) && c.request == request && c.pc == FirstPc(c.from, c.to, request)
      modifies this`state, this`path, this`trace
      ensures Valid() && OnlySteps(sid, None)
      ensures match early
              case None => IsAt(sid, c.(pc := if c.from == c.to then Threw else Validating))
              case Some(Success(reply)) => IsAt(sid, c.(pc := Replied(reply)))
              case Some(Failure(_)) => IsAt(sid, c.(pc := Threw))
      ensures early == Early(database.db, request, env)
    {
      if request.None? { return None; }
      NoteCoord(sid, c, env.lookupFails);
      if env.lookupFails {
        early := Some(Failure(Infrastructure));
      } else if request.value in database.db.keys {
        early := Some(Success(database.db.keys[request.value]));
      } else {
        early := None;
      }
    }

    /** Read the sender, get or create the receiver, compare their currencies. */
    method FindWallets(sid: SagaId, ghost c: Coord, from: WalletId, to: WalletId, env: TransferEnv)
      returns (r: Result<Currency, TransferError>)
      requires Valid() && IsAt(sid, c) && c.pc == Validating && c.from == from && c.to == to
      modifies this`state, this`path, this`trace, database
      ensures Valid() && OnlySteps(sid, None)
      ensures IsAt(sid, c.(pc := if r.Success? then Creating(r.value) else Threw))
      ensures database.db.sagas == old(database.db.sagas)
      ensures (database.db, r) == Prepared(old(database.db), from, to, env)
    {
      NoteCoord(sid, c, env.findFails);
      if env.findFails { return Failure(Infrastructure); }
      if from !in database.db.wallets { return Failure(NoSuchWallet); }
      var currency := database.db.wallets[from].currency;

      if env.openFails {
        NoteCoord(sid, c.(pc := Opening(currency)), true);
        return Failure(Infrastructure);
      }
      assert WalletsOk(database.db.wallets, database.db.events, database.db.today) by {
        Current(sid, c.(pc := Opening(currency)));
      }
      var found := OpenReceiver(to, currency);
      NoteCoord(sid, c.(pc := Opening(currency)), false);
      r := if found != currency then Failure(CurrencyMismatch) else Success(currency);
    }

    /** Insert the saga, with its announcement in the same transaction. */
    method InsertSaga(sid: SagaId, ghost c: Coord, from: WalletId, to: WalletId, amount: int,
                     currency: Currency, env: TransferEnv)
      returns (done: bool)
      requires Valid() && IsAt(sid, c) && c.pc == Creating(currency)
      requires c.from == from && c.to == to && c.amount == amount
      modifies this`state, this`path, this`trace, database
      ensures Valid() && OnlySteps(sid, None)
      ensures IsAt(sid, c.(pc := if done then Debiting else Threw))
      ensures database.db == if done then NewSagaTx(old(database.db), sid, from, to, amount, currency) else old(database.db)
      ensures done == !env.createFails
    {
      if !env.createFails {
        CreateSaga(sid, from, to, amount, currency);
      }
      NoteCoord(sid, c, env.createFails);
      done := !env.createFails;
    }

    /** Store the answer under the request's id, outside any other transaction. */
    method SaveKey(sid: SagaId, ghost c: Coord, reply: Reply, request: Option<RequestId>, env: TransferEnv)
      returns (thrown: Option<Thrown>)
      requires Valid() && IsAt(sid, c) && c.pc == AfterCredit(c) && c.request == request && reply == OwnReply(sid, c)
      modifies this`state, this`path, this`trace, database
      ensures Valid() && OnlySteps(sid, None)
      ensures IsAt(sid, c.(pc := if thrown.None? then Returned else Reloading))
      ensures (database.db, thrown) == KeyRun(old(database.db), request, reply, env)
    {
      if request.None? { return None; }
      thrown := if env.keyFails then Some(Broken) else None;
      if !env.keyFails {
        database.db := database.db.(keys := database.db.keys[request.value := reply]);
      }
      NoteCoord(sid, c, env.keyFails);
    }

    /** The part that error handling surrounds: both legs, then the key. */
    method RunLegs(sid: SagaId, ghost c: Coord, from: WalletId, to: WalletId, amount: int,
                     request: Option<RequestId>, env: TransferEnv)
      returns (thrown: Option<Thrown>)
      requires Valid() && IsAt(sid, c)
      requires c == Coord(from, to, amount, request, Debiting)
      modifies this`state, this`path, this`trace, database
      ensures Valid() && OnlySteps(sid, None)
      ensures IsAt(sid, c.(pc := if thrown.None? then Returned else Reloading))
      ensures (database.db, thrown) == LegsRun(old(database.db), sid, from, to, amount, request, env, Tries())
    {
      thrown := DebitFromSender(sid, c, from, amount, env);
      if thrown.Some? { return; }
      thrown := CreditToReceiver(sid, c.(pc := Crediting), to, amount, env);
      if thrown.Some? { return; }
      thrown := SaveKey(sid, c.(pc := AfterCredit(c)), TransferReply(sid, from, to, amount), request, env);
    }

    method RunSaga(sid: SagaId, ghost c: Coord, from: WalletId, to: WalletId, amount: int,
                     request: Option<RequestId>, env: TransferEnv)
      returns (thrown: Option<Thrown>)
      requires Valid() && IsAt(sid, c)
      requires c == Coord(from, to, amount, request, Debiting)
      modifies this`state, this`path, this`trace, database
      ensures Valid() && OnlySteps(sid, None)
      ensures IsAt(sid, c.(pc := if thrown.None? then Returned else Threw))
      ensures (database.db, thrown) == SagaRun(old(database.db), sid, from, to, amount, request, env, Tries())
    {
      thrown := RunLegs(sid, c, from, to, amount, request, env);
      if thrown.Some? {
        var worse := HandleFailure(sid, c.(pc := Reloading), env);
        if worse.Some? { thrown := worse; }
      }
    }

    /** Everything before the first leg; errors here are simply thrown. */
    method OpenTransfer(sid: SagaId, ghost c: Coord, from: WalletId, to: WalletId, amount: int, env: TransferEnv)
      returns (refused: Option<TransferError>)
      requires Valid() && IsAt(sid, c) && c.pc == Validating
      requires c.from == from && c.to == to && c.amount == amount
      modifies this`state, this`path, this`trace, database
      ensures Valid() && OnlySteps(sid, None)
      ensures IsAt(sid, c.(pc := if refused.None? then Debiting else Threw))
      ensures (database.db, refused) == Created(old(database.db), sid, from, to, amount, env)
    {
      var currency := FindWallets(sid, c, from, to, env);
      if currency.Failure? { return Some(currency.error); }
      var created := InsertSaga(sid, c.(pc := Creating(currency.value)), from, to, amount, currency.value, env);
      refused := if created then None else Some(Infrastructure);
    }

    /** A whole transfer: whatever fails, database and answer are those of `Executed`, and the call is
        a run of the system, so that a returned answer is true of the database. */
    method ExecuteTransfer(sid: SagaId, from: WalletId, to: WalletId, amount: int,
                     request: Option<RequestId>, env: TransferEnv)
      returns (r: Result<Reply, TransferError>)
      requires Valid() && sid !in state.coords && sid !in database.db.sagas
      modifies this`state, this`path, this`trace, database
      ensures Valid() && OnlySteps(sid, Some(Begin(sid, from, to, amount, request)))
      ensures sid in state.coords
      ensures var c := state.coords[sid];
              if r.Failure? then c.pc == Threw
              else c.pc == Replied(r.value) || (c.pc == Returned && r.value == TransferReply(sid, from, to, amount))
      ensures r.Success? ==> ReplyTrue(database.db, r.value)
      ensures (database.db, r) == Executed(old(database.db), sid, from, to, amount, request, env, Tries())
    {
      ghost var c := Coord(from, to, amount, request, FirstPc(from, to, request));
      Note(Begin(sid, from, to, amount, request));
      var early := CheckIdempotency(sid, c, request, env);
      if early.Some? {
        CurrentSaga(sid, state.coords[sid]);
        return early.value;
      }
      if from == to { return Failure(SameWallet); }
      r := MoveMoney(sid, c.(pc := Validating), from, to, amount, request, env);
    }

    /** A transfer that was not answered from the stored responses. */
    method MoveMoney(sid: SagaId, ghost c: Coord, from: WalletId, to: WalletId, amount: int,
                     request: Option<RequestId>, env: TransferEnv)
      returns (r: Result<Reply, TransferError>)
      requires Valid() && IsAt(sid, c) && c == Coord(from, to, amount, request, Validating) && from != to
      modifies this`state, this`path, this`trace, database
      ensures Valid() && OnlySteps(sid, None)
      ensures IsAt(sid, c.(pc := if r.Success? then Returned else Threw))
      ensures r.Success? ==> r.value == TransferReply(sid, from, to, amount) && ReplyTrue(database.db, r.value)
      ensures (database.db, r) == Transferred(old(database.db), sid, from, to, amount, request, env, Tries())
    {
      var refused := OpenTransfer(sid, c, from, to, amount, env);
      if refused.Some? { return Failure(refused.value); }
      var thrown := RunSaga(sid, c.(pc := Debiting), from, to, amount, request, env);
      if thrown.Some? { return Failure(SagaThrew(thrown.value)); }
      CurrentSaga(sid, c.(pc := Returned));
      r := Success(TransferReply(sid, from, to, amount));
    }

    // ---- recovery ----

    twostate predicate OnlyWork(rid: nat, sid: SagaId)
      reads this
    {
      && old(trace) <= trace
      && forall i | |old(trace)| <= i < |trace| ::
           trace[i] == Recover(rid, sid) || trace[i] == WorkerAdvance(rid) || trace[i] == WorkerFail(rid)
    }

    ghost predicate Works(rid: nat, w: Recovery)
      reads this
    {
      rid in state.recs && state.recs[rid] == w
    }

    /** The worker `rid`, at `w`, performs its next await, or sees it fail. */
    ghost method NoteWorker(rid: nat, w: Recovery, fails: bool)
      requires History(path, trace) && state == path[|path| - 1]
      requires Works(rid, w)
      modifies this`state, this`path, this`trace
      ensures History(path, trace) && state == path[|path| - 1]
      ensures trace == old(trace) + [if fails then WorkerFail(rid) else WorkerAdvance(rid)] && path == old(path) + [state]
      ensures state.db == if fails then old(state.db) else Do(old(state.db), WorkerAct(w))
      ensures state.recs.Keys == old(state.recs).Keys
      ensures Works(rid, w.(pc := if fails then WorkerAfterThrow(w) else WorkerAfterSuccess(old(state.db), w)))
    {
      Note(if fails then WorkerFail(rid) else WorkerAdvance(rid));
    }

    method RunWorkerLeg(ghost rid: nat, ghost w: Recovery, call: LegCall, faults: nat -> Option<Fault>)
      returns (thrown: Option<Thrown>)
      requires Valid() && Works(rid, w)
      requires WorkerAct(w) == Some(RunLeg(call.saga, call.leg, call.wallet, call.amount))
      modifies this`state, this`path, this`trace, database
      ensures Valid() && OnlyWork(rid, w.saga) && state.recs.Keys == old(state.recs).Keys
      ensures thrown.None? ==> Outcome(old(database.db), call) == Success(database.db)
      ensures thrown.Some? ==> database.db == old(database.db)
      ensures (database.db, thrown) == LegRun(old(database.db), call, faults, Tries())
      ensures Works(rid, w.(pc := if thrown.Some? then WorkerAfterThrow(w) else if call.leg == Pay then PayCache else Announcing))
    {
      var attempts, waited;
      thrown, attempts, waited := runner.Execute(call, faults, jitter);
      BusinessMeansRefused(old(database.db), call, faults, 0, Tries());
      NoteWorker(rid, w, thrown.Some? && !thrown.value.Business?);
    }

    /** What a worker does when paying did not return normally. */
    method GiveBack(ghost rid: nat, ghost w: Recovery, sid: SagaId, from: WalletId, amount: int, env: RecoveryEnv)
      returns (thrown: Option<Thrown>)
      requires Valid() && Works(rid, w)
      requires w.pc == GivingBack && w.saga == sid && w.seen.from == from && w.seen.amount == amount
      modifies this`state, this`path, this`trace, database
      ensures Valid() && OnlyWork(rid, sid) && state.recs.Keys == old(state.recs).Keys
      ensures (database.db, thrown)
           == Tail(LegRun(old(database.db), LegCall(sid, Refund, from, amount), env.refundFaults, Tries()), env.publishFails)
    {
      thrown := RunWorkerLeg(rid, w, LegCall(sid, Refund, from, amount), env.refundFaults);
      if thrown.None? {
        NoteWorker(rid, w.(pc := Announcing), env.publishFails);
        if env.publishFails { thrown := Some(Broken); }
      }
    }

    /** The credit, then, if anything in it threw, the refund. */
    method PayOrGiveBack(ghost rid: nat, ghost w: Recovery, sid: SagaId, g: Saga, env: RecoveryEnv)
      returns (thrown: Option<Thrown>)
      requires Valid() && Works(rid, w) && w == Recovery(sid, g, Paying)
      modifies this`state, this`path, this`trace, database
      ensures Valid() && OnlyWork(rid, sid) && state.recs.Keys == old(state.recs).Keys
      ensures (database.db, thrown) == PayOrRefund(old(database.db), sid, g, env, Tries())
    {
      thrown := RunWorkerLeg(rid, w, LegCall(sid, Pay, g.to, g.amount), env.payFaults);
      if thrown.None? {
        NoteWorker(rid, w.(pc := PayCache), env.payCacheFails);
        if !env.payCacheFails { return; }
      }
      thrown := GiveBack(rid, w.(pc := GivingBack), sid, g.from, g.amount, env);
    }

    /** Resume one saga. */
    method RecoverSaga(ghost rid: nat, sid: SagaId, env: RecoveryEnv) returns (thrown: Option<Thrown>)
      requires Valid() && rid !in state.recs
      modifies this`state, this`path, this`trace, database
      ensures Valid() && OnlyWork(rid, sid)
      ensures state.recs.Keys <= old(state.recs).Keys + {rid}
      ensures (database.db, thrown) == RecoverRun(old(database.db), sid, env, Tries())
    {
      if env.readFails { return Some(Broken); }
      var reading := new TransactionContext(database);
      var saga := reading.FindSaga(sid);
      if saga == null || saga.state != SagaState.Debited { return None; }
      Note(Recover(rid, sid));
      thrown := PayOrGiveBack(rid, Recovery(sid, saga.Row(), Paying), sid, saga.Row(), env);
    }
  }
}
