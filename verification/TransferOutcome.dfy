/** What a transfer and a recovery do as functions of the database and of which awaits fail, and
    exactly when they succeed. */
module TransferOutcome {
  import opened Basics
  import opened Wallets
  import opened Store
  import opened Retry

  datatype TransferError =
    | SameWallet
    | NoSuchWallet
    | CurrencyMismatch
    | Infrastructure
    | SagaThrew(thrown: Thrown)

  /** Which awaits of a transfer fail, and how. */
  datatype TransferEnv = TransferEnv(
    lookupFails: bool, findFails: bool, openFails: bool, createFails: bool,
    debitFaults: nat -> Option<Fault>, debitCacheFails: bool,
    creditFaults: nat -> Option<Fault>, creditCacheFails: bool,
    keyFails: bool, reloadFails: bool,
    refundFaults: nat -> Option<Fault>, publishFails: bool, saveFails: bool)

  datatype RecoveryEnv = RecoveryEnv(
    readFails: bool,
    payFaults: nat -> Option<Fault>, payCacheFails: bool,
    refundFaults: nat -> Option<Fault>, publishFails: bool)
  {
    predicate DatabaseWorks() {
      !readFails && payFaults(0).None? && refundFaults(0).None?
    }
  }

  // ---- one leg with its retries ----

  /** The database afterwards, and the error that leaves the retry loop. */
  function LegRun(db: Db, call: LegCall, faults: nat -> Option<Fault>, tries: nat): (Db, Option<Thrown>) {
    var thrown := Retried(db, call, faults, 0, tries);
    (if thrown.None? && Outcome(db, call).Success? then Outcome(db, call).value else db, thrown)
  }

  /** An attempt without an infrastructure error is left after conflicts alone. */
  predicate GetsThrough(faults: nat -> Option<Fault>, i: nat, n: nat)
    decreases n - i
  {
    i < n && (faults(i).None? || (faults(i).value.retryable && GetsThrough(faults, i + 1, n)))
  }

  lemma {:induction false} LegRunExactly(db: Db, call: LegCall, faults: nat -> Option<Fault>, i: nat, n: nat)
    ensures Retried(db, call, faults, i, n).None? <==> Outcome(db, call).Success? && GetsThrough(faults, i, n)
    decreases n - i
  {
    if i < n {
      LegRunExactly(db, call, faults, i + 1, n);
    }
  }

  /** Only the code's own refusals survive the retry loop as business errors, and as what they were. */
  lemma {:induction false} BusinessMeansRefused(db: Db, call: LegCall, faults: nat -> Option<Fault>, i: nat, n: nat)
    ensures var t := Retried(db, call, faults, i, n);
            && (t.Some? && t.value.Business? ==> Outcome(db, call) == Failure(t.value.error))
            && t != Some(Conflict)
            && (t.None? ==> Outcome(db, call).Success?)
            && (i < n && faults(i).None? ==> (t.None? <==> Outcome(db, call).Success?))
            && (i < n && faults(i).None? && t.Some? ==> t.value.Business?)
    decreases n - i
  {
    if i < n {
      BusinessMeansRefused(db, call, faults, i + 1, n);
    }
  }

  // ---- the transfer ----

  function Tail(leg: (Db, Option<Thrown>), fails: bool): (Db, Option<Thrown>) {
    (leg.0, if leg.1.Some? then leg.1 else if fails then Some(Broken) else None)
  }

  function DebitRun(db: Db, sid: SagaId, from: WalletId, amount: int, env: TransferEnv, tries: nat): (Db, Option<Thrown>) {
    Tail(LegRun(db, LegCall(sid, Debit, from, amount), env.debitFaults, tries), env.debitCacheFails)
  }

  function PayRun(db: Db, sid: SagaId, to: WalletId, amount: int, env: TransferEnv, tries: nat): (Db, Option<Thrown>) {
    Tail(LegRun(db, LegCall(sid, Pay, to, amount), env.creditFaults, tries), env.creditCacheFails)
  }

  function RefundRun(db: Db, sid: SagaId, from: WalletId, amount: int, env: TransferEnv, tries: nat): (Db, Option<Thrown>) {
    Tail(LegRun(db, LegCall(sid, Refund, from, amount), env.refundFaults, tries), env.publishFails)
  }

  function KeyRun(db: Db, request: Option<RequestId>, reply: Reply, env: TransferEnv): (Db, Option<Thrown>) {
    if request.Some? && env.keyFails then (db, Some(Broken)) else (Answer(db, request, reply), None)
  }

  /** Both legs, then the stored answer; whatever throws first ends it. */
  function LegsRun(db: Db, sid: SagaId, from: WalletId, to: WalletId, amount: int, request: Option<RequestId>,
                   env: TransferEnv, tries: nat): (Db, Option<Thrown>)
  {
    var debited := DebitRun(db, sid, from, amount, env, tries);
    if debited.1.Some? then debited
    else
      var paid := PayRun(debited.0, sid, to, amount, env, tries);
      if paid.1.Some? then paid else KeyRun(paid.0, request, TransferReply(sid, from, to, amount), env)
  }

  /** The error handler: refund what was debited, fail what was not, leave the rest. */
  function Undo(db: Db, sid: SagaId, env: TransferEnv, tries: nat): (Db, Option<Thrown>) {
    if env.reloadFails || sid !in db.sagas then (db, Some(Broken))
    else
      match db.sagas[sid].state
      case Debited => RefundRun(db, sid, db.sagas[sid].from, db.sagas[sid].amount, env, tries)
      case Pending => if env.saveFails then (db, Some(Broken)) else (Apply(db, MarkFailed(sid)), None)
      case _ => (db, None)
  }

  /** What is thrown is the legs' error, or the error handler's own. */
  function SagaRun(db: Db, sid: SagaId, from: WalletId, to: WalletId, amount: int, request: Option<RequestId>,
                   env: TransferEnv, tries: nat): (Db, Option<Thrown>)
  {
    var legs := LegsRun(db, sid, from, to, amount, request, env, tries);
    if legs.1.None? then legs
    else
      var undone := Undo(legs.0, sid, env, tries);
      (undone.0, if undone.1.Some? then undone.1 else legs.1)
  }

  /** Find the sender, get or create the receiver, compare currencies. */
  function Prepared(db: Db, from: WalletId, to: WalletId, env: TransferEnv): (Db, Result<Currency, TransferError>) {
    if env.findFails then (db, Failure(Infrastructure))
    else if from !in db.wallets then (db, Failure(NoSuchWallet))
    else if env.openFails then (db, Failure(Infrastructure))
    else
      var currency := db.wallets[from].currency;
      var db' := Ensure(db, to, currency);
      (db', if db'.wallets[to].currency != currency then Failure(CurrencyMismatch) else Success(currency))
  }

  /** Everything before the first leg. */
  function Created(db: Db, sid: SagaId, from: WalletId, to: WalletId, amount: int, env: TransferEnv)
    : (Db, Option<TransferError>)
  {
    var (ready, found) := Prepared(db, from, to, env);
    if found.Failure? then (ready, Some(found.error))
    else if env.createFails then (ready, Some(Infrastructure))
    else (NewSagaTx(ready, sid, from, to, amount, found.value), None)
  }

  /** A transfer that was not answered before. */
  function Transferred(db: Db, sid: SagaId, from: WalletId, to: WalletId, amount: int, request: Option<RequestId>,
                       env: TransferEnv, tries: nat): (Db, Result<Reply, TransferError>)
  {
    if from == to then (db, Failure(SameWallet))
    else
      var (created, refused) := Created(db, sid, from, to, amount, env);
      if refused.Some? then (created, Failure(refused.value))
      else
        var (after, thrown) := SagaRun(created, sid, from, to, amount, request, env, tries);
        (after, if thrown.Some? then Failure(SagaThrew(thrown.value)) else Success(TransferReply(sid, from, to, amount)))
  }

  /** The lookup: an answer at once, or none. */
  function Early(db: Db, request: Option<RequestId>, env: TransferEnv): Option<Result<Reply, TransferError>> {
    if request.None? then None
    else if env.lookupFails then Some(Failure(Infrastructure))
    else if request.value in db.keys then Some(Success(db.keys[request.value]))
    else None
  }

  /** A whole call. */
  function Executed(db: Db, sid: SagaId, from: WalletId, to: WalletId, amount: int, request: Option<RequestId>,
                    env: TransferEnv, tries: nat): (Db, Result<Reply, TransferError>)
  {
    match Early(db, request, env)
    case Some(answer) => (db, answer)
    case None => Transferred(db, sid, from, to, amount, request, env, tries)
  }

  // ---- when it succeeds, and where the money is ----

  function BalanceAt(db: Db, w: WalletId): int {
    if w in db.wallets then db.wallets[w].balance else 0
  }

  /** What a caller can check beforehand: the withdrawal is possible, and the receiver, if there
      is one, is active and of the same currency. */
  predicate Transferable(db: Db, from: WalletId, to: WalletId, amount: int) {
    && from != to && from in db.wallets
    && ApplyOp(db.wallets[from], Withdraw(amount), db.today).Success?
    && (to in db.wallets ==> db.wallets[to].status == Active && db.wallets[to].currency == db.wallets[from].currency)
  }

  /** Both legs get through, and the await between them does not throw. */
  predicate LegsGo(env: TransferEnv, tries: nat) {
    GetsThrough(env.debitFaults, 0, tries) && !env.debitCacheFails && GetsThrough(env.creditFaults, 0, tries)
  }

  /** The awaits after the credit do not throw. */
  predicate EndGoes(request: Option<RequestId>, env: TransferEnv) {
    !env.creditCacheFails && (request.Some? ==> !env.keyFails)
  }

  /** What a saga in a given state has done to a wallet's balance. */
  function Shift(st: SagaState, from: WalletId, to: WalletId, amount: int, w: WalletId): int {
    if w == from && (st == SagaState.Debited || st == Completed) then -amount
    else if w == to && st == Completed then amount
    else 0
  }

  ghost predicate Shifted(db: Db, after: Db, st: SagaState, from: WalletId, to: WalletId, amount: int) {
    forall w :: BalanceAt(after, w) == BalanceAt(db, w) + Shift(st, from, to, amount, w)
  }

  predicate IsSaga(db: Db, sid: SagaId, st: SagaState, from: WalletId, to: WalletId, amount: int) {
    sid in db.sagas && db.sagas[sid].state == st && db.sagas[sid].from == from && db.sagas[sid].amount == amount
    && from != to && from in db.wallets && to in db.wallets
  }

  lemma DebitExactly(db: Db, sid: SagaId, from: WalletId, to: WalletId, amount: int, env: TransferEnv, tries: nat)
    requires IsSaga(db, sid, Pending, from, to, amount)
    ensures var (after, thrown) := DebitRun(db, sid, from, amount, env, tries);
            var goes := ApplyOp(db.wallets[from], Withdraw(amount), db.today).Success?
                        && GetsThrough(env.debitFaults, 0, tries);
            && (thrown.None? <==> goes && !env.debitCacheFails)
            && IsSaga(after, sid, if goes then SagaState.Debited else Pending, from, to, amount)
            && Shifted(db, after, after.sagas[sid].state, from, to, amount)
            && after.wallets[to] == db.wallets[to] && after.keys == db.keys
            && (goes ==> amount > 0 && after.wallets[from].status == Active)
  {
    LegRunExactly(db, LegCall(sid, Debit, from, amount), env.debitFaults, 0, tries);
  }

  lemma PayExactly(db: Db, sid: SagaId, from: WalletId, to: WalletId, amount: int, env: TransferEnv, tries: nat)
    requires IsSaga(db, sid, SagaState.Debited, from, to, amount) && amount > 0
    ensures var (after, thrown) := PayRun(db, sid, to, amount, env, tries);
            var goes := db.wallets[to].status == Active && GetsThrough(env.creditFaults, 0, tries);
            && (thrown.None? <==> goes && !env.creditCacheFails)
            && IsSaga(after, sid, if goes then Completed else SagaState.Debited, from, to, amount)
            && (forall w :: BalanceAt(after, w) == BalanceAt(db, w) + (if goes && w == to then amount else 0))
            && after.wallets[from] == db.wallets[from] && after.keys == db.keys
  {
    LegRunExactly(db, LegCall(sid, Pay, to, amount), env.creditFaults, 0, tries);
  }

  /** The handler leaves a completed saga alone; a debited one is refunded and a pending one fails
      unless the handler itself is struck. */
  lemma UndoExactly(db: Db, sid: SagaId, st: SagaState, from: WalletId, to: WalletId, amount: int,
                    env: TransferEnv, tries: nat)
    requires IsSaga(db, sid, st, from, to, amount) && st in {Pending, SagaState.Debited, Completed}
    requires st == SagaState.Debited ==> amount > 0 && db.wallets[from].status == Active
    ensures var after := Undo(db, sid, env, tries).0;
            && sid in after.sagas && after.keys == db.keys
            && after.sagas[sid].state
               == (if env.reloadFails || st == Completed then st
                   else if st == Pending then (if env.saveFails then Pending else Failed)
                   else if GetsThrough(env.refundFaults, 0, tries) then Compensated else SagaState.Debited)
            && (forall w :: BalanceAt(after, w) == BalanceAt(db, w)
                  + (if w == from && st == SagaState.Debited && after.sagas[sid].state == Compensated then amount else 0))
  {
    LegRunExactly(db, LegCall(sid, Refund, from, amount), env.refundFaults, 0, tries);
  }

  /** Where the legs leave the saga. */
  function LegsState(can: bool, active: bool, env: TransferEnv, tries: nat): SagaState {
    if !can || !GetsThrough(env.debitFaults, 0, tries) then Pending
    else if env.debitCacheFails || !active || !GetsThrough(env.creditFaults, 0, tries) then SagaState.Debited
    else Completed
  }

  function KeysAfter(db: Db, answered: bool, request: Option<RequestId>, reply: Reply): map<RequestId, Reply> {
    if answered && request.Some? then db.keys[request.value := reply] else db.keys
  }

  lemma LegsExactly(db: Db, sid: SagaId, from: WalletId, to: WalletId, amount: int, request: Option<RequestId>,
                    env: TransferEnv, tries: nat)
    requires IsSaga(db, sid, Pending, from, to, amount)
    ensures var (after, thrown) := LegsRun(db, sid, from, to, amount, request, env, tries);
            var st := LegsState(ApplyOp(db.wallets[from], Withdraw(amount), db.today).Success?,
                                db.wallets[to].status == Active, env, tries);
            && IsSaga(after, sid, st, from, to, amount)
            && Shifted(db, after, st, from, to, amount)
            && (thrown.None? <==> st == Completed && EndGoes(request, env))
            && after.keys == KeysAfter(db, thrown.None?, request, TransferReply(sid, from, to, amount))
            && (st == SagaState.Debited ==> amount > 0 && after.wallets[from].status == Active)
  {
    DebitExactly(db, sid, from, to, amount, env, tries);
    var debited := DebitRun(db, sid, from, amount, env, tries);
    if debited.1.None? {
      PayExactly(debited.0, sid, from, to, amount, env, tries);
    }
  }

  /** From the first leg on. */
  lemma SagaRunExactly(db: Db, sid: SagaId, from: WalletId, to: WalletId, amount: int, request: Option<RequestId>,
                       env: TransferEnv, tries: nat)
    requires IsSaga(db, sid, Pending, from, to, amount)
    ensures var (after, thrown) := SagaRun(db, sid, from, to, amount, request, env, tries);
            var st := LegsState(ApplyOp(db.wallets[from], Withdraw(amount), db.today).Success?,
                                db.wallets[to].status == Active, env, tries);
            && sid in after.sagas
            && after.sagas[sid].state
               == (if env.reloadFails || st == Completed then st
                   else if st == Pending then (if env.saveFails then Pending else Failed)
                   else if GetsThrough(env.refundFaults, 0, tries) then Compensated else SagaState.Debited)
            && Shifted(db, after, after.sagas[sid].state, from, to, amount)
            && (thrown.None? <==> st == Completed && EndGoes(request, env))
            && after.keys == KeysAfter(db, thrown.None?, request, TransferReply(sid, from, to, amount))
  {
    LegsExactly(db, sid, from, to, amount, request, env, tries);
    var legs := LegsRun(db, sid, from, to, amount, request, env, tries);
    if legs.1.Some? {
      UndoExactly(legs.0, sid, legs.0.sagas[sid].state, from, to, amount, env, tries);
    }
  }

  /** Whatever fails: a transfer completes exactly when it is possible, the awaits before the first
      leg work, and both legs get through; it answers with success, and stores its answer, exactly
      when the two awaits after the credit work too. Its final state says what became of the
      money, and it is left PENDING or DEBITED only if the error handler was struck itself. */
  lemma TransferExactly(db: Db, sid: SagaId, from: WalletId, to: WalletId, amount: int, request: Option<RequestId>,
                        env: TransferEnv, tries: nat)
    requires sid !in db.sagas
    ensures var (after, r) := Transferred(db, sid, from, to, amount, request, env, tries);
            var begins := !env.findFails && !env.openFails && !env.createFails;
            var completes := Transferable(db, from, to, amount) && begins && LegsGo(env, tries);
            && (sid in after.sagas && after.sagas[sid].state == Completed <==> completes)
            && (r.Success? <==> completes && EndGoes(request, env))
            && after.keys == KeysAfter(db, r.Success?, request, TransferReply(sid, from, to, amount))
            && Shifted(db, after, if sid in after.sagas then after.sagas[sid].state else Failed, from, to, amount)
            && (sid in after.sagas ==>
                  && (after.sagas[sid].state == SagaState.Debited ==>
                        env.reloadFails || !GetsThrough(env.refundFaults, 0, tries))
                  && (after.sagas[sid].state == Pending ==> env.reloadFails || env.saveFails))
  {
    var (created, refused) := Created(db, sid, from, to, amount, env);
    if from != to && refused.None? {
      SagaRunExactly(created, sid, from, to, amount, request, env, tries);
    }
  }

  // ---- which error is answered ----

  /** An attempt gets as far as the wallet: past conflicts at the start alone. */
  predicate Arrives(faults: nat -> Option<Fault>, i: nat, n: nat)
    decreases n - i
  {
    i < n &&
    match faults(i)
    case None => true
    case Some(f) => f.moment != AtStart || (f.retryable && Arrives(faults, i + 1, n))
  }

  /** A leg whose wallet refuses throws that refusal exactly when an attempt gets there, and no other refusal. */
  lemma {:induction false} RefusalArrives(db: Db, call: LegCall, faults: nat -> Option<Fault>, i: nat, n: nat)
    requires WalletPart(db, call).Some?
    ensures var t := Retried(db, call, faults, i, n);
            && (t == Some(Business(WalletPart(db, call).value)) <==> Arrives(faults, i, n))
            && (t.Some? && t.value.Business? ==> t.value.error == WalletPart(db, call).value)
            && t.Some?
    decreases n - i
  {
    if i < n {
      RefusalArrives(db, call, faults, i + 1, n);
    }
  }

  predicate SenderRefuses(db: Db, from: WalletId, amount: int, e: WalletError) {
    from in db.wallets && Refuses(db.wallets[from], amount, db.today, e)
  }

  /** The legs throw a refusal of the sender's wallet when the debit gets to it, and a refusal of the
      receiver's when the debit went through and the credit gets to it; no other refusal. */
  lemma LegsErrors(db: Db, sid: SagaId, from: WalletId, to: WalletId, amount: int, request: Option<RequestId>,
                   env: TransferEnv, tries: nat)
    requires IsSaga(db, sid, Pending, from, to, amount)
    ensures var (after, thrown) := LegsRun(db, sid, from, to, amount, request, env, tries);
            var debited := ApplyOp(db.wallets[from], Withdraw(amount), db.today).Success?
                           && GetsThrough(env.debitFaults, 0, tries) && !env.debitCacheFails;
            && (forall e :: thrown == Some(Business(WalletFault(e))) <==>
                  || (SenderRefuses(db, from, amount, e) && Arrives(env.debitFaults, 0, tries))
                  || (debited && db.wallets[to].status != Active && e == NotActive(db.wallets[to].status)
                      && Arrives(env.creditFaults, 0, tries)))
            && (thrown.Some? && thrown.value.Business? ==> thrown.value.error.WalletFault?)
  {
    WithdrawingExactly(db.wallets[from], amount, db.today);
    DebitExactly(db, sid, from, to, amount, env, tries);
    DebitErrors(db, sid, from, to, amount, env, tries);
    var debited := DebitRun(db, sid, from, amount, env, tries);
    if debited.1.None? {
      PayErrors(debited.0, sid, from, to, amount, env, tries);
    }
  }

  lemma DebitErrors(db: Db, sid: SagaId, from: WalletId, to: WalletId, amount: int, env: TransferEnv, tries: nat)
    requires IsSaga(db, sid, Pending, from, to, amount)
    ensures var thrown := DebitRun(db, sid, from, amount, env, tries).1;
            && (forall e :: thrown == Some(Business(WalletFault(e))) <==>
                  SenderRefuses(db, from, amount, e) && Arrives(env.debitFaults, 0, tries))
            && (thrown.Some? && thrown.value.Business? ==> thrown.value.error.WalletFault?)
  {
    var call := LegCall(sid, Debit, from, amount);
    WithdrawingExactly(db.wallets[from], amount, db.today);
    BusinessMeansRefused(db, call, env.debitFaults, 0, tries);
    if WalletPart(db, call).Some? {
      RefusalArrives(db, call, env.debitFaults, 0, tries);
    }
  }

  lemma PayErrors(db: Db, sid: SagaId, from: WalletId, to: WalletId, amount: int, env: TransferEnv, tries: nat)
    requires IsSaga(db, sid, SagaState.Debited, from, to, amount) && amount > 0
    ensures var thrown := PayRun(db, sid, to, amount, env, tries).1;
            && (forall e :: thrown == Some(Business(WalletFault(e))) <==>
                  && db.wallets[to].status != Active && e == NotActive(db.wallets[to].status)
                  && Arrives(env.creditFaults, 0, tries))
            && (thrown.Some? && thrown.value.Business? ==> thrown.value.error.WalletFault?)
  {
    var call := LegCall(sid, Pay, to, amount);
    BusinessMeansRefused(db, call, env.creditFaults, 0, tries);
    if WalletPart(db, call).Some? {
      RefusalArrives(db, call, env.creditFaults, 0, tries);
    }
  }

  /** The handler throws nothing of its own exactly when it is not struck, and never a refusal. */
  lemma UndoErrors(db: Db, sid: SagaId, st: SagaState, from: WalletId, to: WalletId, amount: int,
                   env: TransferEnv, tries: nat)
    requires IsSaga(db, sid, st, from, to, amount) && st in {Pending, SagaState.Debited, Completed}
    requires st == SagaState.Debited ==> amount > 0 && db.wallets[from].status == Active
    ensures var thrown := Undo(db, sid, env, tries).1;
            && (thrown.None? <==> !Struck(st, env, tries))
            && (thrown.Some? ==> !thrown.value.Business?)
            && (env.reloadFails ==> thrown == Some(Broken))
  {
    var call := LegCall(sid, Refund, from, amount);
    LegRunExactly(db, call, env.refundFaults, 0, tries);
    BusinessMeansRefused(db, call, env.refundFaults, 0, tries);
  }

  /** The error handler meets an error itself. */
  predicate Struck(st: SagaState, env: TransferEnv, tries: nat) {
    || env.reloadFails
    || (st == Pending && env.saveFails)
    || (st == SagaState.Debited && (!GetsThrough(env.refundFaults, 0, tries) || env.publishFails))
  }

  lemma SagaRunErrors(db: Db, sid: SagaId, from: WalletId, to: WalletId, amount: int, request: Option<RequestId>,
                      env: TransferEnv, tries: nat)
    requires IsSaga(db, sid, Pending, from, to, amount)
    ensures var (after, thrown) := SagaRun(db, sid, from, to, amount, request, env, tries);
            var debited := ApplyOp(db.wallets[from], Withdraw(amount), db.today).Success?
                           && GetsThrough(env.debitFaults, 0, tries) && !env.debitCacheFails;
            && (forall e :: thrown == Some(Business(WalletFault(e))) <==>
                  || (SenderRefuses(db, from, amount, e) && Arrives(env.debitFaults, 0, tries) && !Struck(Pending, env, tries))
                  || (debited && db.wallets[to].status != Active && e == NotActive(db.wallets[to].status)
                      && Arrives(env.creditFaults, 0, tries) && !Struck(SagaState.Debited, env, tries)))
            && (thrown.Some? && thrown.value.Business? ==> thrown.value.error.WalletFault?)
            && (thrown.Some? && env.reloadFails ==> thrown == Some(Broken))
  {
    LegsExactly(db, sid, from, to, amount, request, env, tries);
    LegsErrors(db, sid, from, to, amount, request, env, tries);
    WithdrawingExactly(db.wallets[from], amount, db.today);
    var legs := LegsRun(db, sid, from, to, amount, request, env, tries);
    if legs.1.Some? {
      UndoErrors(legs.0, sid, legs.0.sagas[sid].state, from, to, amount, env, tries);
    }
  }

  /** Everything before the saga works, and finds the wallets of one currency. */
  predicate Begins(db: Db, from: WalletId, to: WalletId, env: TransferEnv) {
    && from != to && !env.findFails && from in db.wallets && !env.openFails && !env.createFails
    && (to in db.wallets ==> db.wallets[to].currency == db.wallets[from].currency)
  }

  /** Which error a transfer answers. The first three come exactly on their conditions; a refusal of the
      sender's wallet (amount, status, limit, funds: see Refuses) exactly when the debit gets to it and
      the handler is not struck; the receiver's status exactly when the debit went through, the credit
      gets to it, and the refund and its announcement work. No other refusal is ever answered. */
  lemma TransferErrors(db: Db, sid: SagaId, from: WalletId, to: WalletId, amount: int, request: Option<RequestId>,
                       env: TransferEnv, tries: nat)
    requires sid !in db.sagas
    ensures var r := Transferred(db, sid, from, to, amount, request, env, tries).1;
            && (r == Failure(SameWallet) <==> from == to)
            && (r == Failure(NoSuchWallet) <==> from != to && !env.findFails && from !in db.wallets)
            && (r == Failure(CurrencyMismatch) <==>
                  && from != to && !env.findFails && from in db.wallets && !env.openFails
                  && to in db.wallets && db.wallets[to].currency != db.wallets[from].currency)
            && (r == Failure(Infrastructure) <==>
                  && from != to
                  && (env.findFails
                      || (from in db.wallets
                          && (env.openFails
                              || (env.createFails
                                  && (to in db.wallets ==> db.wallets[to].currency == db.wallets[from].currency))))))
            && (forall e :: r == Failure(SagaThrew(Business(WalletFault(e)))) <==>
                  Begins(db, from, to, env)
                  && (|| (SenderRefuses(db, from, amount, e) && Arrives(env.debitFaults, 0, tries)
                          && !env.reloadFails && !env.saveFails)
                      || (ReceiverRefuses(db, from, to, amount, e, env, tries)
                          && Arrives(env.creditFaults, 0, tries)
                          && !env.reloadFails && GetsThrough(env.refundFaults, 0, tries) && !env.publishFails)))
            && (r.Failure? && r.error.SagaThrew? && r.error.thrown.Business? ==> r.error.thrown.error.WalletFault?)
            && (r.Failure? && r.error.SagaThrew? && env.reloadFails ==> r == Failure(SagaThrew(Broken)))
            && (r.Success? ==> r.value == TransferReply(sid, from, to, amount))
  {
    var (created, refused) := Created(db, sid, from, to, amount, env);
    if from != to && refused.None? {
      SagaRunErrors(created, sid, from, to, amount, request, env, tries);
    }
  }

  /** A transfer that does not get as far as its saga leaves no trace but an empty wallet for the receiver, in
      the sender's currency, and that only if the sender was found and the receiver was not there. */
  lemma NotBegun(db: Db, sid: SagaId, from: WalletId, to: WalletId, amount: int, request: Option<RequestId>,
                 env: TransferEnv, tries: nat)
    requires !Begins(db, from, to, env)
    ensures var (after, r) := Transferred(db, sid, from, to, amount, request, env, tries);
            var opens := from != to && !env.findFails && from in db.wallets && !env.openFails && to !in db.wallets;
            && r.Failure? && !r.error.SagaThrew?
            && after.sagas == db.sagas && after.outbox == db.outbox && after.keys == db.keys && after.today == db.today
            && after.wallets == (if opens then db.wallets[to := NewRow(db.wallets[from].currency)] else db.wallets)
            && (!opens ==> after == db)
            && (opens ==> |after.events| == |db.events| + 1 && after.events[..|db.events|] == db.events)
  {
  }

  predicate ReceiverRefuses(db: Db, from: WalletId, to: WalletId, amount: int, e: WalletError, env: TransferEnv, tries: nat) {
    && from in db.wallets && ApplyOp(db.wallets[from], Withdraw(amount), db.today).Success?
    && GetsThrough(env.debitFaults, 0, tries) && !env.debitCacheFails
    && to in db.wallets && db.wallets[to].status != Active && e == NotActive(db.wallets[to].status)
  }

  /** A sender without the funds, when nothing fails. */
  lemma InsufficientFundsAnswered(db: Db, sid: SagaId, from: WalletId, to: WalletId, amount: int, request: Option<RequestId>,
                                  env: TransferEnv, tries: nat)
    requires sid !in db.sagas && Begins(db, from, to, env)
    requires Arrives(env.debitFaults, 0, tries) && !env.reloadFails && !env.saveFails
    ensures var row := db.wallets[from];
            Transferred(db, sid, from, to, amount, request, env, tries).1
              == Failure(SagaThrew(Business(WalletFault(InsufficientFunds(row.balance, amount)))))
            <==> amount > 0 && row.status == Active && WithinLimit(row, amount, db.today) && row.balance < amount
  {
    TransferErrors(db, sid, from, to, amount, request, env, tries);
  }

  /** The lookup comes first: a stored answer is returned and nothing else happens; a lookup that fails is an
      error, with nothing done; and only then the transfer is attempted. */
  lemma StoredAnswerFirst(db: Db, sid: SagaId, from: WalletId, to: WalletId, amount: int, request: Option<RequestId>,
                          env: TransferEnv, tries: nat)
    ensures var run := Executed(db, sid, from, to, amount, request, env, tries);
            && (request.Some? && env.lookupFails ==> run == (db, Failure(Infrastructure)))
            && (request.Some? && !env.lookupFails && request.value in db.keys ==>
                  run == (db, Success(db.keys[request.value])))
            && (request.None? || (!env.lookupFails && request.value !in db.keys) ==>
                  run == Transferred(db, sid, from, to, amount, request, env, tries))
  {
  }

  // ---- recovery ----

  /** Recovering one saga: pay the receiver; if anything in that threw, refund the sender. */
  function RecoverRun(db: Db, sid: SagaId, env: RecoveryEnv, tries: nat): (Db, Option<Thrown>) {
    if env.readFails then (db, Some(Broken))
    else if sid !in db.sagas || db.sagas[sid].state != SagaState.Debited then (db, None)
    else PayOrRefund(db, sid, db.sagas[sid], env, tries)
  }

  function PayOrRefund(db: Db, sid: SagaId, g: Saga, env: RecoveryEnv, tries: nat): (Db, Option<Thrown>) {
    var paid := Tail(LegRun(db, LegCall(sid, Pay, g.to, g.amount), env.payFaults, tries), env.payCacheFails);
    if paid.1.None? then paid
    else Tail(LegRun(paid.0, LegCall(sid, Refund, g.from, g.amount), env.refundFaults, tries), env.publishFails)
  }

  predicate IsActive(db: Db, w: WalletId) {
    w in db.wallets && db.wallets[w].status == Active
  }

  /** Where recovery leaves a DEBITED saga. */
  function RecoveredState(db: Db, g: Saga, env: RecoveryEnv, tries: nat): SagaState {
    if env.readFails then SagaState.Debited
    else if IsActive(db, g.to) && GetsThrough(env.payFaults, 0, tries) then Completed
    else if IsActive(db, g.from) && GetsThrough(env.refundFaults, 0, tries) then Compensated
    else SagaState.Debited
  }

  /** Whatever fails: the receiver is paid if that is possible at all, and only otherwise the sender is
      refunded if that is; the one balance that changes says which, no other saga changes, and an
      error is thrown unless all of what was done worked. */
  lemma RecoverExactly(db: Db, sid: SagaId, env: RecoveryEnv, tries: nat)
    requires sid in db.sagas && db.sagas[sid].state == SagaState.Debited && db.sagas[sid].amount > 0
    ensures var (after, thrown) := RecoverRun(db, sid, env, tries);
            var g := db.sagas[sid];
            var st := if env.readFails then SagaState.Debited
                      else if IsActive(db, g.to) && GetsThrough(env.payFaults, 0, tries) then Completed
                      else if IsActive(db, g.from) && GetsThrough(env.refundFaults, 0, tries) then Compensated
                      else SagaState.Debited;
            && after.sagas == db.sagas[sid := g.(state := st)]
            && after.wallets.Keys == db.wallets.Keys
            && (forall w <- db.wallets :: after.wallets[w].status == db.wallets[w].status)
            && (forall w :: BalanceAt(after, w) == BalanceAt(db, w)
                  + (if (st == Completed && w == g.to) || (st == Compensated && w == g.from) then g.amount else 0))
            && (thrown.None? <==> (st == Completed && !env.payCacheFails) || (st == Compensated && !env.publishFails))
  {
    var g := db.sagas[sid];
    var pay, back := LegCall(sid, Pay, g.to, g.amount), LegCall(sid, Refund, g.from, g.amount);
    LegRunExactly(db, pay, env.payFaults, 0, tries);
    var paid := LegRun(db, pay, env.payFaults, tries).0;
    LegRunExactly(paid, back, env.refundFaults, 0, tries);
    assert Outcome(db, pay).Success? <==> IsActive(db, g.to);
    if paid == db {
      assert Outcome(db, back).Success? <==> IsActive(db, g.from);
    }
    if Outcome(db, pay).Success? {
      PaidStaysPaid(db, sid, g);
    }
    assert db.sagas[sid := g] == db.sagas;
  }

  function PaidOrBack(db: Db, sid: SagaId, g: Saga): Db {
    match LegTx(db, sid, Pay, g.to, g.amount)
    case Success(paid) => paid
    case Failure(_) =>
      (match LegTx(db, sid, Refund, g.from, g.amount) case Success(back) => back case Failure(_) => db)
  }

  /** What recovering one saga does when the database works. */
  function Recovered(db: Db, sid: SagaId): Db {
    if sid !in db.sagas || db.sagas[sid].state != SagaState.Debited then db
    else PaidOrBack(db, sid, db.sagas[sid])
  }

  /** A committed credit leaves nothing to refund. */
  lemma PaidStaysPaid(db: Db, sid: SagaId, g: Saga)
    requires LegTx(db, sid, Pay, g.to, g.amount).Success?
    ensures LegTx(LegTx(db, sid, Pay, g.to, g.amount).value, sid, Refund, g.from, g.amount).Failure?
  {
  }

  /** When the database works, neither the cache nor the broker has a say in what recovery leaves. */
  lemma RecoveryIgnoresTheRest(db: Db, sid: SagaId, env: RecoveryEnv, tries: nat)
    requires env.DatabaseWorks() && tries > 0
    ensures RecoverRun(db, sid, env, tries).0 == Recovered(db, sid)
  {
    if sid in db.sagas && db.sagas[sid].state == SagaState.Debited {
      var g := db.sagas[sid];
      var pay := LegCall(sid, Pay, g.to, g.amount);
      var back := LegCall(sid, Refund, g.from, g.amount);
      LegRunExactly(db, pay, env.payFaults, 0, tries);
      var paid := LegRun(db, pay, env.payFaults, tries).0;
      LegRunExactly(paid, back, env.refundFaults, 0, tries);
      if Outcome(db, pay).Success? {
        PaidStaysPaid(db, sid, g);
      }
    }
  }
}
