/** Running one leg of a saga: the transaction body, and the retry loop around it. */
module Retry {
  import opened Basics
  import opened Wallets
  import opened Store
  import opened SagaEntity
  import opened Transactions

  /** An infrastructure error that strikes one attempt: before anything was read, after the
      wallet was saved, or any time after the saga was. Some of them may be retried. */
  datatype Moment = AtStart | AfterWallet | AfterSaga

  datatype Fault = Fault(moment: Moment, retryable: bool)

  datatype Thrown =
    | Business(error: TxError)
    | Broken
    | Conflict
    | Exhausted

  datatype LegCall = LegCall(saga: SagaId, leg: Leg, wallet: WalletId, amount: int)

  function Raised(f: Fault): Thrown {
    if f.retryable then Conflict else Broken
  }

  function Outcome(db: Db, call: LegCall): Result<Db, TxError> {
    LegTx(db, call.saga, call.leg, call.wallet, call.amount)
  }

  /** The error of the wallet's part alone. */
  function WalletPart(db: Db, call: LegCall): Option<TxError> {
    if call.wallet !in db.wallets then Some(WalletNotFound(call.wallet))
    else
      var r := ApplyOp(db.wallets[call.wallet], LegOp(call.leg, call.amount), db.today);
      if r.Failure? then Some(WalletFault(r.error)) else None
  }

  /** What one attempt throws: whichever of the injected error and the code's own comes first. */
  function AttemptThrows(db: Db, call: LegCall, fault: Option<Fault>): Option<Thrown> {
    if fault.Some? && fault.value.moment == AtStart then Some(Raised(fault.value))
    else if WalletPart(db, call).Some? then Some(Business(WalletPart(db, call).value))
    else if fault.Some? && fault.value.moment == AfterWallet then Some(Raised(fault.value))
    else if Outcome(db, call).Failure? then Some(Business(Outcome(db, call).error))
    else if fault.Some? then Some(Raised(fault.value))
    else None
  }

  /** One attempt without an infrastructure error throws what the transaction meets, and nothing else; one
      that is struck throws that error, unless the code's own refusal comes before it. */
  lemma AttemptExactly(db: Db, call: LegCall, fault: Option<Fault>)
    ensures var t := AttemptThrows(db, call, fault);
            && (t.None? <==> fault.None? && Outcome(db, call).Success?)
            && (t.Some? && t.value.Business? ==> Outcome(db, call) == Failure(t.value.error))
            && (fault.None? && Outcome(db, call).Failure? ==> t == Some(Business(Outcome(db, call).error)))
            && (t == Some(Conflict) ==> fault.Some? && fault.value.retryable)
            && (t == Some(Broken) ==> fault.Some? && !fault.value.retryable)
            && (fault.Some? && fault.value.moment == AtStart ==> t == Some(if fault.value.retryable then Conflict else Broken))
            && (fault.Some? && Outcome(db, call).Success? ==> t == Some(if fault.value.retryable then Conflict else Broken))
            && (fault.Some? && fault.value.moment == AfterSaga && Outcome(db, call).Failure? ==>
                  t == Some(Business(Outcome(db, call).error)))
            && (fault.Some? && fault.value.moment != AtStart && Outcome(db, call).Failure?
                && (Outcome(db, call).error.WalletNotFound? || Outcome(db, call).error.WalletFault?) ==>
                  t == Some(Business(Outcome(db, call).error)))
            && t != Some(Exhausted)
  {
  }

  /** Attempts from the i-th on, of n. */
  function Retried(db: Db, call: LegCall, faults: nat -> Option<Fault>, i: nat, n: nat): Option<Thrown>
    decreases n - i
  {
    if i >= n then Some(Exhausted)
    else
      var t := AttemptThrows(db, call, faults(i));
      if t == Some(Conflict) then Retried(db, call, faults, i + 1, n) else t
  }

  // ---- waiting ----

  function Pow2(i: nat): nat {
    if i == 0 then 1 else 2 * Pow2(i - 1)
  }

  function Min(x: real, y: real): real {
    if x <= y then x else y
  }

  /** The capped delay after the i-th conflict, jitter apart. */
  function Pause(b: real, i: nat): real {
    Min(b * Pow2(i) as real, 5000.0)
  }

  /** The delay doubles with every conflict until it reaches five seconds. */
  lemma PauseDoubles(b: real, i: nat)
    requires b >= 0.0
    ensures Pause(b, 0) == Min(b, 5000.0)
    ensures Pause(b, i + 1) == Min(2.0 * Pause(b, i), 5000.0)
  {
    var p := Pow2(i) as real;
    assert Pow2(i + 1) as real == 2.0 * p;
    assert b * (2.0 * p) == 2.0 * (b * p);
    Product(b, p);
  }

  /** The longest that `n` conflicts can be waited out, jitter apart. */
  function Backoff(b: real, n: nat): real {
    if n == 0 then 0.0 else Backoff(b, n - 1) + Pause(b, n - 1)
  }

  lemma Product(x: real, y: real)
    requires x >= 0.0 && y >= 0.0
    ensures x * y >= 0.0
  {
  }

  lemma PauseBounds(b: real, i: nat)
    requires b >= 0.0
    ensures 0.0 <= Pause(b, i) <= 5000.0
    ensures b * (Pow2(i) as real - 1.0) + Pause(b, i) <= b * (Pow2(i + 1) as real - 1.0)
  {
    var p := Pow2(i) as real;
    Product(b, p);
    assert b * (p - 1.0) + b * p == b * (2.0 * p - 1.0);
    assert Pow2(i + 1) as real == 2.0 * p;
  }

  lemma {:induction false} BackoffBounds(b: real, n: nat)
    requires b >= 0.0
    ensures 0.0 <= Backoff(b, n) <= 5000.0 * n as real
    ensures Backoff(b, n) <= b * (Pow2(n) as real - 1.0)
  {
    if n > 0 {
      BackoffBounds(b, n - 1);
      PauseBounds(b, n - 1);
      assert n as real == (n - 1) as real + 1.0;
    }
  }

  lemma {:induction false} BackoffGrows(b: real, m: nat, n: nat)
    requires b >= 0.0 && m <= n
    ensures Backoff(b, m) <= Backoff(b, n)
    decreases n
  {
    if m < n {
      BackoffGrows(b, m, n - 1);
      PauseBounds(b, n - 1);
    }
  }

  function Jitters(jitter: nat -> real, n: nat): real {
    if n == 0 then 0.0 else Jitters(jitter, n - 1) + jitter(n - 1)
  }

  lemma {:induction false} JittersBound(jitter: nat -> real, n: nat)
    requires forall i :: 0.0 <= jitter(i) < 100.0
    ensures 0.0 <= Jitters(jitter, n) <= 100.0 * n as real
  {
    if n > 0 {
      JittersBound(jitter, n - 1);
      assert n as real == (n - 1) as real + 1.0;
    }
  }

  /** The longest wait for `n` conflicts, jitter included. */
  function LongestWait(b: real, n: nat): real {
    Backoff(b, n) + 100.0 * n as real
  }

  lemma WaitBounds(b: real, n: nat, jitters: real)
    requires b >= 0.0 && 0.0 <= jitters <= 100.0 * n as real
    ensures 0.0 <= Backoff(b, n) + jitters <= LongestWait(b, n) <= LongestWait(b, n + 1)
  {
    BackoffBounds(b, n);
    PauseBounds(b, n);
    assert (n + 1) as real == n as real + 1.0;
  }

  class LegRunner {
    const database: Database
    const maxRetries: int
    const initialBackoff: real

    constructor (database: Database, maxRetries: int, initialBackoff: real)
      ensures this.database == database && this.maxRetries == maxRetries && this.initialBackoff == initialBackoff
    {
      this.database, this.maxRetries, this.initialBackoff := database, maxRetries, initialBackoff;
    }

    /** The transaction body. It commits everything or leaves no trace. */
    method Attempt(call: LegCall, fault: Option<Fault>) returns (thrown: Option<Thrown>)
      modifies database
      ensures thrown == AttemptThrows(old(database.db), call, fault)
      ensures thrown.None? ==> Outcome(old(database.db), call) == Success(database.db)
      ensures thrown.Some? ==> database.db == old(database.db)
    {
      if fault.Some? && fault.value.moment == AtStart { return Some(Raised(fault.value)); }
      var ctx := new TransactionContext(database);
      var wallet := ctx.FindWallet(call.wallet);
      if wallet == null { return Some(Business(WalletNotFound(call.wallet))); }

      var refused := wallet.Perform(LegOp(call.leg, call.amount), ctx.work.today);
      if refused.Some? { return Some(Business(WalletFault(refused.value))); }
      ctx.SaveWallet(call.wallet, wallet);
      if fault.Some? && fault.value.moment == AfterWallet { return Some(Raised(fault.value)); }

      var saga := ctx.FindSaga(call.saga);
      if saga == null { return Some(Business(SagaNotFound(call.saga))); }
      var wrong := saga.Mark(call.leg);
      if wrong.Some? { return Some(Business(WrongState(wrong.value))); }
      ctx.SaveSaga(call.saga, saga);
      if fault.Some? { return Some(Raised(fault.value)); }

      var kind := LegKind(call.leg);
      ctx.SaveEvent(NewEvent(call.wallet, kind, wallet.currency, Some(call.amount), Some(call.saga), ctx.work.today));
      ctx.PublishEvent(OutboxRow(call.wallet, kind, Some(call.amount), Some(call.saga)));
      if call.leg == Pay {
        ctx.PublishEvent(OutboxRow(saga.from, TransferCompleted, Some(saga.amount), Some(call.saga)));
      }
      assert old(database.db.outbox) + ctx.eventsToPublish == Outcome(old(database.db), call).value.outbox;
      ctx.Commit(database);
      thrown := None;
    }

    /** At most `maxRetries` attempts, of which at most one commits and only the last can. Every conflict is
        waited out, the last one included, and nothing else is. */
    method Execute(call: LegCall, faults: nat -> Option<Fault>, jitter: nat -> real)
      returns (thrown: Option<Thrown>, attempts: nat, waited: real)
      requires initialBackoff >= 0.0
      requires forall i :: 0.0 <= jitter(i) < 100.0
      modifies database
      ensures thrown == Retried(old(database.db), call, faults, 0, if maxRetries < 0 then 0 else maxRetries)
      ensures thrown.None? ==> Outcome(old(database.db), call) == Success(database.db)
      ensures thrown.Some? ==> database.db == old(database.db)
      ensures attempts <= if maxRetries < 0 then 0 else maxRetries
      ensures forall i | 0 <= i < attempts - 1 :: AttemptThrows(old(database.db), call, faults(i)) == Some(Conflict)
      ensures thrown == Some(Exhausted) ==> attempts == if maxRetries < 0 then 0 else maxRetries
      ensures thrown != Some(Exhausted) ==>
                attempts > 0 && thrown == AttemptThrows(old(database.db), call, faults(attempts - 1))
      ensures var conflicts := if thrown == Some(Exhausted) then attempts else attempts - 1;
              waited == Backoff(initialBackoff, conflicts) + Jitters(jitter, conflicts)
      ensures 0.0 <= waited <= LongestWait(initialBackoff, attempts)
    {
      attempts, waited := 0, 0.0;
      while attempts < maxRetries
        invariant attempts <= if maxRetries < 0 then 0 else maxRetries
        invariant database.db == old(database.db)
        invariant Retried(database.db, call, faults, 0, if maxRetries < 0 then 0 else maxRetries)
               == Retried(database.db, call, faults, attempts, if maxRetries < 0 then 0 else maxRetries)
        invariant forall i | 0 <= i < attempts :: AttemptThrows(database.db, call, faults(i)) == Some(Conflict)
        invariant waited == Backoff(initialBackoff, attempts) + Jitters(jitter, attempts)
      {
        JittersBound(jitter, attempts);
        WaitBounds(initialBackoff, attempts, Jitters(jitter, attempts));
        AttemptExactly(database.db, call, faults(attempts));
        thrown := Attempt(call, faults(attempts));
        attempts := attempts + 1;
        if thrown != Some(Conflict) { return; }
        waited := waited + Pause(initialBackoff, attempts - 1) + jitter(attempts - 1);
      }
      JittersBound(jitter, attempts);
      WaitBounds(initialBackoff, attempts, Jitters(jitter, attempts));
      thrown := Some(Exhausted);
    }
  }

  /** Both closed forms of the longest wait. */
  lemma WaitIsBounded(b: real, attempts: nat, n: nat, waited: real)
    requires b >= 0.0 && attempts <= n
    requires waited <= LongestWait(b, attempts)
    ensures waited <= LongestWait(b, n)
    ensures waited <= 5100.0 * n as real
    ensures waited <= b * (Pow2(n) as real - 1.0) + 100.0 * n as real
  {
    BackoffGrows(b, attempts, n);
    BackoffBounds(b, n);
  }

  /** The leg fails exactly when its own transaction would, or when no attempt gets through:
      every one conflicts, or one breaks before any succeeds. */
  lemma {:induction false} RetriedExactly(db: Db, call: LegCall, faults: nat -> Option<Fault>, i: nat, n: nat)
    ensures Retried(db, call, faults, i, n).None?
       <==> exists k | i <= k < n :: faults(k).None? && Outcome(db, call).Success?
                                  && forall j | i <= j < k :: AttemptThrows(db, call, faults(j)) == Some(Conflict)
    decreases n - i
  {
    if i < n {
      RetriedExactly(db, call, faults, i + 1, n);
      if AttemptThrows(db, call, faults(i)) == Some(Conflict) {
        if k :| i + 1 <= k < n && faults(k).None? && Outcome(db, call).Success?
                && forall j | i + 1 <= j < k :: AttemptThrows(db, call, faults(j)) == Some(Conflict) {
          assert forall j | i <= j < k :: AttemptThrows(db, call, faults(j)) == Some(Conflict);
        }
      } else {
        if k :| i <= k < n && faults(k).None? && Outcome(db, call).Success?
                && forall j | i <= j < k :: AttemptThrows(db, call, faults(j)) == Some(Conflict) {
          assert k == i;
        }
      }
    }
  }

  /** The first attempt that does not end in a conflict decides; if there is none, the attempts are used up. */
  lemma {:induction false} FirstOtherDecides(db: Db, call: LegCall, faults: nat -> Option<Fault>, i: nat, k: nat, n: nat)
    requires i <= k <= n
    requires forall j | i <= j < k :: AttemptThrows(db, call, faults(j)) == Some(Conflict)
    requires k < n ==> AttemptThrows(db, call, faults(k)) != Some(Conflict)
    ensures Retried(db, call, faults, i, n) == if k < n then AttemptThrows(db, call, faults(k)) else Some(Exhausted)
    decreases k - i
  {
    if i < k {
      FirstOtherDecides(db, call, faults, i + 1, k, n);
    }
  }
}
