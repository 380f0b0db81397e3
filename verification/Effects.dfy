/** What one transaction does to every table, and which error it meets first. */
module Effects {
  import opened Basics
  import opened Wallets
  import opened Store

  /** The row an operation finds: a deposit finds an empty USD wallet where there is none. */
  function Found(db: Db, w: WalletId): WalletRow {
    if w in db.wallets then db.wallets[w] else NewRow(USD)
  }

  predicate OnlyWallet(db: Db, db': Db, w: WalletId) {
    && db'.wallets.Keys == db.wallets.Keys + {w}
    && (forall x <- db.wallets :: x != w ==> db'.wallets[x] == db.wallets[x])
    && db'.today == db.today
  }

  /** The kind of event an operation writes. */
  predicate Recorded(op: WalletOp, kind: EventType, amount: Option<int>) {
    match op
    case Deposit(a) => kind == FundsDeposited && amount == Some(a)
    case Credit(a) => kind == FundsDeposited && amount == Some(a)
    case Withdraw(a) => kind == FundsWithdrawn && amount == Some(a)
    case Freeze => kind == WalletFrozen && amount.None?
    case Unfreeze => kind == WalletUnfrozen && amount.None?
    case Close => kind == WalletWasClosed && amount.None?
    case SetLimit(l) => kind == (if l.Some? then LimitWasSet else LimitWasRemoved) && amount.None?
  }

  /** A direct transaction is refused when there is no wallet, unless it is a deposit, or when the operation
      is; it then leaves no trace, not even the wallet it created. */
  lemma DirectRefusals(db: Db, w: WalletId, op: WalletOp, request: Option<RequestId>)
    ensures var r := WalletTx(db, w, op, request);
            && (r == Failure(WalletNotFound(w)) <==> w !in db.wallets && !op.Deposit?)
            && (forall e :: r == Failure(WalletFault(e)) <==>
                  (w in db.wallets || op.Deposit?) && ApplyOp(Found(db, w), op, db.today) == Failure(e))
            && (r.Failure? ==> r.error.WalletNotFound? || r.error.WalletFault?)
            && (r.Failure? ==> Apply(db, OnWallet(w, op, request)) == db)
  {
  }

  /** Otherwise it changes its wallet's row and no other, writes one event and one message about what was
      done, and answers the new balance, which it stores if the request has an id. */
  lemma DirectEffect(db: Db, w: WalletId, op: WalletOp, request: Option<RequestId>)
    requires WalletTx(db, w, op, request).Success?
    ensures var (db', reply) := WalletTx(db, w, op, request).value;
            && Apply(db, OnWallet(w, op, request)) == db'
            && OnlyWallet(db, db', w) && db'.sagas == db.sagas
            && ApplyOp(Found(db, w), op, db.today) == Success(db'.wallets[w])
            && reply == BalanceReply(db'.wallets[w].balance, w)
            && db'.keys == (if request.Some? then db.keys[request.value := reply] else db.keys)
  {
  }

  lemma DirectMessages(db: Db, w: WalletId, op: WalletOp, request: Option<RequestId>)
    requires WalletTx(db, w, op, request).Success?
    ensures var db' := WalletTx(db, w, op, request).value.0;
            var n, m := |db.events|, |db'.events|;
            && db.events <= db'.events && m == n + (if w in db.wallets then 1 else 2)
            && (w !in db.wallets ==> db'.events[n].wallet == w && db'.events[n].kind == WalletCreated)
            && db'.events[m - 1].wallet == w && db'.events[m - 1].saga.None?
            && Recorded(op, db'.events[m - 1].kind, db'.events[m - 1].amount)
            && db.outbox <= db'.outbox && |db'.outbox| == |db.outbox| + 1
            && var r := db'.outbox[|db.outbox|];
               r.aggregate == w && r.saga.None? && Recorded(op, r.kind, r.amount)
  {
    var row := ApplyOp(Found(db, w), op, db.today).value;
    assert OpAmount(op) != Some(0);
  }

  // ---- legs ----

  /** The wallet is looked at first, then the saga: each refusal of a leg, and when it comes. */
  lemma LegRefusals(db: Db, sid: SagaId, leg: Leg, w: WalletId, amount: int)
    ensures var r := LegTx(db, sid, leg, w, amount);
            var done :=
              if w in db.wallets then ApplyOp(db.wallets[w], LegOp(leg, amount), db.today) else Failure(WalletClosed);
            && (r == Failure(WalletNotFound(w)) <==> w !in db.wallets)
            && (forall e :: r == Failure(WalletFault(e)) <==> w in db.wallets && done == Failure(e))
            && (r == Failure(SagaNotFound(sid)) <==> done.Success? && sid !in db.sagas)
            && (forall st :: r == Failure(WrongState(st)) <==>
                  done.Success? && sid in db.sagas && db.sagas[sid].state == st && st != LegNeeds(leg))
            && (r.Failure? ==> Apply(db, RunLeg(sid, leg, w, amount)) == db)
  {
  }

  /** A debit takes the amount from a PENDING saga's wallet and leaves it DEBITED, a credit or a refund puts
      it into a wallet and leaves the DEBITED saga COMPLETED or COMPENSATED; one wallet and one saga
      change, and no stored answer. */
  lemma LegEffect(db: Db, sid: SagaId, leg: Leg, w: WalletId, amount: int)
    requires LegTx(db, sid, leg, w, amount).Success?
    ensures var db' := LegTx(db, sid, leg, w, amount).value;
            var g := db.sagas[sid];
            && w in db.wallets && sid in db.sagas && amount > 0
            && OnlyWallet(db, db', w) && db'.keys == db.keys
            && db'.wallets[w].balance == db.wallets[w].balance + (if leg == Debit then -amount else amount)
            && db'.sagas == db.sagas[sid := g.(state := db'.sagas[sid].state)]
            && (leg == Debit ==> g.state == Pending && db'.sagas[sid].state == SagaState.Debited)
            && (leg == Pay ==> g.state == SagaState.Debited && db'.sagas[sid].state == Completed)
            && (leg == Refund ==> g.state == SagaState.Debited && db'.sagas[sid].state == Compensated)
  {
  }

  /** It queues one message about the wallet, and a credit a second one, about the sender. */
  lemma LegMessages(db: Db, sid: SagaId, leg: Leg, w: WalletId, amount: int)
    requires LegTx(db, sid, leg, w, amount).Success?
    ensures var db' := LegTx(db, sid, leg, w, amount).value;
            var kind := if leg == Debit then FundsWithdrawn else if leg == Pay then FundsDeposited else TransferCompensated;
            && db'.events == db.events + [Event(w, kind, db.wallets[w].currency, Some(amount), Some(sid), db.today)]
            && db'.outbox == db.outbox + [OutboxRow(w, kind, Some(amount), Some(sid))]
                 + (if leg == Pay then
                      [OutboxRow(db.sagas[sid].from, TransferCompleted, Some(db.sagas[sid].amount), Some(sid))]
                    else [])
  {
    var out := db.outbox + [OutboxRow(w, LegKind(leg), Some(amount), Some(sid))];
    assert out + [] == out;
  }
}
