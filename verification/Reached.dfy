/** Runs of the system, from an empty database on, that lead where a single transaction is not enough
    to get: to a saga that a coordinator refunds while a worker pays, and to a refunded wallet. */
module Reached {
  import opened Basics
  import opened Wallets
  import opened Store
  import opened Ledger
  import opened SagaSystem
  import opened TransferOutcome
  import Guarantees
  import RowLocks
  import RowRuns

  predicate Hold(db: Db, from: WalletId, to: WalletId, x: int, y: int) {
    BalanceAt(db, from) == x && BalanceAt(db, to) == y
  }

  /** A deposit makes a transfer of it possible. */
  lemma Funded(from: WalletId, to: WalletId, amount: int) returns (actions: seq<Action>)
    requires from != to && amount > 0
    ensures var t := Run(INITIAL, actions);
            && t.coords == map[] && t.recs == map[] && t.db.sagas == map[] && Transferable(t.db, from, to, amount)
            && Hold(t.db, from, to, amount, 0)
  {
    actions := Extend(INITIAL, [], Submit(from, Deposit(amount), None));
  }

  /** The coordinator of a possible transfer, about to credit the receiver. */
  ghost predicate AboutToCredit(t: State, sid: SagaId, from: WalletId, to: WalletId, amount: int) {
    && sid in t.coords && t.coords[sid] == Coord(from, to, amount, None, Crediting)
    && sid in t.db.sagas && RowLocks.Owing(t.db, sid)
    && t.db.sagas[sid].from == from && t.db.sagas[sid].to == to && t.db.sagas[sid].amount == amount
  }

  lemma FindsSender(t: State, sid: SagaId, from: WalletId, to: WalletId, amount: int)
    requires sid !in t.coords && sid !in t.db.sagas && Transferable(t.db, from, to, amount)
    ensures var t' := Step(Step(t, Begin(sid, from, to, amount, None)), Advance(sid));
            && t'.db == t.db && t'.recs == t.recs && sid in t'.coords
            && t'.coords[sid] == Coord(from, to, amount, None, Opening(t.db.wallets[from].currency))
  {
  }

  lemma Creates(t: State, sid: SagaId, from: WalletId, to: WalletId, amount: int)
    requires sid !in t.db.sagas && Transferable(t.db, from, to, amount)
    requires sid in t.coords && t.coords[sid] == Coord(from, to, amount, None, Opening(t.db.wallets[from].currency))
    ensures var t' := Step(Step(t, Advance(sid)), Advance(sid));
            && t'.recs == t.recs
            && sid in t'.coords && t'.coords[sid] == Coord(from, to, amount, None, Debiting)
            && IsSaga(t'.db, sid, Pending, from, to, amount) && t'.db.sagas[sid].to == to
            && ApplyOp(t'.db.wallets[from], Withdraw(amount), t'.db.today).Success? && t'.db.wallets[to].status == Active
            && Hold(t'.db, from, to, BalanceAt(t.db, from), BalanceAt(t.db, to))
  {
  }

  lemma Opens(s: State, before: seq<Action>, sid: SagaId, from: WalletId, to: WalletId, amount: int)
    returns (actions: seq<Action>)
    requires var t := Run(s, before); sid !in t.coords && sid !in t.db.sagas && Transferable(t.db, from, to, amount)
    ensures var t := Run(s, actions);
            && t.recs == Run(s, before).recs
            && sid in t.coords && t.coords[sid] == Coord(from, to, amount, None, Debiting)
            && IsSaga(t.db, sid, Pending, from, to, amount) && t.db.sagas[sid].to == to
            && ApplyOp(t.db.wallets[from], Withdraw(amount), t.db.today).Success? && t.db.wallets[to].status == Active
            && Hold(t.db, from, to, BalanceAt(Run(s, before).db, from), BalanceAt(Run(s, before).db, to))
  {
    actions := Extend(s, before, Begin(sid, from, to, amount, None));
    actions := Extend(s, actions, Advance(sid));
    FindsSender(Run(s, before), sid, from, to, amount);
    var t := Run(s, actions);
    actions := Extend(s, actions, Advance(sid));
    actions := Extend(s, actions, Advance(sid));
    Creates(t, sid, from, to, amount);
  }

  lemma Debits(s: State, before: seq<Action>, sid: SagaId, from: WalletId, to: WalletId, amount: int)
    returns (actions: seq<Action>)
    requires var t := Run(s, before);
             && sid in t.coords && t.coords[sid] == Coord(from, to, amount, None, Debiting)
             && IsSaga(t.db, sid, Pending, from, to, amount) && t.db.sagas[sid].to == to
             && ApplyOp(t.db.wallets[from], Withdraw(amount), t.db.today).Success? && t.db.wallets[to].status == Active
    ensures Run(s, actions).recs == Run(s, before).recs && AboutToCredit(Run(s, actions), sid, from, to, amount)
    ensures Hold(Run(s, actions).db, from, to, BalanceAt(Run(s, before).db, from) - amount, BalanceAt(Run(s, before).db, to))
  {
    actions := Extend(s, before, Advance(sid));
    assert Run(s, actions).coords[sid].pc == DebitCache;
    actions := Extend(s, actions, Advance(sid));
  }

  /** A possible transfer gets as far as the credit. */
  lemma GetsToCredit(s: State, before: seq<Action>, sid: SagaId, from: WalletId, to: WalletId, amount: int)
    returns (actions: seq<Action>)
    requires var t := Run(s, before); sid !in t.coords && sid !in t.db.sagas && Transferable(t.db, from, to, amount)
    ensures Run(s, actions).recs == Run(s, before).recs && AboutToCredit(Run(s, actions), sid, from, to, amount)
    ensures Hold(Run(s, actions).db, from, to, BalanceAt(Run(s, before).db, from) - amount, BalanceAt(Run(s, before).db, to))
  {
    actions := Opens(s, before, sid, from, to, amount);
    actions := Debits(s, actions, sid, from, to, amount);
  }

  lemma RefundIsLogged(t: State, sid: SagaId, from: WalletId, to: WalletId, amount: int)
    requires sid in t.coords && t.coords[sid] == Coord(from, to, amount, None, Refunding)
    requires RowLocks.Owing(t.db, sid) && t.db.sagas[sid].from == from && t.db.sagas[sid].amount == amount
    ensures var db' := Step(t, Advance(sid)).db;
            from in db'.wallets && Guarantees.Refunded(OfWallet(db'.events, from))
  {
    var db := t.db;
    var e := NewEvent(from, TransferCompensated, db.wallets[from].currency, Some(amount), Some(sid), db.today);
    assert Step(t, Advance(sid)).db == Apply(db, RunLeg(sid, Refund, from, amount));
    assert Apply(db, RunLeg(sid, Refund, from, amount)).events == db.events + [e];
    Appended(db.events, e);
  }

  /** An error at the credit takes the coordinator to the refund. */
  lemma TurnsBack(t: State, sid: SagaId, from: WalletId, to: WalletId, amount: int)
    requires AboutToCredit(t, sid, from, to, amount)
    ensures var t' := Step(Step(t, Fail(sid)), Advance(sid));
            && t'.db == t.db && t'.recs == t.recs
            && sid in t'.coords && t'.coords[sid] == Coord(from, to, amount, None, Refunding)
  {
  }

  lemma WorkerComes(t: State, sid: SagaId, from: WalletId, to: WalletId, amount: int, worker: nat)
    requires AboutToCredit(t, sid, from, to, amount) && worker !in t.recs
    ensures var t' := Step(t, Recover(worker, sid));
            && t'.db == t.db && AboutToCredit(t', sid, from, to, amount)
            && worker in t'.recs && t'.recs[worker] == Recovery(sid, t.db.sagas[sid], Paying)
  {
  }

  /** From an empty database a run reaches a saga whose coordinator is about to refund the sender while a
      recovery worker is about to pay the receiver. These are the two transactions of the race. */
  lemma RaceIsReached(sid: SagaId, from: WalletId, to: WalletId, amount: int, worker: nat) returns (actions: seq<Action>)
    requires from != to && amount > 0
    ensures var t := Run(INITIAL, actions);
            && RowLocks.Owing(t.db, sid) && sid in t.coords && worker in t.recs
            && CoordAct(sid, t.coords[sid]) == Some(RowLocks.GiveBack(t.db, sid))
            && WorkerAct(t.recs[worker]) == Some(RowLocks.PayIt(t.db, sid))
            && t.db.sagas[sid].from == from && t.db.sagas[sid].to == to && t.db.sagas[sid].amount == amount
            && Hold(t.db, from, to, 0, 0)
  {
    actions := Funded(from, to, amount);
    actions := GetsToCredit(INITIAL, actions, sid, from, to, amount);
    var t := Run(INITIAL, actions);
    WorkerComes(t, sid, from, to, amount, worker);
    actions := Extend(INITIAL, actions, Recover(worker, sid));
    TurnsBack(Run(INITIAL, actions), sid, from, to, amount);
    actions := Extend(INITIAL, actions, Fail(sid));
    actions := Extend(INITIAL, actions, Advance(sid));
  }

  /** All of it in one story from an empty database: one deposit, one transfer, an error at the credit, a
      recovery at the wrong moment. Afterwards the wallets hold the deposit twice. */
  lemma DepositDoubles(sid: SagaId, from: WalletId, to: WalletId, amount: int) returns (actions: seq<Action>)
    requires from != to && amount > 0
    ensures var t := Run(INITIAL, actions);
            var db := RowRuns.WRun(RowRuns.Whole(t, map[]), RowRuns.RaceActions(sid)).sys.db;
            && Hold(t.db, from, to, 0, 0) && Hold(db, from, to, amount, amount)
            && RowRuns.AnyStaleStep(RowRuns.Whole(t, map[]), RowRuns.RaceActions(sid))
  {
    actions := RaceIsReached(sid, from, to, amount, 0);
    RowRuns.RaceRuns(Run(INITIAL, actions), sid);
  }

  lemma Refunds(before: seq<Action>, sid: SagaId, from: WalletId, to: WalletId, amount: int) returns (actions: seq<Action>)
    requires AboutToCredit(Run(INITIAL, before), sid, from, to, amount)
    ensures var db := Run(INITIAL, actions).db; from in db.wallets && Guarantees.Refunded(OfWallet(db.events, from))
  {
    actions := Extend(INITIAL, before, Fail(sid));
    actions := Extend(INITIAL, actions, Advance(sid));
    TurnsBack(Run(INITIAL, before), sid, from, to, amount);
    RefundIsLogged(Run(INITIAL, actions), sid, from, to, amount);
    actions := Extend(INITIAL, actions, Advance(sid));
  }

  lemma ReachedInv(actions: seq<Action>)
    ensures DbInv(Run(INITIAL, actions).db)
  {
    InitialInv();
    RunKeeps(INITIAL, actions);
  }

  /** From an empty database a run reaches a wallet with a refund in its log, for which the documented
      balance query is wrong. */
  lemma RefundIsReached(sid: SagaId, from: WalletId, to: WalletId, amount: int) returns (actions: seq<Action>)
    requires from != to && amount > 0
    ensures var db := Run(INITIAL, actions).db;
            var es := OfWallet(db.events, from);
            from in db.wallets && Guarantees.Refunded(es) && Guarantees.DesignQuery(es) != db.wallets[from].balance
  {
    actions := Funded(from, to, amount);
    actions := GetsToCredit(INITIAL, actions, sid, from, to, amount);
    actions := Refunds(actions, sid, from, to, amount);
    ReachedInv(actions);
    Guarantees.QueryNow(Run(INITIAL, actions).db, from);
  }
}
