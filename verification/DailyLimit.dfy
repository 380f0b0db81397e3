/** The daily withdrawal limit over whole runs. */
module DailyLimit {
  import opened Basics
  import opened Wallets
  import opened Store
  import opened Ledger
  import opened SagaSystem

  /** What the log says left the wallet today: direct withdrawals and transfer debits,
      later-compensated ones included. */
  function TakenToday(db: Db, w: WalletId): int {
    WithdrawnOn(OfWallet(db.events, w), db.today)
  }

  /** The row's running total, read for today, is what the log says. */
  lemma TotalIsTakenToday(s: State, actions: seq<Action>, w: WalletId)
    requires Inv(s)
    ensures var db := Run(s, actions).db;
            w in db.wallets ==> EffectiveTotal(db.wallets[w], db.today) == TakenToday(db, w) >= 0
  {
    RunKeeps(s, actions);
    var db := Run(s, actions).db;
    if w in db.wallets {
      assert LedgerOk(db.wallets[w], OfWallet(db.events, w), db.today);
    }
  }

  predicate LeavesLimit(actions: seq<Action>, w: WalletId) {
    forall a <- actions :: a.Submit? && a.op.SetLimit? ==> a.wallet != w
  }

  /** Within the limit, or already over it when the limit was set that day, and nothing taken since. */
  predicate Bounded(db: Db, w: WalletId, limit: int, day: int, taken: int) {
    && w in db.wallets
    && db.wallets[w].dailyLimit == Some(limit)
    && (EffectiveTotal(db.wallets[w], db.today) <= limit
        || (db.today == day && EffectiveTotal(db.wallets[w], day) == taken))
  }

  lemma WalletTxKeepsBound(db: Db, w: WalletId, op: WalletOp, request: Option<RequestId>,
                           x: WalletId, limit: int, day: int, taken: int)
    requires Bounded(db, x, limit, day, taken)
    requires op.SetLimit? ==> w != x
    ensures Bounded(Apply(db, OnWallet(w, op, request)), x, limit, day, taken)
  {
  }

  lemma LegKeepsBound(db: Db, sid: SagaId, leg: Leg, w: WalletId, amount: int, x: WalletId, limit: int, day: int, taken: int)
    requires Bounded(db, x, limit, day, taken)
    ensures Bounded(Apply(db, RunLeg(sid, leg, w, amount)), x, limit, day, taken)
  {
  }

  lemma TickKeepsBound(db: Db, n: nat, x: WalletId, limit: int, day: int, taken: int)
    requires Bounded(db, x, limit, day, taken) && limit >= 0
    requires db.wallets[x].lastDay.Some? ==> db.wallets[x].lastDay.value <= db.today
    ensures Bounded(Apply(db, Tick(n)), x, limit, day, taken)
  {
  }

  lemma ApplyKeepsBound(db: Db, act: Act, x: WalletId, limit: int, day: int, taken: int)
    requires Bounded(db, x, limit, day, taken) && limit >= 0
    requires act.OnWallet? && act.op.SetLimit? ==> act.wallet != x
    requires db.wallets[x].lastDay.Some? ==> db.wallets[x].lastDay.value <= db.today
    ensures Bounded(Apply(db, act), x, limit, day, taken)
  {
    match act
    case OnWallet(w, op, request) => WalletTxKeepsBound(db, w, op, request, x, limit, day, taken);
    case RunLeg(sid, leg, w, amount) => LegKeepsBound(db, sid, leg, w, amount, x, limit, day, taken);
    case Tick(n) => TickKeepsBound(db, n, x, limit, day, taken);
    case _ =>
  }

  lemma NothingLater(db: Db, w: WalletId)
    requires DbInv(db) && w in db.wallets
    ensures db.wallets[w].lastDay.Some? ==> db.wallets[w].lastDay.value <= db.today
  {
    assert LedgerOk(db.wallets[w], OfWallet(db.events, w), db.today);
  }

  lemma StepKeepsBound(t: State, a: Action, w: WalletId, limit: int, day: int, taken: int)
    requires DbInv(t.db) && Bounded(t.db, w, limit, day, taken) && limit >= 0
    requires a.Submit? && a.op.SetLimit? ==> a.wallet != w
    ensures Bounded(Step(t, a).db, w, limit, day, taken)
  {
    NothingLater(t.db, w);
    var act := ActOf(t, a);
    if act.Some? {
      ApplyKeepsBound(t.db, act.value, w, limit, day, taken);
    }
  }

  lemma {:induction false} RunKeepsBound(s: State, actions: seq<Action>, w: WalletId, limit: int, day: int, taken: int)
    requires Inv(s) && Bounded(s.db, w, limit, day, taken) && limit >= 0 && LeavesLimit(actions, w)
    ensures Bounded(Run(s, actions).db, w, limit, day, taken)
    decreases |actions|
  {
    if actions != [] {
      var before, a := actions[..|actions| - 1], actions[|actions| - 1];
      assert LeavesLimit(before, w) && a in actions;
      RunKeepsBound(s, before, w, limit, day, taken);
      RunKeeps(s, before);
      StepKeepsBound(Run(s, before), a, w, limit, day, taken);
    }
  }

  /** From any moment on, over every run in which nobody changes a limit in force, no day's direct
      withdrawals and transfer debits pass it: not the current day's either, unless they had
      passed it before, and then nothing more leaves the wallet that day. */
  lemma LimitHolds(s: State, actions: seq<Action>, w: WalletId, limit: int)
    requires Inv(s) && w in s.db.wallets && s.db.wallets[w].dailyLimit == Some(limit) && limit >= 0
    requires LeavesLimit(actions, w)
    ensures var db := Run(s, actions).db;
            TakenToday(db, w) <= limit || (db.today == s.db.today && TakenToday(db, w) == TakenToday(s.db, w))
  {
    TotalIsTakenToday(s, [], w);
    TotalIsTakenToday(s, actions, w);
    RunKeepsBound(s, actions, w, limit, s.db.today, TakenToday(s.db, w));
  }

  /** In every state of every run a withdrawal succeeds exactly when the amount is positive, the wallet is
      active and holds it, and what the log says left the wallet today leaves room for it. */
  lemma WithdrawalByTheLog(s: State, actions: seq<Action>, w: WalletId, amount: int)
    requires Inv(s) && w in Run(s, actions).db.wallets
    ensures var db := Run(s, actions).db;
            var row := db.wallets[w];
            ApplyOp(row, Withdraw(amount), db.today).Success?
            <==> amount > 0 && row.status == Active && Replay(OfWallet(db.events, w)) >= amount
                 && (row.dailyLimit.Some? ==> TakenToday(db, w) + amount <= row.dailyLimit.value)
  {
    TotalIsTakenToday(s, actions, w);
    RunKeeps(s, actions);
    var db := Run(s, actions).db;
    assert LedgerOk(db.wallets[w], OfWallet(db.events, w), db.today);
    WithdrawingExactly(db.wallets[w], amount, db.today);
  }
}
