/** The saga protocol refines a system whose transfers are indivisible. Crediting every
    sender with what is in flight from it, a debit and a refund disappear and a credit
    becomes one transfer. */
module AtomicTransfers {
  import opened Basics
  import opened Wallets
  import opened Store
  import opened Ledger
  import opened SagaSystem

  // ---- the simple system ----

  type Balances = map<WalletId, int>

  datatype SimpleStep =
    | Idle
    | OpenAt(wallet: WalletId)
    | Put(wallet: WalletId, amount: int)
    | Take(wallet: WalletId, amount: int)
    | Transfer(saga: SagaId, from: WalletId, to: WalletId, amount: int)

  function At(b: Balances, w: WalletId): int {
    if w in b then b[w] else 0
  }

  predicate Enabled(b: Balances, l: SimpleStep) {
    match l
    case Idle => true
    case OpenAt(w) => w !in b
    case Put(_, a) => a > 0
    case Take(w, a) => w in b && 0 < a <= b[w]
    case Transfer(_, f, t, a) => f != t && f in b && t in b && 0 < a <= b[f]
  }

  function Simple(b: Balances, l: SimpleStep): Balances {
    match l
    case Idle => b
    case OpenAt(w) => b[w := 0]
    case Put(w, a) => b[w := At(b, w) + a]
    case Take(w, a) => b[w := At(b, w) - a]
    case Transfer(_, f, t, a) => b[f := At(b, f) - a][t := At(b, t) + a]
  }

  function SimpleRun(b: Balances, ls: seq<SimpleStep>): Balances {
    if ls == [] then b else Simple(SimpleRun(b, ls[..|ls| - 1]), ls[|ls| - 1])
  }

  predicate EnabledRun(b: Balances, ls: seq<SimpleStep>) {
    ls == [] || (EnabledRun(b, ls[..|ls| - 1]) && Enabled(SimpleRun(b, ls[..|ls| - 1]), ls[|ls| - 1]))
  }

  function Transfers(ls: seq<SimpleStep>, sid: SagaId): nat {
    if ls == [] then 0
    else
      var l := ls[|ls| - 1];
      Transfers(ls[..|ls| - 1], sid) + (if l.Transfer? && l.saga == sid then 1 else 0)
  }

  // ---- the mapping ----

  function Owed(sagas: map<SagaId, Saga>, w: WalletId): map<SagaId, int> {
    map sid <- sagas :: if sagas[sid].from == w && sagas[sid].state == Debited then sagas[sid].amount else 0
  }

  ghost function OwedTo(sagas: map<SagaId, Saga>): WalletId -> int {
    w => MapSum(Owed(sagas, w))
  }

  function Plus(wallets: map<WalletId, WalletRow>, extra: WalletId -> int): Balances {
    map w <- wallets :: wallets[w].balance + extra(w)
  }

  ghost function Virtual(db: Db): Balances {
    Plus(db.wallets, OwedTo(db.sagas))
  }

  /** The indivisible step a transaction stands for. */
  function Label(db: Db, act: Act): SimpleStep {
    match act
    case Open(w, _) => if w in db.wallets then Idle else OpenAt(w)
    case OnWallet(w, op, request) =>
      if WalletTx(db, w, op, request).Failure? then Idle
      else if op.Deposit? then Put(w, op.amount)
      else if op.Withdraw? then Take(w, op.amount)
      else Idle
    case RunLeg(sid, leg, w, amount) =>
      if leg == Pay && LegTx(db, sid, leg, w, amount).Success? then
        Transfer(sid, db.sagas[sid].from, db.sagas[sid].to, db.sagas[sid].amount)
      else Idle
    case _ => Idle
  }

  ghost predicate Simulates(db: Db, db': Db, l: SimpleStep) {
    Enabled(Virtual(db), l) && Virtual(db') == Simple(Virtual(db), l)
  }

  lemma OwedPut(sagas: map<SagaId, Saga>, sid: SagaId, g: Saga, w: WalletId)
    ensures MapSum(Owed(sagas[sid := g], w)) - MapSum(Owed(sagas, w))
         == (if g.from == w && g.state == Debited then g.amount else 0)
          - (if sid in sagas && sagas[sid].from == w && sagas[sid].state == Debited then sagas[sid].amount else 0)
  {
    var v := if g.from == w && g.state == Debited then g.amount else 0;
    assert Owed(sagas[sid := g], w) == Owed(sagas, w)[sid := v];
    MapSumPut(Owed(sagas, w), sid, v);
  }

  lemma OwedNonNegative(db: Db, w: WalletId)
    requires SagasOk(db.wallets, db.sagas, db.events)
    ensures MapSum(Owed(db.sagas, w)) >= 0
    ensures forall sid <- db.sagas :: Owed(db.sagas, w)[sid] <= MapSum(Owed(db.sagas, w))
  {
    forall sid <- db.sagas
      ensures Owed(db.sagas, w)[sid] >= 0
    {
      assert SagaShape(db.wallets, db.sagas[sid]);
    }
    MapSumNonNegative(Owed(db.sagas, w));
  }

  /** Nobody owes a wallet that does not exist. */
  lemma OwedNowhere(db: Db, w: WalletId)
    requires SagasOk(db.wallets, db.sagas, db.events)
    requires w !in db.wallets
    ensures MapSum(Owed(db.sagas, w)) == 0
  {
    forall sid <- db.sagas
      ensures Owed(db.sagas, w)[sid] == 0
    {
      assert SagaShape(db.wallets, db.sagas[sid]);
    }
    MapSumZero(Owed(db.sagas, w));
  }

  // The four ways one wallet row and the debts can change, whatever the debts are.

  lemma Added(wallets: map<WalletId, WalletRow>, w: WalletId, row: WalletRow, extra: WalletId -> int, delta: int)
    requires row.balance == (if w in wallets then wallets[w].balance else 0) + delta
    requires w !in wallets ==> extra(w) == 0
    ensures var b := Plus(wallets, extra); Plus(wallets[w := row], extra) == b[w := At(b, w) + delta]
  {
  }

  lemma Same(wallets: map<WalletId, WalletRow>, w: WalletId, row: WalletRow, extra: WalletId -> int, extra': WalletId -> int)
    requires w in wallets
    requires row.balance + extra'(w) == wallets[w].balance + extra(w)
    requires forall x | x != w :: extra'(x) == extra(x)
    ensures Plus(wallets[w := row], extra') == Plus(wallets, extra)
  {
    forall x <- wallets
      ensures Plus(wallets[w := row], extra')[x] == Plus(wallets, extra)[x]
    {
      assert x == w || extra'(x) == extra(x);
    }
  }

  lemma Shifted(wallets: map<WalletId, WalletRow>, from: WalletId, to: WalletId, row: WalletRow,
                extra: WalletId -> int, extra': WalletId -> int, amount: int)
    requires from in wallets && to in wallets && from != to
    requires row.balance == wallets[to].balance + amount
    requires extra'(from) == extra(from) - amount
    requires forall x | x != from :: extra'(x) == extra(x)
    ensures var b := Plus(wallets, extra);
            Plus(wallets[to := row], extra') == b[from := b[from] - amount][to := b[to] + amount]
  {
    var b := Plus(wallets, extra);
    forall x <- wallets
      ensures Plus(wallets[to := row], extra')[x] == b[from := b[from] - amount][to := b[to] + amount][x]
    {
      assert x == from || extra'(x) == extra(x);
    }
  }

  lemma EnsureSimulates(db: Db, w: WalletId, c: Currency)
    requires SagasOk(db.wallets, db.sagas, db.events)
    ensures Simulates(db, Ensure(db, w, c), if w in db.wallets then Idle else OpenAt(w))
  {
    if w !in db.wallets {
      OwedNowhere(db, w);
      Added(db.wallets, w, NewRow(c), OwedTo(db.sagas), 0);
    }
  }

  /** A direct transaction touches one wallet row and no saga. */
  lemma WalletTxTouches(db: Db, w: WalletId, op: WalletOp, request: Option<RequestId>)
    requires !op.Credit? && WalletTx(db, w, op, request).Success?
    ensures var db' := Apply(db, OnWallet(w, op, request));
            && db'.sagas == db.sagas
            && w in db'.wallets
            && db'.wallets == db.wallets[w := db'.wallets[w]]
            && (w in db.wallets || op.Deposit?)
            && db'.wallets[w].balance == (if w in db.wallets then db.wallets[w].balance else 0)
                 + (if op.Deposit? then op.amount else if op.Withdraw? then -op.amount else 0)
            && (op.Deposit? || op.Withdraw? ==> op.amount > 0)
            && (op.Withdraw? ==> db'.wallets[w].balance >= 0)
  {
  }

  lemma WalletTxLabelled(db: Db, w: WalletId, op: WalletOp, request: Option<RequestId>, extra: WalletId -> int)
    requires !op.Credit?
    requires if w in db.wallets then extra(w) >= 0 else extra(w) == 0
    ensures var act := OnWallet(w, op, request);
            var b := Plus(db.wallets, extra);
            Enabled(b, Label(db, act)) && Plus(Apply(db, act).wallets, extra) == Simple(b, Label(db, act))
  {
    if WalletTx(db, w, op, request).Success? {
      WalletTxTouches(db, w, op, request);
      var row := Apply(db, OnWallet(w, op, request)).wallets[w];
      Added(db.wallets, w, row, extra, if op.Deposit? then op.amount else if op.Withdraw? then -op.amount else 0);
      assert w in db.wallets ==> Plus(db.wallets, extra)[w := At(Plus(db.wallets, extra), w)] == Plus(db.wallets, extra);
    }
  }

  lemma WalletTxSimulates(db: Db, w: WalletId, op: WalletOp, request: Option<RequestId>)
    requires SagasOk(db.wallets, db.sagas, db.events) && !op.Credit?
    ensures Simulates(db, Apply(db, OnWallet(w, op, request)), Label(db, OnWallet(w, op, request)))
  {
    if w in db.wallets {
      OwedNonNegative(db, w);
    } else {
      OwedNowhere(db, w);
    }
    WalletTxLabelled(db, w, op, request, OwedTo(db.sagas));
    assert Apply(db, OnWallet(w, op, request)).sagas == db.sagas;
  }

  /** A leg touches one wallet row and moves one saga on. */
  lemma LegTouches(db: Db, sid: SagaId, leg: Leg, w: WalletId, amount: int)
    requires Allowed(db, RunLeg(sid, leg, w, amount)) && LegTx(db, sid, leg, w, amount).Success?
    ensures var db' := Apply(db, RunLeg(sid, leg, w, amount));
            && sid in db.sagas && w in db.wallets && amount > 0
            && db.sagas[sid].state == LegNeeds(leg)
            && db'.sagas == db.sagas[sid := db.sagas[sid].(state := LegLeaves(leg))]
            && w in db'.wallets
            && db'.wallets == db.wallets[w := db'.wallets[w]]
            && db'.wallets[w].balance == db.wallets[w].balance + (if leg == Debit then -amount else amount)
            && (leg == Debit ==> db'.wallets[w].balance >= 0)
  {
  }

  lemma LegLabelled(db: Db, sid: SagaId, leg: Leg, w: WalletId, amount: int,
                    extra: WalletId -> int, extra': WalletId -> int)
    requires Allowed(db, RunLeg(sid, leg, w, amount)) && LegTx(db, sid, leg, w, amount).Success?
    requires SagaShape(db.wallets, db.sagas[sid]) && db.wallets[db.sagas[sid].from].balance >= 0
    requires forall x :: extra'(x) - extra(x)
                      == if x != db.sagas[sid].from then 0 else if leg == Debit then amount else -amount
    requires leg == Pay ==> amount <= extra(db.sagas[sid].from)
    ensures var act := RunLeg(sid, leg, w, amount);
            var b := Plus(db.wallets, extra);
            Enabled(b, Label(db, act)) && Plus(Apply(db, act).wallets, extra') == Simple(b, Label(db, act))
  {
    LegTouches(db, sid, leg, w, amount);
    var row := Apply(db, RunLeg(sid, leg, w, amount)).wallets[w];
    if leg == Pay {
      Shifted(db.wallets, db.sagas[sid].from, w, row, extra, extra', amount);
    } else {
      Same(db.wallets, w, row, extra, extra');
    }
  }

  lemma LegSimulates(db: Db, sid: SagaId, leg: Leg, w: WalletId, amount: int)
    requires SagasOk(db.wallets, db.sagas, db.events)
    requires forall x <- db.wallets :: db.wallets[x].balance >= 0
    requires Allowed(db, RunLeg(sid, leg, w, amount))
    ensures Simulates(db, Apply(db, RunLeg(sid, leg, w, amount)), Label(db, RunLeg(sid, leg, w, amount)))
  {
    if LegTx(db, sid, leg, w, amount).Success? {
      LegTouches(db, sid, leg, w, amount);
      var g := db.sagas[sid];
      var g' := g.(state := LegLeaves(leg));
      var before, after := OwedTo(db.sagas), OwedTo(db.sagas[sid := g']);
      forall x: WalletId
        ensures after(x) - before(x) == if x != g.from then 0 else if leg == Debit then amount else -amount
      {
        OwedPut(db.sagas, sid, g', x);
      }
      assert SagaShape(db.wallets, g);
      OwedNonNegative(db, g.from);
      assert leg == Pay ==> Owed(db.sagas, g.from)[sid] == amount;
      LegLabelled(db, sid, leg, w, amount, before, after);
    }
  }

  lemma OwedUnchanged(db: Db, sid: SagaId, g: Saga)
    requires g.state != Debited && (sid in db.sagas ==> db.sagas[sid].state != Debited)
    ensures Virtual(db.(sagas := db.sagas[sid := g])) == Virtual(db)
  {
    var before, after := OwedTo(db.sagas), OwedTo(db.sagas[sid := g]);
    forall x: WalletId
      ensures after(x) == before(x)
    {
      OwedPut(db.sagas, sid, g, x);
    }
    SameDebts(db.wallets, before, after);
  }

  lemma SameDebts(wallets: map<WalletId, WalletRow>, extra: WalletId -> int, extra': WalletId -> int)
    requires forall x :: extra'(x) == extra(x)
    ensures Plus(wallets, extra') == Plus(wallets, extra)
  {
    forall x <- wallets
      ensures Plus(wallets, extra')[x] == Plus(wallets, extra)[x]
    {
      assert extra'(x) == extra(x);
    }
  }

  lemma NoneNegative(db: Db)
    requires DbInv(db)
    ensures forall x <- db.wallets :: db.wallets[x].balance >= 0
  {
    forall x <- db.wallets
      ensures db.wallets[x].balance >= 0
    {
      WalletBalance(db, x);
    }
  }

  lemma ApplySimulates(db: Db, act: Act)
    requires DbInv(db) && Allowed(db, act)
    ensures Simulates(db, Apply(db, act), Label(db, act))
  {
    match act
    case Open(w, c) => EnsureSimulates(db, w, c);
    case OnWallet(w, op, request) => WalletTxSimulates(db, w, op, request);
    case NewSaga(sid, from, to, amount, c) =>
      OwedUnchanged(db, sid, Saga(from, to, amount, c, Pending));
      assert Virtual(Apply(db, act)) == Virtual(db);
    case RunLeg(sid, leg, w, amount) =>
      NoneNegative(db);
      LegSimulates(db, sid, leg, w, amount);
    case MarkFailed(sid) =>
      if sid in db.sagas {
        OwedUnchanged(db, sid, db.sagas[sid].(state := Failed));
      }
    case _ =>
  }

  // ---- over runs ----

  function Labels(s: State, actions: seq<Action>): seq<SimpleStep>
    decreases |actions|
  {
    if actions == [] then []
    else
      var before := actions[..|actions| - 1];
      var t := Run(s, before);
      var act := ActOf(t, actions[|actions| - 1]);
      Labels(s, before) + [if act.None? then Idle else Label(t.db, act.value)]
  }

  lemma LabelCompletes(db: Db, act: Act, sid: SagaId)
    requires Allowed(db, act)
    ensures var l := Label(db, act);
            IsCompleted(Apply(db, act), sid) <==> IsCompleted(db, sid) || (l.Transfer? && l.saga == sid)
    ensures var l := Label(db, act);
            !(IsCompleted(db, sid) && l.Transfer? && l.saga == sid)
  {
  }

  /** Every run, whatever its crashes, retries and races, is a run of the simple system in
      which every step is enabled, so no transfer ever takes more than its sender has; and
      a saga completes by exactly one indivisible transfer of its own. */
  lemma {:induction false} TransfersAreAtomic(s: State, actions: seq<Action>)
    requires Inv(s)
    ensures var ls := Labels(s, actions);
            var t := Run(s, actions);
            && EnabledRun(Virtual(s.db), ls)
            && SimpleRun(Virtual(s.db), ls) == Virtual(t.db)
            && (forall sid :: Transfers(ls, sid)
                  == (if IsCompleted(t.db, sid) then 1 else 0) - (if IsCompleted(s.db, sid) then 1 else 0))
    decreases |actions|
  {
    if actions != [] {
      var before, a := actions[..|actions| - 1], actions[|actions| - 1];
      TransfersAreAtomic(s, before);
      RunKeeps(s, before);
      var t := Run(s, before);
      var act := ActOf(t, a);
      var ls := Labels(s, actions);
      assert ls[..|ls| - 1] == Labels(s, before);
      if act.Some? {
        StartedAllowed(t, a);
        ApplySimulates(t.db, act.value);
        forall sid
          ensures Transfers(ls, sid)
               == (if IsCompleted(Run(s, actions).db, sid) then 1 else 0) - (if IsCompleted(s.db, sid) then 1 else 0)
        {
          LabelCompletes(t.db, act.value, sid);
        }
      }
    }
  }
}
