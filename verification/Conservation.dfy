/** Money is conserved per currency, over every run. */
module Conservation {
  import opened Basics
  import opened Wallets
  import opened Store
  import opened Ledger
  import opened SagaSystem

  function Held(wallets: map<WalletId, WalletRow>, c: Currency): map<WalletId, int> {
    map w <- wallets :: if wallets[w].currency == c then wallets[w].balance else 0
  }

  /** What has left senders and arrived nowhere yet. */
  function InFlight(sagas: map<SagaId, Saga>, c: Currency): map<SagaId, int> {
    map sid <- sagas :: if sagas[sid].currency == c && sagas[sid].state == Debited then sagas[sid].amount else 0
  }

  ghost function Total(db: Db, c: Currency): int {
    MapSum(Held(db.wallets, c)) + MapSum(InFlight(db.sagas, c))
  }

  /** Direct deposits minus direct withdrawals, read off the log. */
  function NetDirect(es: seq<Event>, c: Currency): int {
    if es == [] then 0
    else
      var e := es[|es| - 1];
      NetDirect(es[..|es| - 1], c) + (if e.saga == None && e.currency == c then Signed(e) else 0)
  }

  lemma PutWallet(wallets: map<WalletId, WalletRow>, w: WalletId, row: WalletRow, c: Currency)
    requires w in wallets ==> wallets[w].currency == row.currency
    ensures MapSum(Held(wallets[w := row], c)) - MapSum(Held(wallets, c))
         == if row.currency == c then row.balance - (if w in wallets then wallets[w].balance else 0) else 0
  {
    var v := if row.currency == c then row.balance else 0;
    assert Held(wallets[w := row], c) == Held(wallets, c)[w := v];
    MapSumPut(Held(wallets, c), w, v);
  }

  lemma PutSaga(sagas: map<SagaId, Saga>, sid: SagaId, g: Saga, c: Currency)
    ensures MapSum(InFlight(sagas[sid := g], c)) - MapSum(InFlight(sagas, c))
         == (if g.currency == c && g.state == Debited then g.amount else 0)
          - (if sid in sagas && sagas[sid].currency == c && sagas[sid].state == Debited then sagas[sid].amount else 0)
  {
    var v := if g.currency == c && g.state == Debited then g.amount else 0;
    assert InFlight(sagas[sid := g], c) == InFlight(sagas, c)[sid := v];
    MapSumPut(InFlight(sagas, c), sid, v);
  }

  lemma NetAppend(es: seq<Event>, e: Event, c: Currency)
    ensures NetDirect(es + [e], c) == NetDirect(es, c) + (if e.saga == None && e.currency == c then Signed(e) else 0)
  {
    assert (es + [e])[..|es|] == es;
  }

  lemma EnsureBalanced(db: Db, w: WalletId, cur: Currency, c: Currency)
    ensures var db' := Ensure(db, w, cur);
            Total(db', c) - Total(db, c) == NetDirect(db'.events, c) - NetDirect(db.events, c)
  {
    if w !in db.wallets {
      PutWallet(db.wallets, w, NewRow(cur), c);
      NetAppend(db.events, NewEvent(w, WalletCreated, cur, None, None, db.today), c);
    }
  }

  lemma ExistingTxBalanced(db: Db, w: WalletId, op: WalletOp, c: Currency)
    requires !op.Credit? && w in db.wallets && ApplyOp(db.wallets[w], op, db.today).Success?
    ensures var row := ApplyOp(db.wallets[w], op, db.today).value;
            var db' := Record(db, row, NewEvent(w, OpKind(op), row.currency, OpAmount(op), None, db.today));
            Total(db', c) - Total(db, c) == NetDirect(db'.events, c) - NetDirect(db.events, c)
  {
    var row := ApplyOp(db.wallets[w], op, db.today).value;
    var e := NewEvent(w, OpKind(op), row.currency, OpAmount(op), None, db.today);
    assert row.currency == db.wallets[w].currency && row.balance == db.wallets[w].balance + Signed(e);
    PutWallet(db.wallets, w, row, c);
    NetAppend(db.events, e, c);
  }

  lemma WalletTxBalanced(db0: Db, w: WalletId, op: WalletOp, request: Option<RequestId>, c: Currency)
    requires !op.Credit?
    ensures var db' := Apply(db0, OnWallet(w, op, request));
            Total(db', c) - Total(db0, c) == NetDirect(db'.events, c) - NetDirect(db0.events, c)
  {
    var r := WalletTx(db0, w, op, request);
    if r.Success? {
      var db := if op.Deposit? then Ensure(db0, w, USD) else db0;
      EnsureBalanced(db0, w, USD, c);
      ExistingTxBalanced(db, w, op, c);
      var row := ApplyOp(db.wallets[w], op, db.today).value;
      var recorded := Record(db, row, NewEvent(w, OpKind(op), row.currency, OpAmount(op), None, db.today));
      assert r.value.0 == recorded.(keys := r.value.0.keys);
    }
  }

  lemma LegBalanced(db: Db, sid: SagaId, leg: Leg, w: WalletId, amount: int, c: Currency)
    requires SagasOk(db.wallets, db.sagas, db.events)
    requires Allowed(db, RunLeg(sid, leg, w, amount))
    ensures var db' := Apply(db, RunLeg(sid, leg, w, amount));
            Total(db', c) == Total(db, c) && NetDirect(db'.events, c) == NetDirect(db.events, c)
  {
    if LegTx(db, sid, leg, w, amount).Success? {
      var row := ApplyOp(db.wallets[w], LegOp(leg, amount), db.today).value;
      assert SagaShape(db.wallets, db.sagas[sid]);
      PutWallet(db.wallets, w, row, c);
      PutSaga(db.sagas, sid, db.sagas[sid].(state := LegLeaves(leg)), c);
      NetAppend(db.events, NewEvent(w, LegKind(leg), row.currency, Some(amount), Some(sid), db.today), c);
    }
  }

  /** One transaction changes what there is by exactly the direct movements it records. */
  lemma ApplyBalanced(db: Db, act: Act, c: Currency)
    requires DbInv(db) && Allowed(db, act)
    ensures Total(Apply(db, act), c) - Total(db, c) == NetDirect(Apply(db, act).events, c) - NetDirect(db.events, c)
  {
    match act
    case Open(w, cur) => EnsureBalanced(db, w, cur, c);
    case OnWallet(w, op, request) => WalletTxBalanced(db, w, op, request, c);
    case NewSaga(sid, from, to, amount, cur) => PutSaga(db.sagas, sid, Saga(from, to, amount, cur, Pending), c);
    case RunLeg(sid, leg, w, amount) => LegBalanced(db, sid, leg, w, amount, c);
    case MarkFailed(sid) =>
      if sid in db.sagas {
        PutSaga(db.sagas, sid, db.sagas[sid].(state := Failed), c);
      }
    case _ =>
  }

  /** Over any interleaving of requests, sagas, crashes, retries and recoveries, balances plus
      money in flight change by the direct deposits minus the direct withdrawals. */
  lemma {:induction false} MoneyIsConserved(s: State, actions: seq<Action>, c: Currency)
    requires Inv(s)
    ensures var t := Run(s, actions);
            Total(t.db, c) == Total(s.db, c) + NetDirect(t.db.events, c) - NetDirect(s.db.events, c)
    decreases |actions|
  {
    if actions != [] {
      var before := actions[..|actions| - 1];
      MoneyIsConserved(s, before, c);
      RunKeeps(s, before);
      var t := Run(s, before);
      var act := ActOf(t, actions[|actions| - 1]);
      if act.Some? {
        StartedAllowed(t, actions[|actions| - 1]);
        ApplyBalanced(t.db, act.value, c);
      }
    }
  }

  /** From an empty database: what is there is what was put in. */
  lemma NothingFromNothing(actions: seq<Action>, c: Currency)
    ensures var db := Run(INITIAL, actions).db; Total(db, c) == NetDirect(db.events, c)
  {
    InitialInv();
    MoneyIsConserved(INITIAL, actions, c);
    assert Held(EMPTY_DB.wallets, c) == map[] && InFlight(EMPTY_DB.sagas, c) == map[];
  }
}
