/** What the event log, the saga table and the outbox owe each other, and that every
    transaction keeps it. */
module Ledger {
  import opened Basics
  import opened Wallets
  import opened Store

  // ---- reading the log ----

  /** The events of one wallet, in order. */
  function OfWallet(es: seq<Event>, w: WalletId): seq<Event> {
    if es == [] then []
    else
      var e := es[|es| - 1];
      OfWallet(es[..|es| - 1], w) + (if e.wallet == w then [e] else [])
  }

  datatype Move = Move(wallet: WalletId, kind: EventType, amount: Option<int>)

  /** The money movements that carry one saga's id, in order. */
  function OfSaga(es: seq<Event>, sid: SagaId): seq<Move> {
    if es == [] then []
    else
      var e := es[|es| - 1];
      OfSaga(es[..|es| - 1], sid) + (if e.saga == Some(sid) then [Move(e.wallet, e.kind, e.amount)] else [])
  }

  function Signed(e: Event): int {
    match e.amount
    case None => 0
    case Some(a) =>
      if e.kind == FundsDeposited || e.kind == TransferCompensated then a
      else if e.kind == FundsWithdrawn then -a
      else 0
  }

  /** Replaying a log. */
  function Replay(es: seq<Event>): int {
    if es == [] then 0 else Replay(es[..|es| - 1]) + Signed(es[|es| - 1])
  }

  function WithdrawnOn(es: seq<Event>, day: int): int {
    if es == [] then 0
    else
      var e := es[|es| - 1];
      WithdrawnOn(es[..|es| - 1], day)
      + (if e.kind == FundsWithdrawn && e.day == day then -Signed(e) else 0)
  }

  lemma Appended(es: seq<Event>, e: Event)
    ensures forall w :: OfWallet(es + [e], w) == OfWallet(es, w) + (if e.wallet == w then [e] else [])
    ensures forall sid :: OfSaga(es + [e], sid)
                       == OfSaga(es, sid) + (if e.saga == Some(sid) then [Move(e.wallet, e.kind, e.amount)] else [])
    ensures Replay(es + [e]) == Replay(es) + Signed(e)
    ensures forall d :: WithdrawnOn(es + [e], d)
                     == WithdrawnOn(es, d) + (if e.kind == FundsWithdrawn && e.day == d then -Signed(e) else 0)
  {
    assert (es + [e])[..|es|] == es;
  }

  /** An empty wallet log means that no event names the wallet. */
  lemma {:induction false} NoOrphans(es: seq<Event>, w: WalletId)
    requires OfWallet(es, w) == []
    ensures forall i | 0 <= i < |es| :: es[i].wallet != w
  {
    if es != [] {
      NoOrphans(es[..|es| - 1], w);
    }
  }

  // ---- wallets against their logs ----

  /** Exactly one creation, and it comes first. */
  predicate CreatedOnce(es: seq<Event>) {
    if |es| <= 1 then es != [] && es[0].kind == WalletCreated
    else es[|es| - 1].kind != WalletCreated && CreatedOnce(es[..|es| - 1])
  }

  /** No prefix of the log replays to a negative balance. */
  predicate NeverOverdrawn(es: seq<Event>) {
    Replay(es) >= 0 && (es == [] || NeverOverdrawn(es[..|es| - 1]))
  }

  function StatusAfter(status: WalletStatus, kind: EventType): WalletStatus {
    match kind
    case WalletFrozen => Frozen
    case WalletUnfrozen => if status == Frozen then Active else status
    case WalletWasClosed => Closed
    case _ => status
  }

  /** The status a log stands for. */
  function ReplayStatus(es: seq<Event>): WalletStatus {
    if es == [] then Active else StatusAfter(ReplayStatus(es[..|es| - 1]), es[|es| - 1].kind)
  }

  function LimitedAfter(limited: bool, kind: EventType): bool {
    match kind
    case LimitWasSet => true
    case LimitWasRemoved => false
    case _ => limited
  }

  /** Whether a log leaves a daily limit in force. */
  predicate ReplayLimited(es: seq<Event>) {
    es != [] && LimitedAfter(ReplayLimited(es[..|es| - 1]), es[|es| - 1].kind)
  }

  predicate InCurrency(es: seq<Event>, c: Currency) {
    es == [] || (es[|es| - 1].currency == c && InCurrency(es[..|es| - 1], c))
  }

  predicate Positive(es: seq<Event>) {
    es == [] || ((es[|es| - 1].amount.Some? ==> es[|es| - 1].amount.value > 0) && Positive(es[..|es| - 1]))
  }

  ghost predicate DailyOk(row: WalletRow, es: seq<Event>, today: int) {
    && (row.lastDay.Some? ==> row.lastDay.value <= today)
    && EffectiveTotal(row, today) >= 0
    && (forall d | d >= today :: WithdrawnOn(es, d) == EffectiveTotal(row, d))
  }

  ghost predicate LedgerOk(row: WalletRow, es: seq<Event>, today: int) {
    && CreatedOnce(es)
    && NeverOverdrawn(es)
    && Positive(es)
    && Replay(es) == row.balance
    && ReplayStatus(es) == row.status
    && ReplayLimited(es) == row.dailyLimit.Some?
    && InCurrency(es, row.currency)
    && DailyOk(row, es, today)
  }

  ghost predicate WalletsOk(wallets: map<WalletId, WalletRow>, es: seq<Event>, today: int) {
    && (forall w <- wallets :: LedgerOk(wallets[w], OfWallet(es, w), today))
    && (forall w | w !in wallets :: OfWallet(es, w) == [])
  }

  /** The event says exactly what happened to the row. */
  ghost predicate Accounts(row: WalletRow, row': WalletRow, e: Event, today: int) {
    && e.kind != WalletCreated
    && e.currency == row'.currency == row.currency
    && e.day == today
    && row'.status == StatusAfter(row.status, e.kind)
    && row'.dailyLimit.Some? == LimitedAfter(row.dailyLimit.Some?, e.kind)
    && (e.amount.Some? ==> e.amount.value > 0)
    && row'.balance == row.balance + Signed(e) >= 0
    && if e.kind == FundsWithdrawn then
         && Signed(e) < 0
         && row'.dailyTotal == EffectiveTotal(row, today) - Signed(e)
         && row'.lastDay == Some(today)
       else
         row'.dailyTotal == row.dailyTotal && row'.lastDay == row.lastDay
  }

  lemma LedgerAppend(row: WalletRow, es: seq<Event>, row': WalletRow, e: Event, today: int)
    requires LedgerOk(row, es, today)
    requires Accounts(row, row', e, today)
    ensures LedgerOk(row', es + [e], today)
  {
    Appended(es, e);
    assert (es + [e])[..|es|] == es;
  }

  lemma RecordKeepsWallets(db: Db, row: WalletRow, e: Event)
    requires WalletsOk(db.wallets, db.events, db.today)
    requires e.wallet in db.wallets
    requires Accounts(db.wallets[e.wallet], row, e, db.today)
    ensures WalletsOk(db.wallets[e.wallet := row], db.events + [e], db.today)
  {
    Appended(db.events, e);
    var wallets := db.wallets[e.wallet := row];
    LedgerAppend(db.wallets[e.wallet], OfWallet(db.events, e.wallet), row, e, db.today);
    forall w <- wallets
      ensures LedgerOk(wallets[w], OfWallet(db.events + [e], w), db.today)
    {
      if w != e.wallet {
        assert w in db.wallets && OfWallet(db.events + [e], w) == OfWallet(db.events, w);
      }
    }
  }

  lemma FirstEvent(w: WalletId, c: Currency, today: int)
    ensures LedgerOk(NewRow(c), [NewEvent(w, WalletCreated, c, None, None, today)], today)
  {
    var e := NewEvent(w, WalletCreated, c, None, None, today);
    Appended([], e);
    assert [] + [e] == [e] && [e][..0] == [];
    assert ReplayStatus([]) == Active && !ReplayLimited([]) && InCurrency([], c);
  }

  lemma EnsureKeepsWallets(db: Db, w: WalletId, c: Currency)
    requires WalletsOk(db.wallets, db.events, db.today)
    ensures var db' := Ensure(db, w, c); WalletsOk(db'.wallets, db'.events, db'.today)
  {
    if w !in db.wallets {
      var e := NewEvent(w, WalletCreated, c, None, None, db.today);
      var wallets := db.wallets[w := NewRow(c)];
      Appended(db.events, e);
      assert OfWallet(db.events + [e], w) == [e];
      FirstEvent(w, c, db.today);
      forall x <- wallets
        ensures LedgerOk(wallets[x], OfWallet(db.events + [e], x), db.today)
      {
        if x != w {
          assert x in db.wallets && OfWallet(db.events + [e], x) == OfWallet(db.events, x);
        }
      }
    }
  }

  lemma TickKeepsWallets(db: Db, n: nat)
    requires WalletsOk(db.wallets, db.events, db.today)
    ensures WalletsOk(db.wallets, db.events, db.today + n)
  {
    forall w <- db.wallets
      ensures LedgerOk(db.wallets[w], OfWallet(db.events, w), db.today + n)
    {
      assert LedgerOk(db.wallets[w], OfWallet(db.events, w), db.today);
    }
  }

  // ---- sagas against the log ----

  function ExpectedMoves(s: Saga): seq<Move> {
    var out := Move(s.from, FundsWithdrawn, Some(s.amount));
    match s.state
    case Pending => []
    case Failed => []
    case Debited => [out]
    case Completed => [out, Move(s.to, FundsDeposited, Some(s.amount))]
    case Compensated => [out, Move(s.from, TransferCompensated, Some(s.amount))]
  }

  predicate Moved(st: SagaState) {
    st != Pending && st != Failed
  }

  predicate IsCompleted(db: Db, sid: SagaId) {
    sid in db.sagas && db.sagas[sid].state == Completed
  }

  ghost predicate SagaShape(wallets: map<WalletId, WalletRow>, s: Saga) {
    && s.from != s.to
    && s.from in wallets && wallets[s.from].currency == s.currency
    && s.to in wallets && wallets[s.to].currency == s.currency
    && (Moved(s.state) ==> s.amount > 0)
  }

  ghost predicate SagasOk(wallets: map<WalletId, WalletRow>, sagas: map<SagaId, Saga>, es: seq<Event>) {
    && (forall sid <- sagas :: SagaShape(wallets, sagas[sid]) && OfSaga(es, sid) == ExpectedMoves(sagas[sid]))
    && (forall sid | sid !in sagas :: OfSaga(es, sid) == [])
  }

  // ---- outbox against the log and the sagas ----

  predicate Lifecycle(kind: EventType) {
    kind == TransferInitiated || kind == TransferCompleted
  }

  /** The outbox without the two saga lifecycle messages. */
  function Mirrored(outbox: seq<OutboxRow>): seq<OutboxRow> {
    if outbox == [] then []
    else
      var r := outbox[|outbox| - 1];
      Mirrored(outbox[..|outbox| - 1]) + (if Lifecycle(r.kind) then [] else [r])
  }

  /** The message every event but a wallet's creation must have. */
  function Mirrors(es: seq<Event>): seq<OutboxRow> {
    if es == [] then []
    else
      var e := es[|es| - 1];
      Mirrors(es[..|es| - 1]) + (if e.kind == WalletCreated then [] else [Mirror(e)])
  }

  function CountRows(outbox: seq<OutboxRow>, kind: EventType, sid: SagaId): nat {
    if outbox == [] then 0
    else
      var r := outbox[|outbox| - 1];
      CountRows(outbox[..|outbox| - 1], kind, sid) + (if r.kind == kind && r.saga == Some(sid) then 1 else 0)
  }

  lemma Queued(outbox: seq<OutboxRow>, r: OutboxRow)
    ensures Mirrored(outbox + [r]) == Mirrored(outbox) + (if Lifecycle(r.kind) then [] else [r])
    ensures forall kind, sid :: CountRows(outbox + [r], kind, sid)
                             == CountRows(outbox, kind, sid) + (if r.kind == kind && r.saga == Some(sid) then 1 else 0)
  {
    assert (outbox + [r])[..|outbox|] == outbox;
  }

  ghost predicate OutboxOk(sagas: map<SagaId, Saga>, es: seq<Event>, outbox: seq<OutboxRow>) {
    && Mirrored(outbox) == Mirrors(es)
    && (forall sid :: CountRows(outbox, TransferInitiated, sid) == if sid in sagas then 1 else 0)
    && (forall sid :: CountRows(outbox, TransferCompleted, sid)
                   == if sid in sagas && sagas[sid].state == Completed then 1 else 0)
  }

  /** Recording an event that is no lifecycle message keeps the two tables in step. */
  lemma RecordKeepsOutbox(sagas: map<SagaId, Saga>, es: seq<Event>, outbox: seq<OutboxRow>, e: Event)
    requires OutboxOk(sagas, es, outbox)
    requires e.kind != WalletCreated && !Lifecycle(e.kind)
    ensures OutboxOk(sagas, es + [e], outbox + [Mirror(e)])
  {
    Queued(outbox, Mirror(e));
    assert (es + [e])[..|es|] == es;
  }

  lemma CreationKeepsOutbox(sagas: map<SagaId, Saga>, es: seq<Event>, outbox: seq<OutboxRow>, e: Event)
    requires OutboxOk(sagas, es, outbox)
    requires e.kind == WalletCreated
    ensures OutboxOk(sagas, es + [e], outbox)
  {
    assert (es + [e])[..|es|] == es;
  }

  lemma NewSagaKeepsOutbox(db: Db, sid: SagaId, from: WalletId, to: WalletId, amount: int, c: Currency)
    requires OutboxOk(db.sagas, db.events, db.outbox)
    requires sid !in db.sagas
    ensures var db' := NewSagaTx(db, sid, from, to, amount, c); OutboxOk(db'.sagas, db'.events, db'.outbox)
  {
    Queued(db.outbox, OutboxRow(from, TransferInitiated, Some(amount), Some(sid)));
  }

  /** Moving a saga on, with its completion message exactly when it completes. */
  lemma StateKeepsOutbox(sagas: map<SagaId, Saga>, es: seq<Event>, outbox: seq<OutboxRow>, sid: SagaId, st: SagaState)
    requires OutboxOk(sagas, es, outbox)
    requires sid in sagas && sagas[sid].state != Completed
    ensures var s := sagas[sid].(state := st);
            var row := OutboxRow(s.from, TransferCompleted, Some(s.amount), Some(sid));
            OutboxOk(sagas[sid := s], es, if st == Completed then outbox + [row] else outbox)
  {
    var s := sagas[sid];
    Queued(outbox, OutboxRow(s.from, TransferCompleted, Some(s.amount), Some(sid)));
  }

  /** An event without a saga id, on a wallet whose currency stays, does not concern the sagas. */
  lemma RecordKeepsSagas(wallets: map<WalletId, WalletRow>, sagas: map<SagaId, Saga>, es: seq<Event>,
                         row: WalletRow, e: Event)
    requires SagasOk(wallets, sagas, es)
    requires e.saga == None
    requires e.wallet in wallets ==> wallets[e.wallet].currency == row.currency
    ensures SagasOk(wallets[e.wallet := row], sagas, es + [e])
  {
    Appended(es, e);
    var wallets' := wallets[e.wallet := row];
    forall sid <- sagas
      ensures SagaShape(wallets', sagas[sid]) && OfSaga(es + [e], sid) == ExpectedMoves(sagas[sid])
    {
      assert SagaShape(wallets, sagas[sid]);
    }
  }

  lemma LegKeepsSagas(wallets: map<WalletId, WalletRow>, sagas: map<SagaId, Saga>, es: seq<Event>,
                      row: WalletRow, e: Event, sid: SagaId, leg: Leg)
    requires SagasOk(wallets, sagas, es)
    requires sid in sagas && sagas[sid].state == LegNeeds(leg) && sagas[sid].amount > 0
    requires e.wallet in wallets && wallets[e.wallet].currency == row.currency
    requires e.wallet == (if leg == Pay then sagas[sid].to else sagas[sid].from)
    requires e.kind == LegKind(leg) && e.amount == Some(sagas[sid].amount) && e.saga == Some(sid)
    ensures SagasOk(wallets[e.wallet := row], sagas[sid := sagas[sid].(state := LegLeaves(leg))], es + [e])
  {
    var wallets' := wallets[e.wallet := row];
    var s' := sagas[sid].(state := LegLeaves(leg));
    var sagas' := sagas[sid := s'];
    LegMoves(sagas[sid], es, e, sid, leg);
    forall x <- sagas'
      ensures SagaShape(wallets', sagas'[x])
    {
      assert SagaShape(wallets, sagas[x]);
    }
    forall x | x != sid
      ensures OfSaga(es + [e], x) == OfSaga(es, x)
    {
      assert (es + [e])[..|es|] == es;
    }
    forall x <- sagas'
      ensures OfSaga(es + [e], x) == ExpectedMoves(sagas'[x])
    {
    }
  }

  lemma LegMoves(s: Saga, es: seq<Event>, e: Event, sid: SagaId, leg: Leg)
    requires OfSaga(es, sid) == ExpectedMoves(s) && s.state == LegNeeds(leg)
    requires e.wallet == (if leg == Pay then s.to else s.from)
    requires e.kind == LegKind(leg) && e.amount == Some(s.amount) && e.saga == Some(sid)
    ensures OfSaga(es + [e], sid) == ExpectedMoves(s.(state := LegLeaves(leg)))
  {
    assert (es + [e])[..|es|] == es;
  }

  lemma NewSagaKeepsSagas(db: Db, sid: SagaId, s: Saga)
    requires SagasOk(db.wallets, db.sagas, db.events)
    requires sid !in db.sagas && s.state == Pending && SagaShape(db.wallets, s)
    ensures SagasOk(db.wallets, db.sagas[sid := s], db.events)
  {
  }

  lemma FailedKeepsSagas(db: Db, sid: SagaId)
    requires SagasOk(db.wallets, db.sagas, db.events)
    requires sid in db.sagas && db.sagas[sid].state == Pending
    ensures SagasOk(db.wallets, db.sagas[sid := db.sagas[sid].(state := Failed)], db.events)
  {
    assert SagaShape(db.wallets, db.sagas[sid]);
  }

  // ---- all of it, kept by every transaction ----

  ghost predicate DbInv(db: Db) {
    && WalletsOk(db.wallets, db.events, db.today)
    && SagasOk(db.wallets, db.sagas, db.events)
    && OutboxOk(db.sagas, db.events, db.outbox)
  }

  /** What the service guarantees about a transaction when it starts one. */
  predicate Allowed(db: Db, act: Act) {
    match act
    case OnWallet(_, op, _) => !op.Credit?
    case NewSaga(sid, from, to, amount, c) =>
      && sid !in db.sagas && from != to
      && from in db.wallets && db.wallets[from].currency == c
      && to in db.wallets && db.wallets[to].currency == c
    case RunLeg(sid, leg, w, amount) =>
      sid in db.sagas ==>
        && amount == db.sagas[sid].amount
        && w == if leg == Pay then db.sagas[sid].to else db.sagas[sid].from
    case MarkFailed(sid) => sid in db.sagas ==> db.sagas[sid].state == Pending
    case _ => true
  }

  lemma EnsureKeeps(db: Db, w: WalletId, c: Currency)
    requires DbInv(db)
    ensures DbInv(Ensure(db, w, c))
  {
    EnsureKeepsWallets(db, w, c);
    if w !in db.wallets {
      var e := NewEvent(w, WalletCreated, c, None, None, db.today);
      RecordKeepsSagas(db.wallets, db.sagas, db.events, NewRow(c), e);
      CreationKeepsOutbox(db.sagas, db.events, db.outbox, e);
    }
  }

  lemma RecordKeeps(db: Db, row: WalletRow, e: Event)
    requires DbInv(db)
    requires e.wallet in db.wallets && Accounts(db.wallets[e.wallet], row, e, db.today)
    requires e.saga == None && !Lifecycle(e.kind)
    ensures DbInv(Record(db, row, e))
  {
    RecordKeepsWallets(db, row, e);
    RecordKeepsSagas(db.wallets, db.sagas, db.events, row, e);
    RecordKeepsOutbox(db.sagas, db.events, db.outbox, e);
  }

  /** An operation of the entity, and the event the service writes for it, agree. */
  lemma OpAccounts(row: WalletRow, op: WalletOp, w: WalletId, kind: EventType, saga: Option<SagaId>, today: int)
    requires row.balance >= 0
    requires ApplyOp(row, op, today).Success?
    requires kind == OpKind(op) || (op.Credit? && kind == TransferCompensated)
    ensures var row' := ApplyOp(row, op, today).value;
            Accounts(row, row', NewEvent(w, kind, row'.currency, OpAmount(op), saga, today), today)
  {
  }

  lemma ExistingTxKeeps(db: Db, w: WalletId, op: WalletOp)
    requires DbInv(db) && !op.Credit? && w in db.wallets
    requires ApplyOp(db.wallets[w], op, db.today).Success?
    ensures var row := ApplyOp(db.wallets[w], op, db.today).value;
            DbInv(Record(db, row, NewEvent(w, OpKind(op), row.currency, OpAmount(op), None, db.today)))
  {
    var row := ApplyOp(db.wallets[w], op, db.today).value;
    WalletBalance(db, w);
    OpAccounts(db.wallets[w], op, w, OpKind(op), None, db.today);
    RecordKeeps(db, row, NewEvent(w, OpKind(op), row.currency, OpAmount(op), None, db.today));
  }

  lemma WalletTxKeeps(db0: Db, w: WalletId, op: WalletOp, request: Option<RequestId>)
    requires DbInv(db0) && !op.Credit?
    ensures DbInv(Apply(db0, OnWallet(w, op, request)))
  {
    var r := WalletTx(db0, w, op, request);
    if r.Success? {
      var db := if op.Deposit? then Ensure(db0, w, USD) else db0;
      assert DbInv(db) by {
        EnsureKeeps(db0, w, USD);
      }
      var row := ApplyOp(db.wallets[w], op, db.today).value;
      var recorded := Record(db, row, NewEvent(w, OpKind(op), row.currency, OpAmount(op), None, db.today));
      ExistingTxKeeps(db, w, op);
      assert r.value.0 == recorded.(keys := r.value.0.keys);
      KeysDoNotMatter(recorded, r.value.0.keys);
    }
  }

  lemma KeysDoNotMatter(db: Db, keys: map<RequestId, Reply>)
    requires DbInv(db)
    ensures DbInv(db.(keys := keys))
  {
  }

  lemma WalletBalance(db: Db, w: WalletId)
    requires DbInv(db) && w in db.wallets
    ensures db.wallets[w].balance >= 0
  {
    assert LedgerOk(db.wallets[w], OfWallet(db.events, w), db.today);
  }

  lemma LegKeepsOutbox(sagas: map<SagaId, Saga>, es: seq<Event>, outbox: seq<OutboxRow>, e: Event, sid: SagaId, leg: Leg)
    requires OutboxOk(sagas, es, outbox)
    requires sid in sagas && sagas[sid].state == LegNeeds(leg) && e.kind == LegKind(leg)
    ensures var g := sagas[sid].(state := LegLeaves(leg));
            var row := OutboxRow(g.from, TransferCompleted, Some(g.amount), Some(sid));
            OutboxOk(sagas[sid := g], es + [e], outbox + [Mirror(e)] + (if leg == Pay then [row] else []))
  {
    RecordKeepsOutbox(sagas, es, outbox, e);
    StateKeepsOutbox(sagas, es + [e], outbox + [Mirror(e)], sid, LegLeaves(leg));
    assert outbox + [Mirror(e)] + [] == outbox + [Mirror(e)];
  }

  /** The row and the event of a leg that goes through, with what each table needs of them. */
  lemma LegParts(db: Db, sid: SagaId, leg: Leg, w: WalletId, amount: int)
    requires LegTx(db, sid, leg, w, amount).Success?
    ensures var row := ApplyOp(db.wallets[w], LegOp(leg, amount), db.today).value;
            var e := NewEvent(w, LegKind(leg), row.currency, Some(amount), Some(sid), db.today);
            && sid in db.sagas && db.sagas[sid].state == LegNeeds(leg) && amount > 0
            && e.wallet == w && e.kind == LegKind(leg) && e.amount == Some(amount) && e.saga == Some(sid)
            && (db.wallets[w].balance >= 0 ==> Accounts(db.wallets[w], row, e, db.today))
  {
    if db.wallets[w].balance >= 0 {
      OpAccounts(db.wallets[w], LegOp(leg, amount), w, LegKind(leg), Some(sid), db.today);
    }
  }

  lemma LegKeeps(db: Db, sid: SagaId, leg: Leg, w: WalletId, amount: int)
    requires DbInv(db) && Allowed(db, RunLeg(sid, leg, w, amount))
    ensures DbInv(Apply(db, RunLeg(sid, leg, w, amount)))
  {
    if LegTx(db, sid, leg, w, amount).Success? {
      var row := ApplyOp(db.wallets[w], LegOp(leg, amount), db.today).value;
      var e := NewEvent(w, LegKind(leg), row.currency, Some(amount), Some(sid), db.today);
      LegParts(db, sid, leg, w, amount);
      WalletBalance(db, w);
      RecordKeepsWallets(db, row, e);
      LegKeepsSagas(db.wallets, db.sagas, db.events, row, e, sid, leg);
      LegKeepsOutbox(db.sagas, db.events, db.outbox, e, sid, leg);
      LegWritten(db, row, sid, leg, amount, w);
    }
  }

  lemma LegWritten(db: Db, row: WalletRow, sid: SagaId, leg: Leg, amount: int, w: WalletId)
    requires sid in db.sagas
    ensures var g := db.sagas[sid].(state := LegLeaves(leg));
            var e := NewEvent(w, LegKind(leg), row.currency, Some(amount), Some(sid), db.today);
            var last := OutboxRow(g.from, TransferCompleted, Some(g.amount), Some(sid));
            var db' := LegWrite(db, row, sid, g, leg, amount, w);
            && db'.wallets == db.wallets[w := row] && db'.sagas == db.sagas[sid := g]
            && db'.events == db.events + [e] && db'.today == db.today
            && db'.outbox == db.outbox + [Mirror(e)] + (if leg == Pay then [last] else [])
  {
  }

  lemma NewSagaKeeps(db: Db, sid: SagaId, from: WalletId, to: WalletId, amount: int, c: Currency)
    requires DbInv(db) && Allowed(db, NewSaga(sid, from, to, amount, c))
    ensures DbInv(NewSagaTx(db, sid, from, to, amount, c))
  {
    NewSagaKeepsSagas(db, sid, Saga(from, to, amount, c, Pending));
    NewSagaKeepsOutbox(db, sid, from, to, amount, c);
  }

  lemma FailingKeeps(db: Db, sid: SagaId)
    requires DbInv(db) && Allowed(db, MarkFailed(sid))
    ensures DbInv(Apply(db, MarkFailed(sid)))
  {
    if sid in db.sagas {
      FailedKeepsSagas(db, sid);
      StateKeepsOutbox(db.sagas, db.events, db.outbox, sid, Failed);
    }
  }

  lemma TickKeeps(db: Db, n: nat)
    requires DbInv(db)
    ensures DbInv(db.(today := db.today + n))
  {
    TickKeepsWallets(db, n);
  }

  /** Every transaction the service starts keeps logs, sagas, wallets and outbox in step. */
  lemma ApplyKeeps(db: Db, act: Act)
    requires DbInv(db) && Allowed(db, act)
    ensures DbInv(Apply(db, act))
  {
    match act
    case Open(w, c) => EnsureKeeps(db, w, c);
    case OnWallet(w, op, request) => WalletTxKeeps(db, w, op, request);
    case NewSaga(sid, from, to, amount, c) => NewSagaKeeps(db, sid, from, to, amount, c);
    case RunLeg(sid, leg, w, amount) => LegKeeps(db, sid, leg, w, amount);
    case MarkFailed(sid) => FailingKeeps(db, sid);
    case PutKey(r, reply) => KeysDoNotMatter(db, db.keys[r := reply]);
    case Tick(n) => TickKeeps(db, n);
  }

  lemma EmptyInv()
    ensures DbInv(EMPTY_DB)
  {
  }
}
