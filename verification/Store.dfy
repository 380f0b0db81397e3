/** The database as a value, and what each kind of committed transaction does to it. */
module Store {
  import opened Basics
  import opened Wallets

  datatype EventType =
    | WalletCreated | FundsDeposited | FundsWithdrawn
    | TransferInitiated | TransferCompleted | TransferFailed | TransferCompensated
    | WalletFrozen | WalletUnfrozen | WalletWasClosed
    | LimitWasSet | LimitWasRemoved

  datatype Event = Event(
    wallet: WalletId,
    kind: EventType,
    currency: Currency,
    amount: Option<int>,
    saga: Option<SagaId>,
    day: int)

  datatype OutboxRow = OutboxRow(aggregate: WalletId, kind: EventType, amount: Option<int>, saga: Option<SagaId>)

  datatype SagaState = Pending | Debited | Completed | Compensated | Failed

  datatype Saga = Saga(from: WalletId, to: WalletId, amount: int, currency: Currency, state: SagaState)

  /** A stored answer: of a direct deposit or withdrawal, or of a finished transfer. */
  datatype Reply =
    | BalanceReply(balance: int, wallet: WalletId)
    | TransferReply(saga: SagaId, from: WalletId, to: WalletId, amount: int)

  datatype Db = Db(
    wallets: map<WalletId, WalletRow>,
    sagas: map<SagaId, Saga>,
    events: seq<Event>,
    outbox: seq<OutboxRow>,
    keys: map<RequestId, Reply>,
    today: int)

  const EMPTY_DB := Db(map[], map[], [], [], map[], 0)

  datatype TxError =
    | WalletNotFound(wallet: WalletId)
    | SagaNotFound(saga: SagaId)
    | WalletFault(error: WalletError)
    | WrongState(state: SagaState)

  // ---- events ----

  /** The record constructor stores a missing or zero amount as null. */
  function NewEvent(w: WalletId, kind: EventType, currency: Currency, amount: Option<int>,
                    saga: Option<SagaId>, day: int): Event
  {
    Event(w, kind, currency, if amount == Some(0) then None else amount, saga, day)
  }

  function Mirror(e: Event): OutboxRow {
    OutboxRow(e.wallet, e.kind, e.amount, e.saga)
  }

  function OpKind(op: WalletOp): EventType {
    match op
    case Deposit(_) => FundsDeposited
    case Credit(_) => FundsDeposited
    case Withdraw(_) => FundsWithdrawn
    case Freeze => WalletFrozen
    case Unfreeze => WalletUnfrozen
    case Close => WalletWasClosed
    case SetLimit(l) => if l.None? then LimitWasRemoved else LimitWasSet
  }

  function OpAmount(op: WalletOp): Option<int> {
    match op
    case Deposit(a) => Some(a)
    case Credit(a) => Some(a)
    case Withdraw(a) => Some(a)
    case _ => None
  }

  // ---- the saga's legs ----

  datatype Leg = Debit | Refund | Pay

  function LegOp(leg: Leg, amount: int): WalletOp {
    if leg == Debit then Withdraw(amount) else Credit(amount)
  }

  function LegKind(leg: Leg): EventType {
    match leg
    case Debit => FundsWithdrawn
    case Pay => FundsDeposited
    case Refund => TransferCompensated
  }

  /** The state a leg demands, and the one it leaves. */
  function LegNeeds(leg: Leg): SagaState {
    if leg == Debit then Pending else SagaState.Debited
  }

  function LegLeaves(leg: Leg): SagaState {
    match leg
    case Debit => SagaState.Debited
    case Pay => Completed
    case Refund => Compensated
  }

  // ---- transactions ----

  datatype Act =
    | Open(wallet: WalletId, currency: Currency)
    | OnWallet(wallet: WalletId, op: WalletOp, request: Option<RequestId>)
    | NewSaga(saga: SagaId, from: WalletId, to: WalletId, amount: int, currency: Currency)
    | RunLeg(saga: SagaId, leg: Leg, wallet: WalletId, amount: int)
    | MarkFailed(saga: SagaId)
    | PutKey(key: RequestId, reply: Reply)
    | Tick(days: nat)

  /** Save a wallet row and its event, and queue the event for publication. */
  function Record(db: Db, row: WalletRow, e: Event): Db {
    db.(wallets := db.wallets[e.wallet := row],
        events := db.events + [e],
        outbox := db.outbox + [Mirror(e)])
  }

  function Ensure(db: Db, w: WalletId, currency: Currency): Db {
    if w in db.wallets then db
    else db.(wallets := db.wallets[w := NewRow(currency)],
             events := db.events + [NewEvent(w, WalletCreated, currency, None, None, db.today)])
  }

  function Answer(db: Db, request: Option<RequestId>, reply: Reply): Db {
    if request.None? then db else db.(keys := db.keys[request.value := reply])
  }

  function WalletTx(db0: Db, w: WalletId, op: WalletOp, request: Option<RequestId>): Result<(Db, Reply), TxError> {
    var db := if op.Deposit? then Ensure(db0, w, USD) else db0;
    if w !in db.wallets then Failure(WalletNotFound(w))
    else
      match ApplyOp(db.wallets[w], op, db.today)
      case Failure(e) => Failure(WalletFault(e))
      case Success(row) =>
        var e := NewEvent(w, OpKind(op), row.currency, OpAmount(op), None, db.today);
        var reply := BalanceReply(row.balance, w);
        Success((Answer(Record(db, row, e), request, reply), reply))
  }

  function LegTx(db: Db, sid: SagaId, leg: Leg, w: WalletId, amount: int): Result<Db, TxError> {
    if w !in db.wallets then Failure(WalletNotFound(w))
    else
      match ApplyOp(db.wallets[w], LegOp(leg, amount), db.today)
      case Failure(e) => Failure(WalletFault(e))
      case Success(row) =>
        if sid !in db.sagas then Failure(SagaNotFound(sid))
        else if db.sagas[sid].state != LegNeeds(leg) then Failure(WrongState(db.sagas[sid].state))
        else Success(LegWrite(db, row, sid, db.sagas[sid].(state := LegLeaves(leg)), leg, amount, w))
  }

  /** What a leg installs: the wallet row, the saga row, the event, and its outbox rows. */
  function LegWrite(db: Db, row: WalletRow, sid: SagaId, saga: Saga, leg: Leg, amount: int, w: WalletId): Db {
    var e := NewEvent(w, LegKind(leg), row.currency, Some(amount), Some(sid), db.today);
    var db' := Record(db, row, e).(sagas := db.sagas[sid := saga]);
    if leg == Pay then
      db'.(outbox := db'.outbox + [OutboxRow(saga.from, TransferCompleted, Some(saga.amount), Some(sid))])
    else db'
  }

  function NewSagaTx(db: Db, sid: SagaId, from: WalletId, to: WalletId, amount: int, currency: Currency): Db {
    db.(sagas := db.sagas[sid := Saga(from, to, amount, currency, Pending)],
        outbox := db.outbox + [OutboxRow(from, TransferInitiated, Some(amount), Some(sid))])
  }

  /** One transaction: committed whole, or rolled back with no trace when it throws. */
  function Apply(db: Db, act: Act): Db {
    match act
    case Open(w, c) => Ensure(db, w, c)
    case OnWallet(w, op, request) =>
      (match WalletTx(db, w, op, request) case Success(p) => p.0 case Failure(_) => db)
    case NewSaga(sid, from, to, amount, c) => NewSagaTx(db, sid, from, to, amount, c)
    case RunLeg(sid, leg, w, amount) =>
      (match LegTx(db, sid, leg, w, amount) case Success(d) => d case Failure(_) => db)
    case MarkFailed(sid) =>
      // the mark itself does not look at the state
      if sid in db.sagas then db.(sagas := db.sagas[sid := db.sagas[sid].(state := Failed)]) else db
    case PutKey(r, reply) => db.(keys := db.keys[r := reply])
    case Tick(n) => db.(today := db.today + n)
  }

  function ApplyAll(db: Db, acts: seq<Act>): Db
    decreases |acts|
  {
    if acts == [] then db else Apply(ApplyAll(db, acts[..|acts| - 1]), acts[|acts| - 1])
  }
}
