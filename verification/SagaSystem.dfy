/** Every process that touches the database, interleaved await by await: any number of
    transfer coordinators, recovery workers and direct requests, each of which may crash or
    see an error between any two steps. One transaction is one step here; the module
    RowLocks says when that is justified. */
module SagaSystem {
  import opened Basics
  import opened Wallets
  import opened Store
  import opened Ledger

  /** Where a coordinator is: the await it is about to perform. */
  datatype Pc =
    | Checking                      // look the request id up
    | Validating                    // read the sender
    | Opening(currency: Currency)   // get or create the receiver
    | Creating(currency: Currency)  // insert the saga
    | Debiting                      // the sender's leg
    | DebitCache                    // drop the sender's cached balance
    | Crediting                     // the receiver's leg
    | CreditCache
    | SavingKey                     // store the answer
    | Reloading                     // error handling: read the saga again
    | Refunding                     // ... it was debited
    | Publishing                    // ... announce the compensation
    | Failing                       // ... it was still pending
    | Replied(reply: Reply)         // answered with a stored response
    | Returned                      // answered with its own result
    | Threw                         // answered with an error

  datatype Coord = Coord(from: WalletId, to: WalletId, amount: int, request: Option<RequestId>, pc: Pc)

  datatype RecoveryPc = Paying | PayCache | GivingBack | Announcing | Finished

  datatype Recovery = Recovery(saga: SagaId, seen: Saga, pc: RecoveryPc)

  /** A coordinator is named by the id its saga has or will get. */
  datatype State = State(db: Db, coords: map<SagaId, Coord>, recs: map<nat, Recovery>)

  datatype Action =
    | Submit(wallet: WalletId, op: WalletOp, request: Option<RequestId>)
    | NextDay(days: nat)
    | Begin(saga: SagaId, from: WalletId, to: WalletId, amount: int, id: Option<RequestId>)
    | Advance(saga: SagaId)         // the coordinator's next await runs
    | Fail(saga: SagaId)           // ... or throws without effect
    | Crash(saga: SagaId)
    | Recover(worker: nat, stuck: SagaId)
    | WorkerAdvance(worker: nat)
    | WorkerFail(worker: nat)
    | WorkerCrash(worker: nat)

  function OwnReply(sid: SagaId, c: Coord): Reply {
    TransferReply(sid, c.from, c.to, c.amount)
  }

  // ---- a coordinator's awaits ----

  function CoordAct(sid: SagaId, c: Coord): Option<Act> {
    match c.pc
    case Opening(cur) => Some(Open(c.to, cur))
    case Creating(cur) => Some(NewSaga(sid, c.from, c.to, c.amount, cur))
    case Debiting => Some(RunLeg(sid, Debit, c.from, c.amount))
    case Crediting => Some(RunLeg(sid, Pay, c.to, c.amount))
    case Refunding => Some(RunLeg(sid, Refund, c.from, c.amount))
    case Failing => Some(MarkFailed(sid))
    case SavingKey => if c.request.None? then None else Some(PutKey(c.request.value, OwnReply(sid, c)))
    case _ => None
  }

  /** Without a request id there is nothing to look up. */
  function FirstPc(from: WalletId, to: WalletId, request: Option<RequestId>): Pc {
    if request.Some? then Checking else if from == to then Threw else Validating
  }

  /** ... and nothing to store. */
  function AfterCredit(c: Coord): Pc {
    if c.request.Some? then SavingKey else Returned
  }

  function AfterSuccess(db: Db, sid: SagaId, c: Coord): Pc {
    match c.pc
    case Checking =>
      if c.request.Some? && c.request.value in db.keys then Replied(db.keys[c.request.value])
      else if c.from == c.to then Threw
      else Validating
    case Validating => if c.from in db.wallets then Opening(db.wallets[c.from].currency) else Threw
    case Opening(cur) =>
      if c.to in db.wallets && db.wallets[c.to].currency != cur then Threw else Creating(cur)
    case Creating(_) => Debiting
    case Debiting => if LegTx(db, sid, Debit, c.from, c.amount).Success? then DebitCache else Reloading
    case DebitCache => Crediting
    case Crediting => if LegTx(db, sid, Pay, c.to, c.amount).Success? then CreditCache else Reloading
    case CreditCache => AfterCredit(c)
    case SavingKey => Returned
    case Reloading =>
      if sid !in db.sagas then Threw
      else if db.sagas[sid].state == Debited then Refunding
      else if db.sagas[sid].state == Pending then Failing
      else Threw
    case Refunding => if LegTx(db, sid, Refund, c.from, c.amount).Success? then Publishing else Threw
    case Publishing => Threw
    case Failing => Threw
    case _ => c.pc
  }

  function AfterThrow(c: Coord): Pc {
    match c.pc
    case Debiting => Reloading
    case DebitCache => Reloading
    case Crediting => Reloading
    case CreditCache => Reloading
    case SavingKey => Reloading
    case Replied(_) => c.pc
    case Returned => Returned
    case _ => Threw
  }

  // ---- a recovery worker's awaits ----

  function WorkerAct(r: Recovery): Option<Act> {
    match r.pc
    case Paying => Some(RunLeg(r.saga, Pay, r.seen.to, r.seen.amount))
    case GivingBack => Some(RunLeg(r.saga, Refund, r.seen.from, r.seen.amount))
    case _ => None
  }

  function WorkerAfterSuccess(db: Db, r: Recovery): RecoveryPc {
    match r.pc
    case Paying => if LegTx(db, r.saga, Pay, r.seen.to, r.seen.amount).Success? then PayCache else GivingBack
    case PayCache => Finished
    case GivingBack => if LegTx(db, r.saga, Refund, r.seen.from, r.seen.amount).Success? then Announcing else Finished
    case Announcing => Finished
    case Finished => Finished
  }

  function WorkerAfterThrow(r: Recovery): RecoveryPc {
    match r.pc
    case Paying => GivingBack
    case PayCache => GivingBack
    case _ => Finished
  }

  // ---- steps and runs ----

  /** The transaction an action performs, if any. */
  function ActOf(s: State, a: Action): Option<Act> {
    match a
    case Submit(w, op, request) => if op.Credit? then None else Some(OnWallet(w, op, request))
    case NextDay(n) => Some(Tick(n))
    case Advance(sid) => if sid in s.coords then CoordAct(sid, s.coords[sid]) else None
    case WorkerAdvance(rid) => if rid in s.recs then WorkerAct(s.recs[rid]) else None
    case _ => None
  }

  function Do(db: Db, act: Option<Act>): Db {
    if act.None? then db else Apply(db, act.value)
  }

  function CoordsAfter(s: State, a: Action): map<SagaId, Coord> {
    match a
    case Begin(sid, from, to, amount, id) =>
      if sid in s.coords || sid in s.db.sagas then s.coords
      else s.coords[sid := Coord(from, to, amount, id, FirstPc(from, to, id))]
    case Advance(sid) =>
      if sid in s.coords then
        s.coords[sid := s.coords[sid].(pc := AfterSuccess(s.db, sid, s.coords[sid]))]
      else s.coords
    case Fail(sid) =>
      if sid in s.coords then s.coords[sid := s.coords[sid].(pc := AfterThrow(s.coords[sid]))] else s.coords
    case Crash(sid) => s.coords - {sid}
    case _ => s.coords
  }

  function RecsAfter(s: State, a: Action): map<nat, Recovery> {
    match a
    case Recover(rid, sid) =>
      if rid in s.recs || sid !in s.db.sagas || s.db.sagas[sid].state != Debited then s.recs
      else s.recs[rid := Recovery(sid, s.db.sagas[sid], Paying)]
    case WorkerAdvance(rid) =>
      if rid in s.recs then s.recs[rid := s.recs[rid].(pc := WorkerAfterSuccess(s.db, s.recs[rid]))] else s.recs
    case WorkerFail(rid) =>
      if rid in s.recs then s.recs[rid := s.recs[rid].(pc := WorkerAfterThrow(s.recs[rid]))] else s.recs
    case WorkerCrash(rid) => s.recs - {rid}
    case _ => s.recs
  }

  function Step(s: State, a: Action): State {
    State(Do(s.db, ActOf(s, a)), CoordsAfter(s, a), RecsAfter(s, a))
  }

  function Run(s: State, actions: seq<Action>): State
    decreases |actions|
  {
    if actions == [] then s else Step(Run(s, actions[..|actions| - 1]), actions[|actions| - 1])
  }

  lemma Extend(s: State, actions: seq<Action>, a: Action) returns (longer: seq<Action>)
    ensures longer == actions + [a]
    ensures Run(s, longer) == Step(Run(s, actions), a)
  {
    longer := actions + [a];
    assert longer[..|actions|] == actions;
  }

  const INITIAL := State(EMPTY_DB, map[], map[])

  // ---- the invariant ----

  ghost predicate Matches(db: Db, sid: SagaId, c: Coord) {
    && sid in db.sagas
    && db.sagas[sid].from == c.from && db.sagas[sid].to == c.to && db.sagas[sid].amount == c.amount
  }

  /** A stored transfer answer tells the truth. */
  ghost predicate ReplyTrue(db: Db, reply: Reply) {
    reply.TransferReply? ==>
      && reply.saga in db.sagas
      && var s := db.sagas[reply.saga];
         s.from == reply.from && s.to == reply.to && s.amount == reply.amount && s.state == Completed
  }

  ghost predicate CoordOk(db: Db, sid: SagaId, c: Coord) {
    match c.pc
    case Checking => sid !in db.sagas
    case Validating => sid !in db.sagas && c.from != c.to
    case Opening(cur) =>
      sid !in db.sagas && c.from != c.to && c.from in db.wallets && db.wallets[c.from].currency == cur
    case Creating(cur) =>
      && sid !in db.sagas && c.from != c.to
      && c.from in db.wallets && db.wallets[c.from].currency == cur
      && c.to in db.wallets && db.wallets[c.to].currency == cur
    case Debiting => Matches(db, sid, c) && db.sagas[sid].state == Pending
    case DebitCache => Matches(db, sid, c) && Moved(db.sagas[sid].state)
    case Crediting => Matches(db, sid, c) && Moved(db.sagas[sid].state)
    case CreditCache => Matches(db, sid, c) && db.sagas[sid].state == Completed
    case SavingKey => Matches(db, sid, c) && db.sagas[sid].state == Completed
    case Reloading => Matches(db, sid, c) && db.sagas[sid].state != Failed
    case Refunding => Matches(db, sid, c) && Moved(db.sagas[sid].state)
    case Publishing => Matches(db, sid, c) && db.sagas[sid].state == Compensated
    case Failing => Matches(db, sid, c) && db.sagas[sid].state == Pending
    case Replied(reply) => ReplyTrue(db, reply)
    case Returned => Matches(db, sid, c) && db.sagas[sid].state == Completed
    case Threw => true
  }

  ghost predicate WorkerOk(db: Db, r: Recovery) {
    && r.saga in db.sagas
    && db.sagas[r.saga].(state := r.seen.state) == r.seen
    && Moved(db.sagas[r.saga].state)
    && (r.pc == PayCache ==> db.sagas[r.saga].state == Completed)
    && (r.pc == Announcing ==> db.sagas[r.saga].state == Compensated)
  }

  ghost predicate KeysOk(db: Db) {
    forall r <- db.keys :: ReplyTrue(db, db.keys[r])
  }

  ghost predicate Inv(s: State) {
    && DbInv(s.db)
    && KeysOk(s.db)
    && CoordsOk(s)
    && WorkersOk(s)
  }

  // ---- what a transaction can do to a saga ----

  predicate Legal(st: SagaState, st': SagaState) {
    || st == st'
    || (st == Pending && (st' == SagaState.Debited || st' == Failed))
    || (st == SagaState.Debited && (st' == Completed || st' == Compensated))
  }

  /** The saga whose coordinator alone may run this transaction. */
  function Owner(act: Act): Option<SagaId> {
    match act
    case NewSaga(sid, _, _, _, _) => Some(sid)
    case RunLeg(sid, leg, _, _) => if leg == Debit then Some(sid) else None
    case MarkFailed(sid) => Some(sid)
    case _ => None
  }

  ghost predicate Evolves(db: Db, db': Db, owner: Option<SagaId>) {
    && (forall w <- db.wallets :: w in db'.wallets && db'.wallets[w].currency == db.wallets[w].currency)
    && (forall sid <- db.sagas ::
          && sid in db'.sagas
          && db'.sagas[sid].(state := db.sagas[sid].state) == db.sagas[sid]
          && Legal(db.sagas[sid].state, db'.sagas[sid].state)
          && (owner != Some(sid) ==> db.sagas[sid].state == Pending ==> db'.sagas[sid].state == Pending))
    && (forall sid | sid in db'.sagas && sid !in db.sagas :: owner == Some(sid))
  }

  lemma LegEvolves(db: Db, sid: SagaId, leg: Leg, w: WalletId, amount: int)
    ensures Evolves(db, Apply(db, RunLeg(sid, leg, w, amount)), if leg == Debit then Some(sid) else None)
  {
  }

  lemma WalletTxEvolves(db: Db, w: WalletId, op: WalletOp, request: Option<RequestId>)
    ensures Evolves(db, Apply(db, OnWallet(w, op, request)), None)
  {
  }

  lemma ApplyEvolves(db: Db, act: Act)
    requires Allowed(db, act)
    ensures Evolves(db, Apply(db, act), Owner(act))
  {
    match act
    case OnWallet(w, op, request) => WalletTxEvolves(db, w, op, request);
    case RunLeg(sid, leg, w, amount) => LegEvolves(db, sid, leg, w, amount);
    case _ =>
  }

  lemma CoordStays(db: Db, db': Db, owner: Option<SagaId>, sid: SagaId, c: Coord)
    requires Evolves(db, db', owner) && owner != Some(sid)
    requires CoordOk(db, sid, c)
    ensures CoordOk(db', sid, c)
  {
  }

  lemma WorkerStays(db: Db, db': Db, owner: Option<SagaId>, r: Recovery)
    requires Evolves(db, db', owner)
    requires WorkerOk(db, r)
    ensures WorkerOk(db', r)
  {
  }

  ghost predicate CoordsOk(s: State) {
    forall sid <- s.coords :: CoordOk(s.db, sid, s.coords[sid])
  }

  ghost predicate WorkersOk(s: State) {
    forall rid <- s.recs :: WorkerOk(s.db, s.recs[rid])
  }

  function OwnerOf(act: Option<Act>): Option<SagaId> {
    if act.None? then None else Owner(act.value)
  }

  /** Every transaction a process starts is one the ledger lemmas allow. */
  lemma StartedAllowed(s: State, a: Action)
    requires CoordsOk(s) && WorkersOk(s) && ActOf(s, a).Some?
    ensures Allowed(s.db, ActOf(s, a).value)
    ensures Owner(ActOf(s, a).value).Some? ==> a == Advance(Owner(ActOf(s, a).value).value)
  {
    match a
    case Advance(sid) => assert CoordOk(s.db, sid, s.coords[sid]);
    case WorkerAdvance(rid) => assert WorkerOk(s.db, s.recs[rid]);
    case _ =>
  }

  lemma OwnStep(db: Db, sid: SagaId, c: Coord)
    requires KeysOk(db) && CoordOk(db, sid, c)
    ensures CoordOk(Do(db, CoordAct(sid, c)), sid, c.(pc := AfterSuccess(db, sid, c)))
  {
    if c.pc == Checking && c.request.Some? && c.request.value in db.keys {
      assert ReplyTrue(db, db.keys[c.request.value]);
    }
  }

  lemma WorkerStep(db: Db, r: Recovery)
    requires WorkerOk(db, r)
    ensures WorkerOk(Do(db, WorkerAct(r)), r.(pc := WorkerAfterSuccess(db, r)))
  {
  }

  lemma CoordsKeep(s: State, a: Action)
    requires KeysOk(s.db) && CoordsOk(s)
    requires Evolves(s.db, Do(s.db, ActOf(s, a)), OwnerOf(ActOf(s, a)))
    requires OwnerOf(ActOf(s, a)).Some? ==> a == Advance(OwnerOf(ActOf(s, a)).value)
    ensures CoordsOk(Step(s, a))
  {
    var db' := Do(s.db, ActOf(s, a));
    forall sid <- CoordsAfter(s, a)
      ensures CoordOk(db', sid, CoordsAfter(s, a)[sid])
    {
      if a == Advance(sid) {
        OwnStep(s.db, sid, s.coords[sid]);
      } else if sid in s.coords {
        CoordStays(s.db, db', OwnerOf(ActOf(s, a)), sid, s.coords[sid]);
      }
    }
  }

  lemma WorkersKeep(s: State, a: Action)
    requires WorkersOk(s)
    requires Evolves(s.db, Do(s.db, ActOf(s, a)), OwnerOf(ActOf(s, a)))
    ensures WorkersOk(Step(s, a))
  {
    var db' := Do(s.db, ActOf(s, a));
    forall rid <- RecsAfter(s, a)
      ensures WorkerOk(db', RecsAfter(s, a)[rid])
    {
      if a == WorkerAdvance(rid) {
        WorkerStep(s.db, s.recs[rid]);
      } else if rid in s.recs {
        WorkerStays(s.db, db', OwnerOf(ActOf(s, a)), s.recs[rid]);
      }
    }
  }

  lemma ReplyStays(db: Db, db': Db, owner: Option<SagaId>, reply: Reply)
    requires Evolves(db, db', owner)
    requires ReplyTrue(db, reply)
    ensures ReplyTrue(db', reply)
  {
  }

  /** Only a direct request, or a coordinator whose saga is COMPLETED, stores an answer. */
  lemma NewKeyTrue(s: State, a: Action, r: RequestId)
    requires CoordsOk(s)
    requires var db' := Do(s.db, ActOf(s, a)); r in db'.keys && !(r in s.db.keys && db'.keys[r] == s.db.keys[r])
    ensures var db' := Do(s.db, ActOf(s, a)); ReplyTrue(db', db'.keys[r])
  {
    if a.Advance? {
      assert CoordOk(s.db, a.saga, s.coords[a.saga]);
    }
  }

  lemma KeysKeep(s: State, a: Action)
    requires KeysOk(s.db) && CoordsOk(s)
    requires Evolves(s.db, Do(s.db, ActOf(s, a)), OwnerOf(ActOf(s, a)))
    ensures KeysOk(Do(s.db, ActOf(s, a)))
  {
    var db' := Do(s.db, ActOf(s, a));
    forall r <- db'.keys
      ensures ReplyTrue(db', db'.keys[r])
    {
      if r in s.db.keys && db'.keys[r] == s.db.keys[r] {
        ReplyStays(s.db, db', OwnerOf(ActOf(s, a)), s.db.keys[r]);
      } else {
        NewKeyTrue(s, a, r);
      }
    }
  }

  lemma StepKeeps(s: State, a: Action)
    requires Inv(s)
    ensures Inv(Step(s, a))
  {
    var act := ActOf(s, a);
    if act.Some? {
      StartedAllowed(s, a);
      ApplyKeeps(s.db, act.value);
      ApplyEvolves(s.db, act.value);
    }
    KeysKeep(s, a);
    CoordsKeep(s, a);
    WorkersKeep(s, a);
  }

  /** The invariant holds in every state of every run. */
  lemma {:induction false} RunKeeps(s: State, actions: seq<Action>)
    requires Inv(s)
    ensures Inv(Run(s, actions))
    decreases |actions|
  {
    if actions != [] {
      RunKeeps(s, actions[..|actions| - 1]);
      StepKeeps(Run(s, actions[..|actions| - 1]), actions[|actions| - 1]);
    }
  }

  lemma InitialInv()
    ensures Inv(INITIAL)
  {
    EmptyInv();
  }
}
