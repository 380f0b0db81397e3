/** Inside one transaction: lock and read the wallet row, read the saga row without a lock,
    write both, commit or abort, interleaved with every other transaction. This is where
    treating a transaction as one step is justified, and where it is not: a credit and a
    refund of the same saga lock different wallets. */
module RowLocks {
  import opened Basics
  import opened Wallets
  import opened Store
  import opened Ledger
  import opened Conservation

  /** What a transaction will write outside the saga table. */
  datatype Writes = Writes(row: WalletRow, events: seq<Event>, outbox: seq<OutboxRow>, keys: map<RequestId, Reply>)

  datatype Stage =
    | Waiting                                   // to lock its wallet row
    | HoldsWallet(writes: Writes)               // locked, read, changed in memory
    | SagaRead(writes: Writes, seen: Saga)      // saga read and marked; waiting to lock its row
    | HoldsBoth(writes: Writes, seen: Saga)     // both rows updated, not committed

  /** Whose transaction: a coordinator's, a recovery worker's, or a direct request's. */
  datatype TxId = OfCoord(saga: SagaId) | OfWorker(worker: nat) | OfRequest(request: nat)

  datatype Tx = Tx(act: Act, stage: Stage)

  datatype LState = LState(db: Db, txs: map<TxId, Tx>, log: seq<Act>)

  datatype LAction =
    | Insert(act: Act)             // a new saga row
    | Start(tx: TxId, begun: Act)
    | TakeWallet(tx: TxId)
    | ReadSaga(tx: TxId)
    | TakeSaga(tx: TxId)
    | Commit(tx: TxId)
    | Abort(tx: TxId)

  // ---- one transaction ----

  function RowAt(db: Db, w: WalletId): Option<WalletRow> {
    if w in db.wallets then Some(db.wallets[w]) else None
  }

  /** Computed from the locked row alone. A deposit may create the row. */
  function Prepare(row: Option<WalletRow>, act: Act, today: int): Option<Writes> {
    match act
    case OnWallet(w, op, request) =>
      var loaded := if row.None? && op.Deposit? then Some(NewRow(USD)) else row;
      if loaded.None? || ApplyOp(loaded.value, op, today).Failure? then None
      else
        var after := ApplyOp(loaded.value, op, today).value;
        var created := if row.None? then [NewEvent(w, WalletCreated, USD, None, None, today)] else [];
        var e := NewEvent(w, OpKind(op), after.currency, OpAmount(op), None, today);
        Some(Writes(after, created + [e], [Mirror(e)],
                    if request.None? then map[] else map[request.value := BalanceReply(after.balance, w)]))
    case RunLeg(sid, leg, w, amount) =>
      if row.None? || ApplyOp(row.value, LegOp(leg, amount), today).Failure? then None
      else
        var after := ApplyOp(row.value, LegOp(leg, amount), today).value;
        var e := NewEvent(w, LegKind(leg), after.currency, Some(amount), Some(sid), today);
        Some(Writes(after, [e], [Mirror(e)], map[]))
    case _ => None
  }

  function Install(db: Db, w: WalletId, x: Writes): Db {
    db.(wallets := db.wallets[w := x.row],
        events := db.events + x.events,
        outbox := db.outbox + x.outbox,
        keys := db.keys + x.keys)
  }

  /** The saga row is written as this transaction read it, with its own mark. */
  function InstallLeg(db: Db, act: Act, x: Writes, seen: Saga): Db
    requires act.RunLeg?
  {
    var db' := Install(db, act.wallet, x).(sagas := db.sagas[act.saga := seen.(state := LegLeaves(act.leg))]);
    if act.leg == Pay then
      db'.(outbox := db'.outbox + [OutboxRow(seen.from, TransferCompleted, Some(seen.amount), Some(act.saga))])
    else db'
  }

  lemma PreparedIsApplied(db: Db, act: Act)
    requires act.OnWallet?
    ensures var x := Prepare(RowAt(db, act.wallet), act, db.today);
            Apply(db, act) == if x.None? then db else Install(db, act.wallet, x.value)
  {
    var x := Prepare(RowAt(db, act.wallet), act, db.today);
    if x.Some? {
      var created := if act.wallet in db.wallets then [] else [x.value.events[0]];
      var e := x.value.events[|x.value.events| - 1];
      assert x.value.events == created + [e];
      assert db.events + x.value.events == (db.events + created) + [e];
      assert db.wallets[act.wallet := NewRow(USD)][act.wallet := x.value.row] == db.wallets[act.wallet := x.value.row];
      if act.request.None? {
        assert db.keys + x.value.keys == db.keys;
      } else {
        assert db.keys + x.value.keys
            == db.keys[act.request.value := BalanceReply(x.value.row.balance, act.wallet)];
      }
    }
  }

  lemma PreparedLegIsApplied(db: Db, act: Act)
    requires act.RunLeg? && act.saga in db.sagas && db.sagas[act.saga].state == LegNeeds(act.leg)
    requires Prepare(RowAt(db, act.wallet), act, db.today).Some?
    ensures Apply(db, act)
         == InstallLeg(db, act, Prepare(RowAt(db, act.wallet), act, db.today).value, db.sagas[act.saga])
  {
    assert db.keys + map[] == db.keys;
  }

  // ---- locks ----

  predicate Locks(tx: Tx, w: WalletId) {
    !tx.stage.Waiting? && (tx.act.OnWallet? || tx.act.RunLeg?) && tx.act.wallet == w
  }

  predicate LocksSaga(tx: Tx, sid: SagaId) {
    tx.stage.HoldsBoth? && tx.act.RunLeg? && tx.act.saga == sid
  }

  predicate WalletFree(s: LState, w: WalletId) {
    forall t <- s.txs :: !Locks(s.txs[t], w)
  }

  predicate SagaFree(s: LState, sid: SagaId) {
    forall t <- s.txs :: !LocksSaga(s.txs[t], sid)
  }

  /** The service starts a leg only for a saga it has created, with that saga's own data. */
  predicate Startable(db: Db, act: Act) {
    && (act.OnWallet? || act.RunLeg?)
    && Allowed(db, act)
    && (act.RunLeg? ==> act.saga in db.sagas)
  }

  function LStep(s: LState, a: LAction): LState {
    match a
    case Insert(act) =>
      if act.NewSaga? && Allowed(s.db, act) then s.(db := Apply(s.db, act), log := s.log + [act]) else s
    case Start(t, act) =>
      if t !in s.txs && Startable(s.db, act) then s.(txs := s.txs[t := Tx(act, Waiting)]) else s
    case TakeWallet(t) =>
      if t !in s.txs || !s.txs[t].stage.Waiting? then s
      else
        var act := s.txs[t].act;
        if !(act.OnWallet? || act.RunLeg?) || !WalletFree(s, act.wallet) then s
        else
          var x := Prepare(RowAt(s.db, act.wallet), act, s.db.today);
          if x.None? then s.(txs := s.txs - {t}) else s.(txs := s.txs[t := Tx(act, HoldsWallet(x.value))])
    case ReadSaga(t) =>
      if t !in s.txs || !s.txs[t].stage.HoldsWallet? || !s.txs[t].act.RunLeg? then s
      else
        var act := s.txs[t].act;
        if act.saga !in s.db.sagas || s.db.sagas[act.saga].state != LegNeeds(act.leg) then s.(txs := s.txs - {t})
        else s.(txs := s.txs[t := Tx(act, SagaRead(s.txs[t].stage.writes, s.db.sagas[act.saga]))])
    case TakeSaga(t) =>
      if t !in s.txs || !s.txs[t].stage.SagaRead? || !s.txs[t].act.RunLeg? || !SagaFree(s, s.txs[t].act.saga) then s
      else s.(txs := s.txs[t := Tx(s.txs[t].act, HoldsBoth(s.txs[t].stage.writes, s.txs[t].stage.seen))])
    case Commit(t) =>
      if !CanCommit(s, t) then s
      else LState(Committed(s.db, s.txs[t]), s.txs - {t}, s.log + [s.txs[t].act])
    case Abort(t) => s.(txs := s.txs - {t})
  }

  predicate CanCommit(s: LState, t: TxId) {
    t in s.txs
    && if s.txs[t].act.OnWallet? then s.txs[t].stage.HoldsWallet?
       else s.txs[t].act.RunLeg? && s.txs[t].stage.HoldsBoth?
  }

  function Committed(db: Db, tx: Tx): Db
    requires if tx.act.OnWallet? then tx.stage.HoldsWallet? else tx.act.RunLeg? && tx.stage.HoldsBoth?
  {
    if tx.act.OnWallet? then Install(db, tx.act.wallet, tx.stage.writes)
    else InstallLeg(db, tx.act, tx.stage.writes, tx.stage.seen)
  }

  function LRun(s: LState, actions: seq<LAction>): LState
    decreases |actions|
  {
    if actions == [] then s else LStep(LRun(s, actions[..|actions| - 1]), actions[|actions| - 1])
  }

  /** The check the code does not make: is the saga row still what this transaction read? */
  predicate Stale(s: LState, t: TxId) {
    && t in s.txs && s.txs[t].act.RunLeg? && s.txs[t].stage.HoldsBoth?
    && (s.txs[t].act.saga !in s.db.sagas || s.db.sagas[s.txs[t].act.saga] != s.txs[t].stage.seen)
  }

  predicate AnyStale(s: LState, actions: seq<LAction>)
    decreases |actions|
  {
    actions != [] &&
    var before, a := actions[..|actions| - 1], actions[|actions| - 1];
    AnyStale(s, before) || (a.Commit? && Stale(LRun(s, before), a.tx))
  }

  // ---- the invariant ----

  /** Where the saga can be while a transaction that marked it is open. */
  predicate StillThere(leg: Leg, st: SagaState) {
    match leg
    case Debit => st == Pending
    case Pay => st == SagaState.Debited || st == Compensated
    case Refund => st == SagaState.Debited || st == Completed
  }

  ghost predicate TxOk(db: Db, tx: Tx) {
    && Startable(db, tx.act)
    && (tx.stage.Waiting? || Prepare(RowAt(db, tx.act.wallet), tx.act, db.today) == Some(tx.stage.writes))
    && (tx.stage.SagaRead? || tx.stage.HoldsBoth? ==>
          && tx.act.RunLeg?
          && tx.stage.seen.state == LegNeeds(tx.act.leg)
          && db.sagas[tx.act.saga].(state := tx.stage.seen.state) == tx.stage.seen
          && StillThere(tx.act.leg, db.sagas[tx.act.saga].state))
  }

  /** No two transactions hold the same row. */
  ghost predicate Exclusive(txs: map<TxId, Tx>) {
    && (forall t, u, w | t in txs && u in txs && Locks(txs[t], w) && Locks(txs[u], w) :: t == u)
    && (forall t, u, sid | t in txs && u in txs && LocksSaga(txs[t], sid) && LocksSaga(txs[u], sid) :: t == u)
  }

  ghost predicate LInv(s: LState) {
    && Exclusive(s.txs)
    && (forall t <- s.txs :: TxOk(s.db, s.txs[t]))
  }

  /** A commit leaves every other open transaction as it found it. */
  lemma CommitFrames(db: Db, tx: Tx, other: Tx)
    requires TxOk(db, tx) && TxOk(db, other)
    requires if tx.act.OnWallet? then tx.stage.HoldsWallet? else tx.act.RunLeg? && tx.stage.HoldsBoth?
    requires !other.stage.Waiting? ==> other.act.wallet != tx.act.wallet
    ensures TxOk(Committed(db, tx), other)
  {
  }

  lemma InsertFrames(db: Db, act: Act, other: Tx)
    requires act.NewSaga? && Allowed(db, act) && TxOk(db, other)
    ensures TxOk(Apply(db, act), other)
  {
  }

  lemma LStepKeeps(s: LState, a: LAction)
    requires LInv(s)
    ensures LInv(LStep(s, a))
  {
    var s' := LStep(s, a);
    forall u <- s'.txs
      ensures TxOk(s'.db, s'.txs[u])
    {
      if u in s.txs {
        assert TxOk(s.db, s.txs[u]);
        if a.Commit? && CanCommit(s, a.tx) {
          assert Locks(s.txs[a.tx], s.txs[a.tx].act.wallet);
          assert !s.txs[u].stage.Waiting? ==> Locks(s.txs[u], s.txs[u].act.wallet);
          CommitFrames(s.db, s.txs[a.tx], s.txs[u]);
        } else if a.Insert? && s' != s {
          InsertFrames(s.db, a.act, s.txs[u]);
        }
      }
    }
    ExclusiveKept(s, a);
  }

  lemma ExclusiveKept(s: LState, a: LAction)
    requires Exclusive(s.txs)
    ensures Exclusive(LStep(s, a).txs)
  {
  }

  lemma {:induction false} LRunKeeps(s: LState, actions: seq<LAction>)
    requires LInv(s)
    ensures LInv(LRun(s, actions))
    decreases |actions|
  {
    if actions != [] {
      LRunKeeps(s, actions[..|actions| - 1]);
      LStepKeeps(LRun(s, actions[..|actions| - 1]), actions[|actions| - 1]);
    }
  }

  // ---- serialisation ----

  /** The wallet rows after running the log's transactions one after another. */
  function SerialWallets(wallets: map<WalletId, WalletRow>, log: seq<Act>, today: int): map<WalletId, WalletRow> {
    if log == [] then wallets
    else
      var before, act := SerialWallets(wallets, log[..|log| - 1], today), log[|log| - 1];
      if !act.OnWallet? && !act.RunLeg? then before
      else
        var x := Prepare(if act.wallet in before then Some(before[act.wallet]) else None, act, today);
        if x.None? then before else before[act.wallet := x.value.row]
  }

  /** In that order no wallet operation is refused. */
  predicate SerialAccepted(wallets: map<WalletId, WalletRow>, log: seq<Act>, today: int) {
    log == [] ||
    var before, act := SerialWallets(wallets, log[..|log| - 1], today), log[|log| - 1];
    && SerialAccepted(wallets, log[..|log| - 1], today)
    && (act.OnWallet? || act.RunLeg? ==>
          Prepare(if act.wallet in before then Some(before[act.wallet]) else None, act, today).Some?)
  }

  /** Any interleaving leaves every wallet row as if the committed transactions had run one
      after another in commit order, each of them succeeding there. */
  lemma {:induction false} WalletsAreSerial(s: LState, actions: seq<LAction>)
    requires LInv(s) && s.log == []
    ensures var t := LRun(s, actions);
            && t.db.today == s.db.today
            && t.db.wallets == SerialWallets(s.db.wallets, t.log, s.db.today)
            && SerialAccepted(s.db.wallets, t.log, s.db.today)
    decreases |actions|
  {
    if actions != [] {
      var before := actions[..|actions| - 1];
      WalletsAreSerial(s, before);
      LRunKeeps(s, before);
      LStepSerial(s.db.wallets, LRun(s, before), actions[|actions| - 1]);
    }
  }

  lemma LStepSerial(wallets: map<WalletId, WalletRow>, t: LState, a: LAction)
    requires LInv(t)
    requires t.db.wallets == SerialWallets(wallets, t.log, t.db.today)
    requires SerialAccepted(wallets, t.log, t.db.today)
    ensures var t' := LStep(t, a);
            && t'.db.today == t.db.today
            && t'.db.wallets == SerialWallets(wallets, t'.log, t.db.today)
            && SerialAccepted(wallets, t'.log, t.db.today)
  {
    if a.Commit? && CanCommit(t, a.tx) {
      CommitSerial(wallets, t.db, t.txs[a.tx], t.log);
    } else if a.Insert? && LStep(t, a).log != t.log {
      assert (t.log + [a.act])[..|t.log|] == t.log;
    }
  }

  lemma CommitSerial(wallets: map<WalletId, WalletRow>, db: Db, tx: Tx, log: seq<Act>)
    requires TxOk(db, tx)
    requires if tx.act.OnWallet? then tx.stage.HoldsWallet? else tx.act.RunLeg? && tx.stage.HoldsBoth?
    requires db.wallets == SerialWallets(wallets, log, db.today) && SerialAccepted(wallets, log, db.today)
    ensures Committed(db, tx).today == db.today
    ensures Committed(db, tx).wallets == SerialWallets(wallets, log + [tx.act], db.today)
    ensures SerialAccepted(wallets, log + [tx.act], db.today)
  {
    assert (log + [tx.act])[..|log|] == log;
  }

  /** As long as no commit overwrites a saga row changed since it was read, the whole database
      is the one the committed transactions give when each is one indivisible step. */
  lemma {:induction false} TransactionsAreAtomic(s: LState, actions: seq<LAction>)
    requires LInv(s) && s.log == []
    requires !AnyStale(s, actions)
    ensures LRun(s, actions).db == ApplyAll(s.db, LRun(s, actions).log)
    decreases |actions|
  {
    if actions != [] {
      var before, a := actions[..|actions| - 1], actions[|actions| - 1];
      TransactionsAreAtomic(s, before);
      LRunKeeps(s, before);
      var t := LRun(s, before);
      var t' := LStep(t, a);
      if t'.log != t.log {
        assert t'.log[..|t'.log| - 1] == t.log;
        if a.Commit? {
          FreshCommitIsAtomic(t, a.tx);
        }
      }
    }
  }

  lemma FreshCommitIsAtomic(s: LState, t: TxId)
    requires LInv(s) && CanCommit(s, t) && !Stale(s, t)
    ensures Committed(s.db, s.txs[t]) == Apply(s.db, s.txs[t].act)
  {
    assert TxOk(s.db, s.txs[t]);
    if s.txs[t].act.OnWallet? {
      PreparedIsApplied(s.db, s.txs[t].act);
    } else {
      PreparedLegIsApplied(s.db, s.txs[t].act);
    }
  }

  /** ... and then every ledger is exact: of the transactions that race for one saga, at most
      one debit and one of credit and refund commit. */
  lemma {:induction false} FreshRunsKeepLedgers(s: LState, actions: seq<LAction>)
    requires LInv(s) && DbInv(s.db)
    requires !AnyStale(s, actions)
    ensures DbInv(LRun(s, actions).db)
    decreases |actions|
  {
    if actions != [] {
      var before, a := actions[..|actions| - 1], actions[|actions| - 1];
      FreshRunsKeepLedgers(s, before);
      LRunKeeps(s, before);
      var t := LRun(s, before);
      if a.Commit? && CanCommit(t, a.tx) {
        FreshCommitIsAtomic(t, a.tx);
        assert TxOk(t.db, t.txs[a.tx]);
        ApplyKeeps(t.db, t.txs[a.tx].act);
      } else if a.Insert? && a.act.NewSaga? && Allowed(t.db, a.act) {
        ApplyKeeps(t.db, a.act);
      }
    }
  }

  // ---- what can go stale ----

  /** Only a credit whose saga has meanwhile been refunded, or a refund whose saga has
      meanwhile been credited. Two debits, two credits, two refunds, or a debit and a refund
      of one saga are kept apart by the wallet row they share. */
  lemma OnlyOpposites(s: LState, actions: seq<LAction>, t: TxId)
    requires LInv(s)
    requires t in LRun(s, actions).txs
    ensures var u := LRun(s, actions);
            var tx := u.txs[t];
            Stale(u, t) <==>
              && tx.stage.HoldsBoth? && tx.act.RunLeg? && tx.act.saga in u.db.sagas
              && var now := u.db.sagas[tx.act.saga].state;
                 (tx.act.leg == Pay && now == Compensated) || (tx.act.leg == Refund && now == Completed)
  {
    LRunKeeps(s, actions);
    var u := LRun(s, actions);
    assert TxOk(u.db, u.txs[t]);
  }

  // ---- each leg at most once, stale commits included ----

  predicate IsLeg(act: Act, sid: SagaId, leg: Leg) {
    act.RunLeg? && act.saga == sid && act.leg == leg
  }

  /** How often a leg of a saga was committed. */
  function Times(log: seq<Act>, sid: SagaId, leg: Leg): nat {
    if log == [] then 0
    else Times(log[..|log| - 1], sid, leg) + (if IsLeg(log[|log| - 1], sid, leg) then 1 else 0)
  }

  /** The saga has left the state the leg needs, for good. */
  predicate Past(leg: Leg, st: SagaState) {
    if leg == Debit then st != Pending else st == Completed || st == Compensated
  }

  ghost predicate LegDone(s: LState, sid: SagaId, leg: Leg) {
    && sid in s.db.sagas && Past(leg, s.db.sagas[sid].state)
    && forall t <- s.txs :: IsLeg(s.txs[t].act, sid, leg) ==> !s.txs[t].stage.SagaRead? && !s.txs[t].stage.HoldsBoth?
  }

  ghost predicate Once(s: LState, sid: SagaId, leg: Leg) {
    Times(s.log, sid, leg) <= 1 && (Times(s.log, sid, leg) == 1 ==> LegDone(s, sid, leg))
  }

  /** The transaction that commits a leg is the only one of that leg that has read the saga: all
      of them need the same wallet row. */
  lemma CommitFinishes(s: LState, t: TxId, sid: SagaId)
    requires LInv(s) && CanCommit(s, t) && s.txs[t].act.RunLeg? && s.txs[t].act.saga == sid
    ensures LegDone(LStep(s, Commit(t)), sid, s.txs[t].act.leg)
  {
    var tx := s.txs[t];
    assert TxOk(s.db, tx) && Locks(tx, tx.act.wallet);
    forall u | u in s.txs && IsLeg(s.txs[u].act, sid, tx.act.leg) && !s.txs[u].stage.Waiting?
      ensures u == t
    {
      assert TxOk(s.db, s.txs[u]) && Locks(s.txs[u], tx.act.wallet);
    }
  }

  lemma DoneStays(s: LState, a: LAction, sid: SagaId, leg: Leg)
    requires LInv(s) && LegDone(s, sid, leg)
    requires a.Commit? && CanCommit(s, a.tx) ==> !IsLeg(s.txs[a.tx].act, sid, leg)
    ensures LegDone(LStep(s, a), sid, leg)
  {
    if a.Commit? && CanCommit(s, a.tx) {
      assert TxOk(s.db, s.txs[a.tx]);
    }
  }

  lemma TimesGrow(log: seq<Act>, act: Act)
    ensures forall sid, leg :: Times(log + [act], sid, leg) == Times(log, sid, leg) + (if IsLeg(act, sid, leg) then 1 else 0)
  {
    assert (log + [act])[..|log|] == log;
  }

  /** Only its commit counts a leg. */
  lemma TimesStep(s: LState, a: LAction, sid: SagaId, leg: Leg)
    ensures Times(LStep(s, a).log, sid, leg)
         == Times(s.log, sid, leg) + (if a.Commit? && CanCommit(s, a.tx) && IsLeg(s.txs[a.tx].act, sid, leg) then 1 else 0)
  {
    if a.Commit? && CanCommit(s, a.tx) {
      TimesGrow(s.log, s.txs[a.tx].act);
    } else if a.Insert? && a.act.NewSaga? {
      TimesGrow(s.log, a.act);
    }
  }

  lemma StepOnce(s: LState, a: LAction, sid: SagaId, leg: Leg)
    requires LInv(s) && Once(s, sid, leg)
    ensures Once(LStep(s, a), sid, leg)
  {
    TimesStep(s, a, sid, leg);
    if a.Commit? && CanCommit(s, a.tx) && IsLeg(s.txs[a.tx].act, sid, leg) {
      CommitFinishes(s, a.tx, sid);
      NotDoneYet(s, a.tx, sid, leg);
    } else if Times(s.log, sid, leg) == 1 {
      DoneStays(s, a, sid, leg);
    }
  }

  lemma NotDoneYet(s: LState, t: TxId, sid: SagaId, leg: Leg)
    requires Once(s, sid, leg) && CanCommit(s, t) && IsLeg(s.txs[t].act, sid, leg)
    ensures Times(s.log, sid, leg) == 0
  {
  }

  /** Over any interleaving a saga is debited at most once, credited at most once, and refunded at
      most once: racing credits, or racing refunds, commit one of their number. */
  lemma {:induction false} EachLegOnce(s: LState, actions: seq<LAction>, sid: SagaId, leg: Leg)
    requires LInv(s) && s.log == []
    ensures Once(LRun(s, actions), sid, leg)
    ensures Times(LRun(s, actions).log, sid, leg) <= 1
    decreases |actions|
  {
    if actions != [] {
      var before := actions[..|actions| - 1];
      EachLegOnce(s, before, sid, leg);
      LRunKeeps(s, before);
      StepOnce(LRun(s, before), actions[|actions| - 1], sid, leg);
    }
  }

  predicate Settled(sagas: map<SagaId, Saga>, sid: SagaId) {
    sid in sagas && Past(Pay, sagas[sid].state)
  }

  ghost predicate PaidOrRefunded(log: seq<Act>, sagas: map<SagaId, Saga>, sid: SagaId) {
    Times(log, sid, Pay) + Times(log, sid, Refund) + (if Settled(sagas, sid) then 0 else 1) <= 1
  }

  lemma FreshCommitMoves(s: LState, t: TxId)
    requires LInv(s) && CanCommit(s, t) && !Stale(s, t)
    ensures var act, sagas' := s.txs[t].act, Committed(s.db, s.txs[t]).sagas;
            if act.RunLeg? then
              && act.saga in s.db.sagas && s.db.sagas[act.saga].state == LegNeeds(act.leg)
              && sagas' == s.db.sagas[act.saga := s.db.sagas[act.saga].(state := LegLeaves(act.leg))]
            else sagas' == s.db.sagas
  {
    assert TxOk(s.db, s.txs[t]);
  }

  /** Without a stale commit, a credit or a refund settles a saga that was not settled, and nothing
      unsettles one. */
  lemma FreshStepMoves(t: LState, a: LAction, sid: SagaId)
    requires LInv(t)
    requires a.Commit? ==> !Stale(t, a.tx)
    ensures Settled(t.db.sagas, sid) ==> Settled(LStep(t, a).db.sagas, sid)
    ensures a.Commit? && CanCommit(t, a.tx) && (IsLeg(t.txs[a.tx].act, sid, Pay) || IsLeg(t.txs[a.tx].act, sid, Refund)) ==>
              !Settled(t.db.sagas, sid) && Settled(LStep(t, a).db.sagas, sid)
  {
    if a.Commit? && CanCommit(t, a.tx) {
      FreshCommitMoves(t, a.tx);
    }
  }

  lemma FreshStepSettles(t: LState, a: LAction, sid: SagaId)
    requires LInv(t) && PaidOrRefunded(t.log, t.db.sagas, sid)
    requires a.Commit? ==> !Stale(t, a.tx)
    ensures PaidOrRefunded(LStep(t, a).log, LStep(t, a).db.sagas, sid)
  {
    TimesStep(t, a, sid, Pay);
    TimesStep(t, a, sid, Refund);
    FreshStepMoves(t, a, sid);
  }

  /** It is credited and refunded only over a stale commit. */
  lemma {:induction false} NeverBothWhenFresh(s: LState, actions: seq<LAction>, sid: SagaId)
    requires LInv(s) && s.log == []
    requires !AnyStale(s, actions)
    ensures PaidOrRefunded(LRun(s, actions).log, LRun(s, actions).db.sagas, sid)
    ensures Times(LRun(s, actions).log, sid, Pay) + Times(LRun(s, actions).log, sid, Refund) <= 1
    decreases |actions|
  {
    if actions != [] {
      var before := actions[..|actions| - 1];
      NeverBothWhenFresh(s, before, sid);
      LRunKeeps(s, before);
      FreshStepSettles(LRun(s, before), actions[|actions| - 1], sid);
    }
  }

  function Opposite(leg: Leg): Leg {
    if leg == Pay then Refund else Pay
  }

  /** A transaction has marked the saga for its leg, and the opposite leg has gone through meanwhile. */
  predicate Overtaken(db: Db, tx: Tx) {
    && tx.act.RunLeg? && tx.act.leg != Debit && (tx.stage.SagaRead? || tx.stage.HoldsBoth?)
    && tx.act.saga in db.sagas && db.sagas[tx.act.saga].state == LegLeaves(Opposite(tx.act.leg))
  }

  ghost predicate OvertakersLogged(s: LState) {
    forall t <- s.txs :: Overtaken(s.db, s.txs[t]) ==> Times(s.log, s.txs[t].act.saga, Opposite(s.txs[t].act.leg)) >= 1
  }

  lemma CommitOvertakes(s: LState, t: TxId)
    requires LInv(s) && OvertakersLogged(s) && CanCommit(s, t)
    ensures OvertakersLogged(LStep(s, Commit(t)))
  {
    var s' := LStep(s, Commit(t));
    TimesGrow(s.log, s.txs[t].act);
    assert TxOk(s.db, s.txs[t]);
    forall u | u in s'.txs && Overtaken(s'.db, s'.txs[u])
      ensures Times(s'.log, s'.txs[u].act.saga, Opposite(s'.txs[u].act.leg)) >= 1
    {
      assert TxOk(s.db, s.txs[u]);
      if s.txs[t].act.RunLeg? && s.txs[t].act.saga == s.txs[u].act.saga {
        assert IsLeg(s.txs[t].act, s.txs[u].act.saga, Opposite(s.txs[u].act.leg));
      } else {
        assert Overtaken(s.db, s.txs[u]);
      }
    }
  }

  lemma StepOvertakes(s: LState, a: LAction)
    requires LInv(s) && OvertakersLogged(s)
    ensures OvertakersLogged(LStep(s, a))
  {
    if a.Commit? {
      if CanCommit(s, a.tx) {
        CommitOvertakes(s, a.tx);
      }
    } else {
      var s' := LStep(s, a);
      if s'.log != s.log {
        TimesGrow(s.log, a.act);
      }
      forall u | u in s'.txs && Overtaken(s'.db, s'.txs[u])
        ensures Times(s'.log, s'.txs[u].act.saga, Opposite(s'.txs[u].act.leg)) >= 1
      {
        assert u in s.txs && TxOk(s.db, s.txs[u]);
        assert Overtaken(s.db, s.txs[u]);
      }
    }
  }

  /** Credited and refunded. */
  predicate PaidTwice(log: seq<Act>, sid: SagaId) {
    Times(log, sid, Pay) >= 1 && Times(log, sid, Refund) >= 1
  }

  lemma StaleCommitPaysTwice(s: LState, t: TxId)
    requires LInv(s) && OvertakersLogged(s) && Stale(s, t)
    ensures PaidTwice(LStep(s, Commit(t)).log, s.txs[t].act.saga)
  {
    assert TxOk(s.db, s.txs[t]);
    assert Overtaken(s.db, s.txs[t]);
    TimesGrow(s.log, s.txs[t].act);
  }

  lemma {:induction false} StaleMeansPaidTwice(s: LState, actions: seq<LAction>)
    requires LInv(s) && s.log == [] && s.txs == map[]
    ensures OvertakersLogged(LRun(s, actions))
    ensures AnyStale(s, actions) ==> exists sid :: PaidTwice(LRun(s, actions).log, sid)
    decreases |actions|
  {
    if actions != [] {
      var before, a := actions[..|actions| - 1], actions[|actions| - 1];
      StaleMeansPaidTwice(s, before);
      LRunKeeps(s, before);
      var t := LRun(s, before);
      StepOvertakes(t, a);
      if a.Commit? && Stale(t, a.tx) {
        StaleCommitPaysTwice(t, a.tx);
      } else if AnyStale(s, before) {
        var sid :| PaidTwice(t.log, sid);
        if LStep(t, a).log != t.log {
          TimesGrow(t.log, if a.Commit? then t.txs[a.tx].act else a.act);
        }
        assert PaidTwice(LStep(t, a).log, sid);
      }
    }
  }

  /** Over any interleaving some saga is both credited and refunded exactly when some commit is stale. */
  lemma PaidTwiceExactly(s: LState, actions: seq<LAction>)
    requires LInv(s) && s.log == [] && s.txs == map[]
    ensures (exists sid :: PaidTwice(LRun(s, actions).log, sid)) <==> AnyStale(s, actions)
  {
    StaleMeansPaidTwice(s, actions);
    if !AnyStale(s, actions) {
      forall sid
        ensures !PaidTwice(LRun(s, actions).log, sid)
      {
        NeverBothWhenFresh(s, actions, sid);
      }
    }
  }

  // ---- what it does to the ledgers ----

  function Kinds(moves: seq<Move>): set<EventType> {
    set m <- moves :: m.kind
  }

  lemma {:induction false} SagaLogJoins(es: seq<Event>, more: seq<Event>, sid: SagaId)
    ensures OfSaga(es + more, sid) == OfSaga(es, sid) + OfSaga(more, sid)
    decreases |more|
  {
    if more == [] {
      assert es + more == es;
    } else {
      SagaLogJoins(es, more[..|more| - 1], sid);
      assert (es + more)[..|es + more| - 1] == es + more[..|more| - 1];
    }
  }

  ghost predicate LegsInLog(s: LState, sid: SagaId) {
    forall leg :: Times(s.log, sid, leg) >= 1 ==> LegKind(leg) in Kinds(OfSaga(s.db.events, sid))
  }

  lemma CommitWritesMove(db: Db, tx: Tx, sid: SagaId)
    requires TxOk(db, tx)
    requires if tx.act.OnWallet? then tx.stage.HoldsWallet? else tx.act.RunLeg? && tx.stage.HoldsBoth?
    ensures Kinds(OfSaga(db.events, sid)) <= Kinds(OfSaga(Committed(db, tx).events, sid))
    ensures tx.act.RunLeg? && tx.act.saga == sid ==> LegKind(tx.act.leg) in Kinds(OfSaga(Committed(db, tx).events, sid))
  {
    var moves, more := OfSaga(db.events, sid), OfSaga(tx.stage.writes.events, sid);
    SagaLogJoins(db.events, tx.stage.writes.events, sid);
    assert Kinds(moves + more) == Kinds(moves) + Kinds(more) by {
      assert forall m :: m in moves + more <==> m in moves || m in more;
    }
    if tx.act.RunLeg? && tx.act.saga == sid {
      LegWrites(db, tx);
      var e := tx.stage.writes.events[0];
      assert tx.stage.writes.events == [] + [e];
      Appended([], e);
      assert more == [Move(e.wallet, e.kind, e.amount)] && more[0] in more;
    }
  }

  lemma {:induction false} CommittedLegsInLog(s: LState, actions: seq<LAction>, sid: SagaId)
    requires LInv(s) && s.log == []
    ensures LegsInLog(LRun(s, actions), sid)
    decreases |actions|
  {
    if actions != [] {
      var before, a := actions[..|actions| - 1], actions[|actions| - 1];
      CommittedLegsInLog(s, before, sid);
      LRunKeeps(s, before);
      var t := LRun(s, before);
      if a.Commit? && CanCommit(t, a.tx) {
        assert TxOk(t.db, t.txs[a.tx]);
        CommitWritesMove(t.db, t.txs[a.tx], sid);
        TimesGrow(t.log, t.txs[a.tx].act);
      } else if LStep(t, a).log != t.log {
        TimesGrow(t.log, a.act);
      }
    }
  }

  lemma NotBothInLedger(db: Db, sid: SagaId)
    requires SagasOk(db.wallets, db.sagas, db.events)
    ensures !(LegKind(Pay) in Kinds(OfSaga(db.events, sid)) && LegKind(Refund) in Kinds(OfSaga(db.events, sid)))
  {
    if sid in db.sagas {
      assert OfSaga(db.events, sid) == ExpectedMoves(db.sagas[sid]);
    }
  }

  /** Over any interleaving the ledgers stay exact exactly when no commit is stale. */
  lemma LedgersKeptExactly(s: LState, actions: seq<LAction>)
    requires LInv(s) && DbInv(s.db) && s.log == [] && s.txs == map[]
    ensures DbInv(LRun(s, actions).db) <==> !AnyStale(s, actions)
  {
    if AnyStale(s, actions) {
      PaidTwiceExactly(s, actions);
      var sid :| PaidTwice(LRun(s, actions).log, sid);
      CommittedLegsInLog(s, actions, sid);
      if DbInv(LRun(s, actions).db) {
        NotBothInLedger(LRun(s, actions).db, sid);
      }
    } else {
      FreshRunsKeepLedgers(s, actions);
    }
  }

  // ---- what it costs ----

  /** The amounts of the stale commits of a run, in one currency. */
  function Minted(s: LState, actions: seq<LAction>, c: Currency): int
    decreases |actions|
  {
    if actions == [] then 0
    else
      var before, a := actions[..|actions| - 1], actions[|actions| - 1];
      var t := LRun(s, before);
      Minted(s, before, c)
      + (if a.Commit? && Stale(t, a.tx) && t.txs[a.tx].stage.seen.currency == c then t.txs[a.tx].act.amount else 0)
  }

  ghost predicate SagasShaped(db: Db) {
    forall sid <- db.sagas ::
      var g := db.sagas[sid];
      && g.from in db.wallets && db.wallets[g.from].currency == g.currency
      && g.to in db.wallets && db.wallets[g.to].currency == g.currency
  }

  lemma InstallBalanced(db: Db, w: WalletId, act: Act, x: Writes, c: Currency)
    requires act.OnWallet? && act.wallet == w && !act.op.Credit?
    requires Prepare(RowAt(db, w), act, db.today) == Some(x)
    ensures var db' := Install(db, w, x);
            Total(db', c) - Total(db, c) == NetDirect(db'.events, c) - NetDirect(db.events, c)
  {
    PreparedIsApplied(db, act);
    WalletTxBalanced(db, w, act.op, act.request, c);
  }

  /** What a leg's writes do to its wallet row. */
  lemma LegWrites(db: Db, tx: Tx)
    requires TxOk(db, tx) && tx.act.RunLeg? && tx.stage.HoldsBoth?
    ensures var act, x := tx.act, tx.stage.writes;
            && act.wallet in db.wallets && act.amount > 0
            && x.row.currency == db.wallets[act.wallet].currency
            && x.row.balance == db.wallets[act.wallet].balance + (if act.leg == Debit then -act.amount else act.amount)
            && |x.events| == 1 && x.events[0].saga == Some(act.saga) && x.events[0].kind == LegKind(act.leg)
  {
  }

  /** A leg committed from what it read: it balances if that is still so, and otherwise puts
      its amount into a wallet without taking it from anywhere. */
  lemma LegCommitBalance(db: Db, tx: Tx, c: Currency)
    requires TxOk(db, tx) && tx.act.RunLeg? && tx.stage.HoldsBoth? && SagasShaped(db)
    ensures var db' := Committed(db, tx);
            && NetDirect(db'.events, c) == NetDirect(db.events, c)
            && Total(db', c) - Total(db, c)
                == if db.sagas[tx.act.saga] != tx.stage.seen && tx.stage.seen.currency == c then tx.act.amount else 0
    ensures tx.act.amount > 0
  {
    LegWrites(db, tx);
    LegCommitTotals(db, tx.act, tx.stage.writes, tx.stage.seen, c);
  }

  lemma LegCommitTotals(db: Db, act: Act, x: Writes, seen: Saga, c: Currency)
    requires act.RunLeg? && act.saga in db.sagas && act.wallet in db.wallets
    requires db.sagas[act.saga].(state := seen.state) == seen && seen.state == LegNeeds(act.leg)
    requires StillThere(act.leg, db.sagas[act.saga].state) && seen.amount == act.amount
    requires x.row.currency == db.wallets[act.wallet].currency == seen.currency
    requires x.row.balance == db.wallets[act.wallet].balance + (if act.leg == Debit then -act.amount else act.amount)
    requires |x.events| == 1 && x.events[0].saga == Some(act.saga)
    ensures var db' := InstallLeg(db, act, x, seen);
            && NetDirect(db'.events, c) == NetDirect(db.events, c)
            && Total(db', c) - Total(db, c)
                == if db.sagas[act.saga] != seen && seen.currency == c then act.amount else 0
  {
    PutWallet(db.wallets, act.wallet, x.row, c);
    PutSaga(db.sagas, act.saga, seen.(state := LegLeaves(act.leg)), c);
    NetAppend(db.events, x.events[0], c);
    assert db.events + x.events == db.events + [x.events[0]];
  }

  lemma CommitShaped(db: Db, tx: Tx)
    requires TxOk(db, tx) && SagasShaped(db)
    requires if tx.act.OnWallet? then tx.stage.HoldsWallet? else tx.act.RunLeg? && tx.stage.HoldsBoth?
    ensures SagasShaped(Committed(db, tx))
  {
  }

  lemma CommitMoney(t: LState, n: TxId, c: Currency)
    requires LInv(t) && SagasShaped(t.db) && CanCommit(t, n)
    ensures var db' := Committed(t.db, t.txs[n]);
            && SagasShaped(db')
            && Total(db', c) - Total(t.db, c) - (NetDirect(db'.events, c) - NetDirect(t.db.events, c))
                == if Stale(t, n) && t.txs[n].stage.seen.currency == c then t.txs[n].act.amount else 0
    ensures Stale(t, n) ==> t.txs[n].act.amount > 0
  {
    var tx := t.txs[n];
    assert TxOk(t.db, tx);
    CommitShaped(t.db, tx);
    if tx.act.OnWallet? {
      InstallBalanced(t.db, tx.act.wallet, tx.act, tx.stage.writes, c);
    } else {
      LegCommitBalance(t.db, tx, c);
    }
  }

  lemma StepMoney(t: LState, a: LAction, c: Currency)
    requires LInv(t) && SagasShaped(t.db)
    ensures var db' := LStep(t, a).db;
            && SagasShaped(db')
            && Total(db', c) - Total(t.db, c) - (NetDirect(db'.events, c) - NetDirect(t.db.events, c))
                == if a.Commit? && Stale(t, a.tx) && t.txs[a.tx].stage.seen.currency == c then t.txs[a.tx].act.amount else 0
    ensures a.Commit? && Stale(t, a.tx) ==> t.txs[a.tx].act.amount > 0
  {
    if a.Commit? && CanCommit(t, a.tx) {
      CommitMoney(t, a.tx, c);
    } else if a.Insert? && a.act.NewSaga? && Allowed(t.db, a.act) {
      PutSaga(t.db.sagas, a.act.saga, Saga(a.act.from, a.act.to, a.act.amount, a.act.currency, Pending), c);
    }
  }

  /** Over any interleaving, money changes by the direct movements and by the amounts of the
      stale commits. */
  lemma {:induction false} MoneyUpToStaleCommits(s: LState, actions: seq<LAction>, c: Currency)
    requires LInv(s) && SagasShaped(s.db)
    ensures var t := LRun(s, actions);
            && SagasShaped(t.db)
            && Total(t.db, c)
                == Total(s.db, c) + NetDirect(t.db.events, c) - NetDirect(s.db.events, c) + Minted(s, actions, c)
            && Minted(s, actions, c) >= 0
    decreases |actions|
  {
    if actions != [] {
      var before, a := actions[..|actions| - 1], actions[|actions| - 1];
      MoneyUpToStaleCommits(s, before, c);
      LRunKeeps(s, before);
      StepMoney(LRun(s, before), a, c);
    }
  }

  lemma {:induction false} StaleCommitsMint(s: LState, actions: seq<LAction>)
    requires LInv(s) && SagasShaped(s.db)
    ensures AnyStale(s, actions) ==> exists c :: Minted(s, actions, c) > 0
    ensures forall c :: Minted(s, actions, c) > 0 ==> AnyStale(s, actions)
    decreases |actions|
  {
    if actions != [] {
      var before, a := actions[..|actions| - 1], actions[|actions| - 1];
      StaleCommitsMint(s, before);
      LRunKeeps(s, before);
      var t := LRun(s, before);
      if a.Commit? && Stale(t, a.tx) {
        var c := t.txs[a.tx].stage.seen.currency;
        MoneyUpToStaleCommits(s, before, c);
        assert TxOk(t.db, t.txs[a.tx]);
        LegCommitBalance(t.db, t.txs[a.tx], c);
        assert Minted(s, actions, c) > 0;
      } else if AnyStale(s, before) {
        var c :| Minted(s, before, c) > 0;
        assert Minted(s, actions, c) > 0;
      }
    }
  }

  /** What a run did to the money that its direct movements do not explain. */
  ghost function Unexplained(db: Db, db': Db, c: Currency): int {
    Total(db', c) - Total(db, c) - (NetDirect(db'.events, c) - NetDirect(db.events, c))
  }

  /** Money is conserved over a run exactly when none of its commits was stale: the guard the
      code would have to add is the one that matters, and the only one. */
  lemma ConservedExactly(s: LState, actions: seq<LAction>)
    requires LInv(s) && SagasShaped(s.db)
    ensures (forall c :: Unexplained(s.db, LRun(s, actions).db, c) == 0) <==> !AnyStale(s, actions)
  {
    StaleCommitsMint(s, actions);
    if AnyStale(s, actions) {
      var c :| Minted(s, actions, c) > 0;
      MoneyUpToStaleCommits(s, actions, c);
      assert Unexplained(s.db, LRun(s, actions).db, c) != 0;
    } else {
      forall c
        ensures Unexplained(s.db, LRun(s, actions).db, c) == 0
      {
        MoneyUpToStaleCommits(s, actions, c);
      }
    }
  }

  // ---- the race, concretely ----

  lemma {:induction false} LRunFront(s: LState, a: LAction, rest: seq<LAction>)
    ensures LRun(s, [a] + rest) == LRun(LStep(s, a), rest)
    decreases |rest|
  {
    if rest == [] {
      assert [a] + rest == [a];
      assert [a][..0] == [];
    } else {
      LRunFront(s, a, rest[..|rest| - 1]);
      assert ([a] + rest)[..|[a] + rest| - 1] == [a] + rest[..|rest| - 1];
    }
  }

  lemma LRunLast(s: LState, before: seq<LAction>, a: LAction)
    ensures LRun(s, before + [a]) == LStep(LRun(s, before), a)
    ensures AnyStale(s, before + [a]) <==> AnyStale(s, before) || (a.Commit? && Stale(LRun(s, before), a.tx))
  {
    assert (before + [a])[..|before|] == before;
  }

  lemma {:induction false} LRunJoins(s: LState, first: seq<LAction>, rest: seq<LAction>)
    ensures LRun(s, first + rest) == LRun(LRun(s, first), rest)
    decreases |rest|
  {
    if rest == [] {
      assert first + rest == first;
    } else {
      LRunJoins(s, first, rest[..|rest| - 1]);
      assert (first + rest)[..|first + rest| - 1] == first + rest[..|rest| - 1];
    }
  }

  lemma {:induction false} StaleJoins(s: LState, first: seq<LAction>, rest: seq<LAction>)
    requires AnyStale(LRun(s, first), rest)
    ensures AnyStale(s, first + rest)
    decreases |rest|
  {
    var before, a := rest[..|rest| - 1], rest[|rest| - 1];
    assert first + rest == (first + before) + [a];
    LRunLast(s, first + before, a);
    if AnyStale(LRun(s, first), before) {
      StaleJoins(s, first, before);
    } else {
      LRunJoins(s, first, before);
    }
  }

  lemma Joined(s: LState, first: seq<LAction>, rest: seq<LAction>)
    ensures LRun(s, first + rest) == LRun(LRun(s, first), rest)
    ensures AnyStale(LRun(s, first), rest) ==> AnyStale(s, first + rest)
  {
    LRunJoins(s, first, rest);
    if AnyStale(LRun(s, first), rest) {
      StaleJoins(s, first, rest);
    }
  }

  lemma TwoSteps(s: LState, a: LAction, b: LAction)
    ensures LRun(s, [a, b]) == LStep(LStep(s, a), b)
  {
    assert [a][..0] == [] && LRun(s, [a]) == LStep(s, a);
    assert [a, b][..1] == [a];
  }

  lemma ThreeSteps(s: LState, a: LAction, b: LAction, c: LAction)
    ensures LRun(s, [a, b, c]) == LStep(LStep(LStep(s, a), b), c)
    ensures c.Commit? && Stale(LStep(LStep(s, a), b), c.tx) ==> AnyStale(s, [a, b, c])
  {
    TwoSteps(s, a, b);
    assert [a, b, c][..2] == [a, b];
  }

  // A recovery worker pays; the saga's coordinator refunds.
  const PAYER := OfWorker(0)

  predicate Owing(db: Db, sid: SagaId) {
    && sid in db.sagas
    && var g := db.sagas[sid];
       && g.state == SagaState.Debited && g.amount > 0 && g.from != g.to
       && g.from in db.wallets && db.wallets[g.from].status == Active
       && g.to in db.wallets && db.wallets[g.to].status == Active
  }

  function PayIt(db: Db, sid: SagaId): Act
    requires sid in db.sagas
  {
    RunLeg(sid, Pay, db.sagas[sid].to, db.sagas[sid].amount)
  }

  function GiveBack(db: Db, sid: SagaId): Act
    requires sid in db.sagas
  {
    RunLeg(sid, Refund, db.sagas[sid].from, db.sagas[sid].amount)
  }

  function Racing(db: Db, sid: SagaId, pay: Stage, back: Stage): LState
    requires sid in db.sagas
  {
    LState(db, map[PAYER := Tx(PayIt(db, sid), pay), OfCoord(sid) := Tx(GiveBack(db, sid), back)], [])
  }

  function WritesOf(db: Db, act: Act): Writes
    requires act.RunLeg? && Prepare(RowAt(db, act.wallet), act, db.today).Some?
  {
    Prepare(RowAt(db, act.wallet), act, db.today).value
  }

  lemma RaceBegins(db: Db, sid: SagaId)
    requires Owing(db, sid)
    ensures LRun(LState(db, map[], []), [Start(PAYER, PayIt(db, sid)), Start(OfCoord(sid), GiveBack(db, sid))])
         == Racing(db, sid, Waiting, Waiting)
  {
    TwoSteps(LState(db, map[], []), Start(PAYER, PayIt(db, sid)), Start(OfCoord(sid), GiveBack(db, sid)));
  }

  // Each racer's next step, wherever the other one is.

  lemma PayLocks(db: Db, sid: SagaId)
    requires Owing(db, sid)
    requires Prepare(RowAt(db, PayIt(db, sid).wallet), PayIt(db, sid), db.today).Some?
    ensures LStep(Racing(db, sid, Waiting, Waiting), TakeWallet(PAYER))
         == Racing(db, sid, HoldsWallet(WritesOf(db, PayIt(db, sid))), Waiting)
  {
  }

  lemma BackLocks(db: Db, sid: SagaId, x: Writes)
    requires Owing(db, sid)
    requires Prepare(RowAt(db, GiveBack(db, sid).wallet), GiveBack(db, sid), db.today).Some?
    ensures LStep(Racing(db, sid, HoldsWallet(x), Waiting), TakeWallet(OfCoord(sid)))
         == Racing(db, sid, HoldsWallet(x), HoldsWallet(WritesOf(db, GiveBack(db, sid))))
  {
  }

  lemma PayReads(db: Db, sid: SagaId, x: Writes, back: Stage)
    requires Owing(db, sid)
    ensures LStep(Racing(db, sid, HoldsWallet(x), back), ReadSaga(PAYER))
         == Racing(db, sid, SagaRead(x, db.sagas[sid]), back)
  {
  }

  lemma BackReads(db: Db, sid: SagaId, pay: Stage, y: Writes)
    requires Owing(db, sid)
    ensures LStep(Racing(db, sid, pay, HoldsWallet(y)), ReadSaga(OfCoord(sid)))
         == Racing(db, sid, pay, SagaRead(y, db.sagas[sid]))
  {
  }

  lemma FirstMoves(sid: SagaId, a: Tx, b: Tx, c: Tx)
    ensures map[PAYER := a, OfCoord(sid) := b][PAYER := c] == map[PAYER := c, OfCoord(sid) := b]
  {
  }

  lemma PayUpdates(db: Db, sid: SagaId, x: Writes, y: Writes, g: Saga)
    requires sid in db.sagas
    ensures LStep(Racing(db, sid, SagaRead(x, g), SagaRead(y, g)), TakeSaga(PAYER))
         == Racing(db, sid, HoldsBoth(x, g), SagaRead(y, g))
  {
    var s := Racing(db, sid, SagaRead(x, g), SagaRead(y, g));
    assert SagaFree(s, sid);
    FirstMoves(sid, s.txs[PAYER], s.txs[OfCoord(sid)], Tx(PayIt(db, sid), HoldsBoth(x, g)));
  }

  /** The two transactions lock different wallet rows. */
  lemma RaceLocks(db: Db, sid: SagaId)
    requires Owing(db, sid)
    ensures Prepare(RowAt(db, PayIt(db, sid).wallet), PayIt(db, sid), db.today).Some?
    ensures Prepare(RowAt(db, GiveBack(db, sid).wallet), GiveBack(db, sid), db.today).Some?
    ensures LRun(Racing(db, sid, Waiting, Waiting), [TakeWallet(PAYER), TakeWallet(OfCoord(sid))])
         == Racing(db, sid, HoldsWallet(WritesOf(db, PayIt(db, sid))), HoldsWallet(WritesOf(db, GiveBack(db, sid))))
  {
    var x, y := WritesOf(db, PayIt(db, sid)), WritesOf(db, GiveBack(db, sid));
    TwoSteps(Racing(db, sid, Waiting, Waiting), TakeWallet(PAYER), TakeWallet(OfCoord(sid)));
    PayLocks(db, sid);
    BackLocks(db, sid, x);
  }

  /** Both read the saga as DEBITED before either commits. */
  lemma RaceReads(db: Db, sid: SagaId, x: Writes, y: Writes)
    requires Owing(db, sid)
    ensures var g := db.sagas[sid];
            LRun(Racing(db, sid, HoldsWallet(x), HoldsWallet(y)), [ReadSaga(PAYER), ReadSaga(OfCoord(sid)), TakeSaga(PAYER)])
            == Racing(db, sid, HoldsBoth(x, g), SagaRead(y, g))
  {
    var g := db.sagas[sid];
    ThreeSteps(Racing(db, sid, HoldsWallet(x), HoldsWallet(y)), ReadSaga(PAYER), ReadSaga(OfCoord(sid)), TakeSaga(PAYER));
    PayReads(db, sid, x, HoldsWallet(y));
    BackReads(db, sid, SagaRead(x, g), y);
    PayUpdates(db, sid, x, y, g);
  }

  function Raced(db: Db, sid: SagaId, x: Writes, y: Writes): LState
    requires sid in db.sagas
  {
    var pay, back := PayIt(db, sid), GiveBack(db, sid);
    LState(InstallLeg(InstallLeg(db, pay, x, db.sagas[sid]), back, y, db.sagas[sid]), map[], [pay, back])
  }

  function Paid(db: Db, sid: SagaId, x: Writes, back: Stage): LState
    requires sid in db.sagas
  {
    LState(InstallLeg(db, PayIt(db, sid), x, db.sagas[sid]),
           map[OfCoord(sid) := Tx(GiveBack(db, sid), back)], [PayIt(db, sid)])
  }

  lemma PayCommits(db: Db, sid: SagaId, x: Writes, y: Writes)
    requires sid in db.sagas
    ensures LStep(Racing(db, sid, HoldsBoth(x, db.sagas[sid]), SagaRead(y, db.sagas[sid])), Commit(PAYER))
         == Paid(db, sid, x, SagaRead(y, db.sagas[sid]))
  {
  }

  lemma BackUpdates(db: Db, sid: SagaId, x: Writes, y: Writes)
    requires sid in db.sagas
    ensures LStep(Paid(db, sid, x, SagaRead(y, db.sagas[sid])), TakeSaga(OfCoord(sid)))
         == Paid(db, sid, x, HoldsBoth(y, db.sagas[sid]))
  {
    assert SagaFree(Paid(db, sid, x, SagaRead(y, db.sagas[sid])), sid);
  }

  /** ... and both commit, the second one over the first one's saga row. */
  lemma RaceCommits(db: Db, sid: SagaId, x: Writes, y: Writes)
    requires Owing(db, sid)
    ensures var s := Racing(db, sid, HoldsBoth(x, db.sagas[sid]), SagaRead(y, db.sagas[sid]));
            && LRun(s, [Commit(PAYER), TakeSaga(OfCoord(sid)), Commit(OfCoord(sid))]) == Raced(db, sid, x, y)
            && AnyStale(s, [Commit(PAYER), TakeSaga(OfCoord(sid)), Commit(OfCoord(sid))])
  {
    ThreeSteps(Racing(db, sid, HoldsBoth(x, db.sagas[sid]), SagaRead(y, db.sagas[sid])),
               Commit(PAYER), TakeSaga(OfCoord(sid)), Commit(OfCoord(sid)));
    PayCommits(db, sid, x, y);
    BackUpdates(db, sid, x, y);
  }

  /** Both lock, both read, one commits, then the other. */
  function RaceSteps(sid: SagaId): seq<LAction> {
    [TakeWallet(PAYER), TakeWallet(OfCoord(sid))]
    + ([ReadSaga(PAYER), ReadSaga(OfCoord(sid)), TakeSaga(PAYER)]
       + [Commit(PAYER), TakeSaga(OfCoord(sid)), Commit(OfCoord(sid))])
  }

  /** A recovery pays the receiver while the coordinator refunds the sender. */
  function Race(db: Db, sid: SagaId): seq<LAction>
    requires sid in db.sagas
  {
    [Start(PAYER, PayIt(db, sid)), Start(OfCoord(sid), GiveBack(db, sid))] + RaceSteps(sid)
  }

  lemma RaceGoes(db: Db, sid: SagaId)
    requires Owing(db, sid)
    ensures Prepare(RowAt(db, PayIt(db, sid).wallet), PayIt(db, sid), db.today).Some?
    ensures Prepare(RowAt(db, GiveBack(db, sid).wallet), GiveBack(db, sid), db.today).Some?
    ensures LRun(Racing(db, sid, Waiting, Waiting), RaceSteps(sid))
         == Raced(db, sid, WritesOf(db, PayIt(db, sid)), WritesOf(db, GiveBack(db, sid)))
    ensures AnyStale(Racing(db, sid, Waiting, Waiting), RaceSteps(sid))
  {
    RaceLocks(db, sid);
    var x, y := WritesOf(db, PayIt(db, sid)), WritesOf(db, GiveBack(db, sid));
    RaceReads(db, sid, x, y);
    RaceCommits(db, sid, x, y);
    var commits := [Commit(PAYER), TakeSaga(OfCoord(sid)), Commit(OfCoord(sid))];
    var readings := [ReadSaga(PAYER), ReadSaga(OfCoord(sid)), TakeSaga(PAYER)];
    var locks := [TakeWallet(PAYER), TakeWallet(OfCoord(sid))];
    Joined(Racing(db, sid, HoldsWallet(x), HoldsWallet(y)), readings, commits);
    Joined(Racing(db, sid, Waiting, Waiting), locks, readings + commits);
  }

  lemma RaceEnds(db: Db, sid: SagaId)
    requires Owing(db, sid)
    ensures Prepare(RowAt(db, PayIt(db, sid).wallet), PayIt(db, sid), db.today).Some?
    ensures Prepare(RowAt(db, GiveBack(db, sid).wallet), GiveBack(db, sid), db.today).Some?
    ensures LRun(LState(db, map[], []), Race(db, sid))
         == Raced(db, sid, WritesOf(db, PayIt(db, sid)), WritesOf(db, GiveBack(db, sid)))
    ensures AnyStale(LState(db, map[], []), Race(db, sid))
  {
    RaceBegins(db, sid);
    RaceGoes(db, sid);
    Joined(LState(db, map[], []), [Start(PAYER, PayIt(db, sid)), Start(OfCoord(sid), GiveBack(db, sid))], RaceSteps(sid));
  }

  /** Every saga that is owed, with both wallets active, can be paid and refunded: both
      transactions commit, the second one stale, and the amount exists twice. */
  lemma PaidAndRefunded(db: Db, sid: SagaId)
    requires Owing(db, sid)
    ensures var g := db.sagas[sid];
            var t := LRun(LState(db, map[], []), Race(db, sid));
            && t.log == [PayIt(db, sid), GiveBack(db, sid)]
            && g.to in t.db.wallets && t.db.wallets[g.to].balance == db.wallets[g.to].balance + g.amount
            && g.from in t.db.wallets && t.db.wallets[g.from].balance == db.wallets[g.from].balance + g.amount
            && AnyStale(LState(db, map[], []), Race(db, sid))
  {
    RaceEnds(db, sid);
  }

  // ---- no wait cycle ----

  /** `t` cannot move before `u` lets go of a row. */
  predicate WaitsFor(s: LState, t: TxId, u: TxId) {
    && t in s.txs && u in s.txs && t != u
    && var act := s.txs[t].act;
       (s.txs[t].stage.Waiting? && (act.OnWallet? || act.RunLeg?) && Locks(s.txs[u], act.wallet))
       || (s.txs[t].stage.SagaRead? && act.RunLeg? && LocksSaga(s.txs[u], act.saga))
  }

  predicate Blocked(s: LState, t: TxId) {
    exists u <- s.txs :: WaitsFor(s, t, u)
  }

  /** Waiting chains end after two steps: whoever waits for a wallet row waits for one that at
      most waits for a saga row, and whoever holds a saga row waits for nobody. */
  lemma WaitingChainsEnd(s: LState, t: TxId, u: TxId, v: TxId)
    requires WaitsFor(s, t, u) && WaitsFor(s, u, v)
    ensures !Blocked(s, v)
  {
  }

  /** The next step of a transaction towards its end. */
  function NextMove(tx: Tx, t: TxId): LAction {
    match tx.stage
    case Waiting => TakeWallet(t)
    case HoldsWallet(_) => if tx.act.OnWallet? then Commit(t) else ReadSaga(t)
    case SagaRead(_, _) => TakeSaga(t)
    case HoldsBoth(_, _) => Commit(t)
  }

  function Left(tx: Tx): nat {
    match tx.stage
    case Waiting => 4
    case HoldsWallet(_) => 3
    case SagaRead(_, _) => 2
    case HoldsBoth(_, _) => 1
  }

  lemma UnblockedFinds(s: LState, t: TxId)
    requires t in s.txs && !Blocked(s, t) && (s.txs[t].act.OnWallet? || s.txs[t].act.RunLeg?)
    ensures s.txs[t].stage.Waiting? ==> WalletFree(s, s.txs[t].act.wallet)
    ensures s.txs[t].stage.SagaRead? && s.txs[t].act.RunLeg? ==> SagaFree(s, s.txs[t].act.saga)
  {
    forall u | u in s.txs
      ensures !WaitsFor(s, t, u)
    {
    }
  }

  /** A transaction that waits for nobody comes one step closer to its end, and disturbs no other. */
  lemma UnblockedMoves(s: LState, t: TxId)
    requires LInv(s) && t in s.txs && !Blocked(s, t)
    ensures var s' := LStep(s, NextMove(s.txs[t], t));
            && s'.txs - {t} == s.txs - {t}
            && (t in s'.txs ==> s'.txs[t].act == s.txs[t].act && Left(s'.txs[t]) < Left(s.txs[t]))
  {
    assert TxOk(s.db, s.txs[t]);
    UnblockedFinds(s, t);
  }

  /** With open transactions, opposite transfers between the same two wallets included, some
      transaction waits for nobody. */
  lemma NeverAllWaiting(s: LState) returns (t: TxId)
    requires s.txs != map[]
    ensures t in s.txs && !Blocked(s, t)
  {
    t :| t in s.txs;
    if Blocked(s, t) {
      var u :| u in s.txs && WaitsFor(s, t, u);
      if Blocked(s, u) {
        var v :| v in s.txs && WaitsFor(s, u, v);
        WaitingChainsEnd(s, t, u, v);
        t := v;
      } else {
        t := u;
      }
    }
  }

  function Work(txs: map<TxId, Tx>): map<TxId, int> {
    map t <- txs :: Left(txs[t])
  }

  lemma WorkShrinks(txs: map<TxId, Tx>, txs': map<TxId, Tx>, t: TxId)
    requires t in txs && txs' - {t} == txs - {t}
    requires t in txs' ==> Left(txs'[t]) < Left(txs[t])
    ensures 0 <= MapSum(Work(txs')) < MapSum(Work(txs))
  {
    MapSumNonNegative(Work(txs'));
    MapSumRemove(Work(txs), t);
    assert Work(txs) - {t} == Work(txs - {t});
    assert Work(txs') - {t} == Work(txs' - {t});
    if t in txs' {
      MapSumRemove(Work(txs'), t);
    } else {
      assert txs' - {t} == txs';
    }
  }

  /** No deadlock: from every state that the interleavings can reach, all open transactions can be
      brought to their ends by steps of their own, without a single abort from outside. */
  lemma {:induction false} AllCanFinish(s: LState) returns (moves: seq<LAction>)
    requires LInv(s)
    ensures LRun(s, moves).txs == map[]
    ensures forall a <- moves :: a.TakeWallet? || a.ReadSaga? || a.TakeSaga? || a.Commit?
    decreases MapSum(Work(s.txs))
  {
    if s.txs == map[] {
      moves := [];
    } else {
      var t := NeverAllWaiting(s);
      var move := NextMove(s.txs[t], t);
      UnblockedMoves(s, t);
      LStepKeeps(s, move);
      WorkShrinks(s.txs, LStep(s, move).txs, t);
      var rest := AllCanFinish(LStep(s, move));
      LRunFront(s, move, rest);
      moves := [move] + rest;
    }
  }
}
