/** Direct requests on one wallet: stored answers, the request lock, and the transaction. */
module WalletService {
  import opened Basics
  import opened Wallets
  import opened Store
  import opened Ledger
  import opened Transactions

  datatype ServiceError =
    | Refused(error: TxError)
    | InProgress
    | Unavailable

  /** Which awaits fail: the key lookup; setting the request's lock; opening a connection and starting a
      transaction; the transaction itself, at the latest its commit; releasing the connection;
      deleting the lock; the cache afterwards. */
  datatype DirectEnv = DirectEnv(
    lookupFails: bool, lockFails: bool, startFails: bool, txFails: bool,
    releaseFails: bool, unlockFails: bool, cacheFails: bool)
  {
    /** The lock that was set is not deleted again. */
    predicate LeavesLock() {
      startFails || releaseFails || unlockFails
    }
  }

  /** The transaction: refused, or rolled back, or committed. */
  function TxDone(db: Db, w: WalletId, op: WalletOp, request: Option<RequestId>, fails: bool)
    : (Db, Result<Reply, ServiceError>)
  {
    match WalletTx(db, w, op, request)
    case Failure(e) => (db, Failure(Refused(e)))
    case Success((db', reply)) => if fails then (db, Failure(Unavailable)) else (db', Success(reply))
  }

  /** A refusal is answered as it is, a success only if it was committed; anything else leaves no trace. */
  lemma TxDoneExactly(db: Db, w: WalletId, op: WalletOp, request: Option<RequestId>, fails: bool)
    ensures var (after, answer) := TxDone(db, w, op, request, fails);
            var tx := WalletTx(db, w, op, request);
            && (forall e :: answer == Failure(Refused(e)) <==> tx == Failure(e))
            && (forall reply :: answer == Success(reply) <==> tx.Success? && !fails && tx.value.1 == reply)
            && (answer.Success? ==> after == tx.value.0 == Apply(db, OnWallet(w, op, request)))
            && (answer.Failure? ==> after == db)
            && answer != Failure(InProgress)
  {
  }

  /** The part between setting the lock and the cache. An error in giving connection or lock back is
      thrown although the transaction has been committed. */
  function Worked(db: Db, w: WalletId, op: WalletOp, request: Option<RequestId>, env: DirectEnv)
    : (Db, Result<Reply, ServiceError>)
  {
    if env.startFails then (db, Failure(Unavailable))
    else
      var (after, r) := TxDone(db, w, op, request, env.txFails);
      (after, if env.releaseFails || (request.Some? && env.unlockFails) then Failure(Unavailable) else r)
  }

  /** What a direct request does and answers, given the requests in progress. */
  function Served(db: Db, locks: set<RequestId>, w: WalletId, op: WalletOp, request: Option<RequestId>, env: DirectEnv)
    : (Db, Result<Reply, ServiceError>)
  {
    if request.Some? && env.lookupFails then (db, Failure(Unavailable))
    else if request.Some? && request.value in db.keys then
      (db, if env.cacheFails then Failure(Unavailable) else Success(db.keys[request.value]))
    else if request.Some? && env.lockFails then (db, Failure(Unavailable))
    else if request.Some? && request.value in locks then (db, Failure(InProgress))
    else
      var (after, r) := Worked(db, w, op, request, env);
      (after, if r.Success? && env.cacheFails then Failure(Unavailable) else r)
  }

  /** The locks set afterwards. One that this request set stays, until it expires, exactly when one of
      the awaits around the transaction throws. */
  function LocksAfter(db: Db, locks: set<RequestId>, request: Option<RequestId>, env: DirectEnv): set<RequestId> {
    if request.None? || env.lookupFails || request.value in db.keys || env.lockFails || request.value in locks then locks
    else if env.LeavesLock() then locks + {request.value}
    else locks
  }

  /** What is refused without a transaction, and with which answer: nothing is changed then, and a request in
      progress under the same id is one such reason. */
  lemma NotServed(db: Db, locks: set<RequestId>, w: WalletId, op: WalletOp, id: RequestId, env: DirectEnv)
    ensures var served := Served(db, locks, w, op, Some(id), env);
            && (env.lookupFails ==> served == (db, Failure(Unavailable)))
            && (!env.lookupFails && id in db.keys ==>
                  served == (db, if env.cacheFails then Failure(Unavailable) else Success(db.keys[id])))
            && (!env.lookupFails && id !in db.keys && env.lockFails ==> served == (db, Failure(Unavailable)))
            && (!env.lookupFails && id !in db.keys && !env.lockFails && id in locks ==> served == (db, Failure(InProgress)))
            && (served.1 == Failure(InProgress) <==> !env.lookupFails && id !in db.keys && !env.lockFails && id in locks)
  {
  }

  /** Everything else runs the transaction: its effect is there exactly if neither its start nor itself
      fails, the answer exactly if nothing at all fails, and a refusal is answered as such unless
      giving back connection or lock throws. */
  lemma ServedExactly(db: Db, locks: set<RequestId>, w: WalletId, op: WalletOp, request: Option<RequestId>, env: DirectEnv)
    requires request.Some? ==> !env.lookupFails && request.value !in db.keys && !env.lockFails && request.value !in locks
    ensures var (after, answer) := Served(db, locks, w, op, request, env);
            var tx := WalletTx(db, w, op, request);
            var back := !env.releaseFails && (request.Some? ==> !env.unlockFails);
            && (tx.Success? && !env.startFails && !env.txFails ==> after == tx.value.0)
            && (tx.Failure? || env.startFails || env.txFails ==> after == db)
            && (forall reply :: answer == Success(reply) <==>
                  && tx.Success? && tx.value.1 == reply
                  && !env.startFails && !env.txFails && back && !env.cacheFails)
            && (forall e :: answer == Failure(Refused(e)) <==> tx == Failure(e) && !env.startFails && back)
            && answer != Failure(InProgress)
  {
  }

  /** A request never takes away a lock it did not set, and sets none but its own; one that it set stays
      exactly when the start of the transaction, the release of its connection, or the deletion throws. */
  lemma LocksExactly(db: Db, locks: set<RequestId>, request: Option<RequestId>, env: DirectEnv)
    ensures var after := LocksAfter(db, locks, request, env);
            && locks <= after
            && (forall id :: id in after && id !in locks <==>
                  && request == Some(id) && id !in locks && !env.lookupFails && id !in db.keys && !env.lockFails
                  && (env.startFails || env.releaseFails || env.unlockFails))
  {
  }

  class Redis {
    var locks: set<RequestId>

    constructor ()
      ensures locks == {}
    {
      locks := {};
    }

    method SetIfAbsent(key: RequestId) returns (acquired: bool)
      modifies this
      ensures acquired <==> key !in old(locks)
      ensures locks == old(locks) + {key}
    {
      acquired := key !in locks;
      locks := locks + {key};
    }

    method Delete(key: RequestId)
      modifies this
      ensures locks == old(locks) - {key}
    {
      locks := locks - {key};
    }
  }

  class WalletService {
    const database: Database
    const redis: Redis

    constructor (database: Database, redis: Redis)
      ensures this.database == database && this.redis == redis
    {
      this.database, this.redis := database, redis;
    }

    /** The transaction body: the wallet, its event, its outbox row and the answer's key are
        written together or not at all. */
    method WalletTransaction(w: WalletId, op: WalletOp, request: Option<RequestId>, fails: bool)
      returns (r: Result<Reply, ServiceError>)
      requires WalletsOk(database.db.wallets, database.db.events, database.db.today)
      modifies database
      ensures (database.db, r) == TxDone(old(database.db), w, op, request, fails)
    {
      var ctx := new TransactionContext(database);
      var wallet := Load(ctx, w, op);
      if wallet == null { return Failure(Refused(WalletNotFound(w))); }
      var refused := wallet.Perform(op, ctx.work.today);
      if refused.Some? { return Failure(Refused(WalletFault(refused.value))); }
      var reply := BalanceReply(wallet.balance, w);
      Write(ctx, w, wallet, op, request, reply);
      if fails { return Failure(Unavailable); }
      ctx.Commit(database);
      r := Success(reply);
    }

    /** A deposit creates the wallet it needs; everything else wants it there. */
    method Load(ctx: TransactionContext, w: WalletId, op: WalletOp) returns (wallet: Wallet?)
      requires WalletsOk(ctx.work.wallets, ctx.work.events, ctx.work.today)
      modifies ctx`work
      ensures ctx.work == if op.Deposit? then Ensure(old(ctx.work), w, USD) else old(ctx.work)
      ensures wallet == null <==> w !in ctx.work.wallets
      ensures wallet != null ==> fresh(wallet) && wallet.Row() == ctx.work.wallets[w]
    {
      if op.Deposit? {
        if w !in ctx.work.wallets {
          NoOrphans(ctx.work.events, w);
        }
        wallet := ctx.GetOrCreate(w, USD);
      } else {
        wallet := ctx.FindWallet(w);
      }
    }

    /** The row, its event, its outbox row, and the answer's key. */
    method Write(ctx: TransactionContext, w: WalletId, wallet: Wallet, op: WalletOp,
                 request: Option<RequestId>, reply: Reply)
      requires ctx.eventsToPublish == []
      modifies ctx
      ensures var e := NewEvent(w, OpKind(op), wallet.currency, OpAmount(op), None, old(ctx.work).today);
              && ctx.work == Answer(Record(old(ctx.work), wallet.Row(), e), request, reply).(outbox := old(ctx.work).outbox)
              && ctx.eventsToPublish == [Mirror(e)]
    {
      ctx.SaveWallet(w, wallet);
      var e := NewEvent(w, OpKind(op), wallet.currency, OpAmount(op), None, ctx.work.today);
      ctx.SaveEvent(e);
      ctx.PublishEvent(Mirror(e));
      if request.Some? {
        ctx.SaveKey(request.value, reply);
      }
    }

    /** A deposit or a withdrawal. The stored answer is looked up before the request's lock is taken. */
    method ExecuteIdempotent(w: WalletId, op: WalletOp, request: Option<RequestId>, env: DirectEnv)
      returns (r: Result<Reply, ServiceError>)
      requires op.Deposit? || op.Withdraw?
      requires DbInv(database.db)
      modifies database, redis
      ensures DbInv(database.db)
      ensures redis.locks == LocksAfter(old(database.db), old(redis.locks), request, env)
      ensures (database.db, r) == Served(old(database.db), old(redis.locks), w, op, request, env)
    {
      if request.Some? {
        if env.lookupFails { return Failure(Unavailable); }
        if request.value in database.db.keys {
          return if env.cacheFails then Failure(Unavailable) else Success(database.db.keys[request.value]);
        }
        if env.lockFails { return Failure(Unavailable); }
        var acquired := redis.SetIfAbsent(request.value);
        if !acquired { return Failure(InProgress); }
      }
      r := WorkUnderLock(w, op, request, env);
      if r.Success? && env.cacheFails { r := Failure(Unavailable); }
    }

    /** Connection, transaction, release of both. */
    method WorkUnderLock(w: WalletId, op: WalletOp, request: Option<RequestId>, env: DirectEnv)
      returns (r: Result<Reply, ServiceError>)
      requires DbInv(database.db) && !op.Credit?
      modifies database, redis
      ensures DbInv(database.db)
      ensures (database.db, r) == Worked(old(database.db), w, op, request, env)
      ensures redis.locks == if request.None? || env.LeavesLock() then old(redis.locks) else old(redis.locks) - {request.value}
    {
      WalletTxKeeps(database.db, w, op, request);
      if env.startFails { return Failure(Unavailable); }
      r := WalletTransaction(w, op, request, env.txFails);
      if env.releaseFails { return Failure(Unavailable); }
      if request.Some? {
        if env.unlockFails { return Failure(Unavailable); }
        redis.Delete(request.value);
      }
    }

    /** Freezing, unfreezing, closing, or changing the daily limit. */
    method ExecuteStateChange(w: WalletId, op: WalletOp, fails: bool) returns (r: Result<Reply, ServiceError>)
      requires !op.Deposit? && !op.Withdraw? && !op.Credit?
      requires DbInv(database.db)
      modifies database
      ensures DbInv(database.db)
      ensures (database.db, r) == TxDone(old(database.db), w, op, None, fails)
    {
      WalletTxKeeps(database.db, w, op, None);
      r := WalletTransaction(w, op, None, fails);
    }
  }
}
