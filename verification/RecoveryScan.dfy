/** The scanner for stuck sagas: one pass, and how many passes it takes. */
module RecoveryScan {
  import opened Basics
  import opened Wallets
  import opened Store
  import opened Ledger
  import opened SagaSystem
  import opened Transactions
  import opened Retry
  import opened TransferOutcome
  import opened TransferService
  import opened Batches

  const BATCH: nat := 10

  function Stuck(db: Db, stale: set<SagaId>): set<SagaId> {
    set sid | sid in stale && sid in db.sagas && db.sagas[sid].state == SagaState.Debited
  }

  predicate CanSettle(db: Db, sid: SagaId)
    requires sid in db.sagas
  {
    IsActive(db, db.sagas[sid].to) || IsActive(db, db.sagas[sid].from)
  }

  function Rescuable(db: Db, stale: set<SagaId>): set<SagaId> {
    set sid | sid in Stuck(db, stale) && CanSettle(db, sid)
  }

  function Blocked(db: Db, stale: set<SagaId>): set<SagaId> {
    Stuck(db, stale) - Rescuable(db, stale)
  }

  /** Every saga in flight has a positive amount, as the ledger invariant says. */
  predicate Sound(db: Db) {
    forall sid <- db.sagas :: db.sagas[sid].state == SagaState.Debited ==> db.sagas[sid].amount > 0
  }

  lemma RunsAreSound(s: State, actions: seq<Action>)
    requires Inv(s)
    ensures Sound(Run(s, actions).db)
  {
    RunKeeps(s, actions);
    var db := Run(s, actions).db;
    forall sid <- db.sagas
      ensures db.sagas[sid].state == SagaState.Debited ==> db.sagas[sid].amount > 0
    {
      assert SagaShape(db.wallets, db.sagas[sid]);
    }
  }

  /** What the query may return: no order is asked for, so any ten. */
  predicate IsBatch(db: Db, stale: set<SagaId>, batch: seq<SagaId>) {
    && Distinct(batch)
    && Elements(batch) <= Stuck(db, stale)
    && |batch| == AtMost(BATCH, |Stuck(db, stale)|)
  }

  /** What a scan of these sagas leaves, whatever fails in each. */
  function RecoverEach(db: Db, sids: seq<SagaId>, env: SagaId -> RecoveryEnv, tries: nat): Db {
    if sids == [] then db
    else
      var sid := sids[|sids| - 1];
      RecoverRun(RecoverEach(db, sids[..|sids| - 1], env, tries), sid, env(sid), tries).0
  }

  lemma {:induction false} WorkingScan(db: Db, sids: seq<SagaId>, env: SagaId -> RecoveryEnv, tries: nat)
    requires tries > 0 && forall sid :: env(sid).DatabaseWorks()
    ensures RecoverEach(db, sids, env, tries) == RecoverAll(db, sids)
  {
    if sids != [] {
      var front, sid := sids[..|sids| - 1], sids[|sids| - 1];
      WorkingScan(db, front, env, tries);
      RecoveryIgnoresTheRest(RecoverAll(db, front), sid, env(sid), tries);
    }
  }

  ghost predicate IsScan(db: Db, db': Db, stale: set<SagaId>, env: SagaId -> RecoveryEnv, tries: nat) {
    exists batch :: IsBatch(db, stale, batch) && db' == RecoverEach(db, batch, env, tries)
  }

  function RecoverAll(db: Db, sids: seq<SagaId>): Db {
    if sids == [] then db
    else Recovered(RecoverAll(db, sids[..|sids| - 1]), sids[|sids| - 1])
  }

  // ---- one saga, one pass ----

  /** Same wallets, same statuses, same sagas, as far as recovery can tell. */
  ghost predicate SameOutlook(db: Db, db': Db) {
    && db'.sagas.Keys == db.sagas.Keys
    && (forall sid <- db.sagas :: db'.sagas[sid].(state := db.sagas[sid].state) == db.sagas[sid])
    && (forall w: WalletId :: IsActive(db', w) <==> IsActive(db, w))
  }

  /** A saga whose receiver can be paid is completed, one whose sender alone can be refunded is compensated;
      one with both wallets inactive stays as it is, money and all; and no other saga is touched. */
  lemma RecoveredSettles(db: Db, sid: SagaId)
    requires Sound(db) && sid in db.sagas && db.sagas[sid].state == SagaState.Debited
    ensures var db' := Recovered(db, sid);
            && SameOutlook(db, db') && Sound(db')
            && (forall x <- db.sagas :: x != sid ==> db'.sagas[x] == db.sagas[x])
            && if CanSettle(db, sid) then
                 db'.sagas[sid].state == (if IsActive(db, db.sagas[sid].to) then Completed else Compensated)
               else db' == db
  {
    var g := db.sagas[sid];
    assert LegTx(db, sid, Pay, g.to, g.amount).Success? <==> IsActive(db, g.to);
    assert LegTx(db, sid, Refund, g.from, g.amount).Success? <==> IsActive(db, g.from);
  }

  /** A pass settles exactly the sagas of its batch that can be settled. */
  lemma {:induction false} PassSettles(db: Db, stale: set<SagaId>, sids: seq<SagaId>)
    requires Sound(db) && Distinct(sids) && Elements(sids) <= Stuck(db, stale)
    ensures var db' := RecoverAll(db, sids);
            && SameOutlook(db, db') && Sound(db')
            && Stuck(db', stale) == Stuck(db, stale) - (Elements(sids) * Rescuable(db, stale))
            && (Elements(sids) * Rescuable(db, stale) == {} ==> db' == db)
    decreases |sids|
  {
    if sids != [] {
      var front, sid := sids[..|sids| - 1], sids[|sids| - 1];
      assert Elements(sids) == Elements(front) + {sid};
      PassSettles(db, stale, front);
      var mid := RecoverAll(db, front);
      assert sid in Stuck(db, stale) && sid !in Elements(front);
      assert sid in Stuck(mid, stale);
      RecoveredSettles(mid, sid);
      assert CanSettle(mid, sid) <==> CanSettle(db, sid);
      LastSettled(db, mid, stale, front, sid);
      if Elements(sids) * Rescuable(db, stale) == {} {
        assert sid in Elements(sids) && sid !in Elements(sids) * Rescuable(db, stale);
        assert Elements(front) * Rescuable(db, stale) == {};
      }
    }
  }

  lemma LastSettled(db: Db, mid: Db, stale: set<SagaId>, front: seq<SagaId>, sid: SagaId)
    requires Sound(mid) && sid in Stuck(db, stale) && sid in Stuck(mid, stale)
    requires SameOutlook(db, mid)
    requires Stuck(mid, stale) == Stuck(db, stale) - (Elements(front) * Rescuable(db, stale))
    ensures Stuck(Recovered(mid, sid), stale)
         == Stuck(db, stale) - ((Elements(front) + {sid}) * Rescuable(db, stale))
  {
    RecoveredSettles(mid, sid);
    var after := Recovered(mid, sid);
    assert sid in Rescuable(db, stale) <==> CanSettle(mid, sid);
    forall x: SagaId
      ensures x in Stuck(after, stale) <==> x in Stuck(mid, stale) && (x == sid ==> !CanSettle(mid, sid))
    {
      assert x in mid.sagas && x != sid ==> after.sagas[x] == mid.sagas[x];
    }
  }

  /** Whatever fails in each saga's recovery, each saga of the batch ends as its own wallets and its own
      errors decide: an error in one does not keep the others from being tried, nor help them. */
  lemma {:induction false} EachDecides(db: Db, sids: seq<SagaId>, env: SagaId -> RecoveryEnv, tries: nat)
    requires Sound(db) && Distinct(sids)
    requires forall sid <- sids :: sid in db.sagas && db.sagas[sid].state == SagaState.Debited
    ensures var after := RecoverEach(db, sids, env, tries);
            && SameOutlook(db, after) && Sound(after)
            && (forall sid <- db.sagas :: after.sagas[sid].state
                  == if sid in sids then RecoveredState(db, db.sagas[sid], env(sid), tries) else db.sagas[sid].state)
    decreases |sids|
  {
    if sids != [] {
      var front, sid := sids[..|sids| - 1], sids[|sids| - 1];
      assert sids == front + [sid];
      NotAmong(front, sid);
      EachDecides(db, front, env, tries);
      NextDecides(db, RecoverEach(db, front, env, tries), sid, env(sid), tries);
      assert forall x :: x in sids <==> x in front || x == sid;
    }
  }

  lemma NextDecides(db: Db, mid: Db, sid: SagaId, env: RecoveryEnv, tries: nat)
    requires Sound(db) && Sound(mid) && SameOutlook(db, mid)
    requires sid in db.sagas && db.sagas[sid].state == mid.sagas[sid].state == SagaState.Debited
    ensures var after := RecoverRun(mid, sid, env, tries).0;
            && SameOutlook(db, after) && Sound(after)
            && after.sagas[sid].state == RecoveredState(db, db.sagas[sid], env, tries)
            && (forall x <- db.sagas :: x != sid ==> after.sagas[x] == mid.sagas[x])
  {
    RecoverExactly(mid, sid, env, tries);
    assert mid.sagas[sid] == db.sagas[sid];
  }

  /** A scan takes up at most ten sagas, all of them DEBITED and stale, and leaves every other saga alone; if
      there are no more than ten of them, each ends as its wallets and its own errors decide. */
  lemma ScanExactly(db: Db, db': Db, stale: set<SagaId>, env: SagaId -> RecoveryEnv, tries: nat)
    requires Sound(db) && IsScan(db, db', stale, env, tries)
    ensures SameOutlook(db, db') && Sound(db')
    ensures forall sid <- db.sagas | sid !in stale || db.sagas[sid].state != SagaState.Debited ::
              db'.sagas[sid] == db.sagas[sid]
    ensures |set sid | sid in db.sagas && db'.sagas[sid] != db.sagas[sid]| <= 10
    ensures var stuck := set sid | sid in stale && sid in db.sagas && db.sagas[sid].state == SagaState.Debited;
            |stuck| <= 10 ==>
              forall sid <- stuck :: db'.sagas[sid].state == RecoveredState(db, db.sagas[sid], env(sid), tries)
  {
    var batch :| IsBatch(db, stale, batch) && db' == RecoverEach(db, batch, env, tries);
    assert forall sid <- batch :: sid in Elements(batch);
    EachDecides(db, batch, env, tries);
    forall sid <- db.sagas | sid !in batch
      ensures db'.sagas[sid] == db.sagas[sid]
    {
      assert db'.sagas[sid].(state := db.sagas[sid].state) == db.sagas[sid];
    }
    var changed := set sid | sid in db.sagas && db'.sagas[sid] != db.sagas[sid];
    DistinctSize(batch);
    SubsetSize(changed, Elements(batch));
    SubsetSize(Elements(batch), Stuck(db, stale));
  }

  // ---- many passes ----

  ghost predicate IsPass(db: Db, db': Db, stale: set<SagaId>) {
    exists batch :: IsBatch(db, stale, batch) && db' == RecoverAll(db, batch)
  }

  ghost predicate ArePasses(dbs: seq<Db>, stale: set<SagaId>) {
    dbs != [] && forall i | 0 < i < |dbs| :: IsPass(dbs[i - 1], dbs[i], stale)
  }

  lemma SameOutlookSplits(db: Db, db': Db, stale: set<SagaId>, gone: set<SagaId>)
    requires SameOutlook(db, db')
    requires Stuck(db', stale) == Stuck(db, stale) - (gone * Rescuable(db, stale))
    ensures Rescuable(db', stale) == Rescuable(db, stale) - gone
    ensures Blocked(db', stale) == Blocked(db, stale)
  {
    forall sid <- Stuck(db', stale)
      ensures CanSettle(db', sid) <==> CanSettle(db, sid)
    {
      assert sid in Stuck(db, stale) && db'.sagas[sid].(state := db.sagas[sid].state) == db.sagas[sid];
    }
  }

  lemma PassProgress(db: Db, db': Db, stale: set<SagaId>)
    requires Sound(db) && IsPass(db, db', stale)
    ensures Sound(db') && Blocked(db', stale) == Blocked(db, stale)
    ensures |Blocked(db, stale)| <= BATCH ==>
              |Rescuable(db', stale)| <= Minus(|Rescuable(db, stale)|, BATCH - |Blocked(db, stale)|)
  {
    var batch :| IsBatch(db, stale, batch) && db' == RecoverAll(db, batch);
    PassSettles(db, stale, batch);
    DistinctSize(batch);
    SameOutlookSplits(db, db', stale, Elements(batch));
    if |Blocked(db, stale)| <= BATCH {
      BatchTakesHopeful(Stuck(db, stale), Rescuable(db, stale), Elements(batch), BATCH);
    }
  }

  /** With k sagas that nobody can settle, every pass settles at least 10 - k of the others, so
      m of them are settled within m / (10 - k) passes, rounded up. With k = 0 that is the
      batch size. The k stay as they are. */
  lemma PassesSettle(dbs: seq<Db>, stale: set<SagaId>)
    requires ArePasses(dbs, stale) && Sound(dbs[0])
    requires |Blocked(dbs[0], stale)| <= BATCH
    ensures var last := dbs[|dbs| - 1];
            && Blocked(last, stale) == Blocked(dbs[0], stale)
            && |Rescuable(last, stale)|
               <= Remaining(|Rescuable(dbs[0], stale)|, BATCH - |Blocked(dbs[0], stale)|, |dbs| - 1)
  {
    PassesCountDown(dbs, stale);
    CountDownIs(|Rescuable(dbs[0], stale)|, BATCH - |Blocked(dbs[0], stale)|, |dbs| - 1);
  }

  lemma {:induction false} PassesCountDown(dbs: seq<Db>, stale: set<SagaId>)
    requires ArePasses(dbs, stale) && Sound(dbs[0])
    requires |Blocked(dbs[0], stale)| <= BATCH
    ensures var last := dbs[|dbs| - 1];
            && Sound(last)
            && Blocked(last, stale) == Blocked(dbs[0], stale)
            && |Rescuable(last, stale)|
               <= CountDown(|Rescuable(dbs[0], stale)|, BATCH - |Blocked(dbs[0], stale)|, |dbs| - 1)
    decreases |dbs|
  {
    if |dbs| > 1 {
      PassesCountDown(dbs[..|dbs| - 1], stale);
      assert IsPass(dbs[|dbs| - 2], dbs[|dbs| - 1], stale);
      PassProgress(dbs[|dbs| - 2], dbs[|dbs| - 1], stale);
    }
  }

  /** Ten or more blocked sagas can fill every batch. */
  lemma FullOfBlocked(db: Db, stale: set<SagaId>)
    requires Sound(db) && |Blocked(db, stale)| >= BATCH
    ensures IsPass(db, db, stale)
  {
    var batch := Pick(Blocked(db, stale), BATCH);
    SubsetSize(Blocked(db, stale), Stuck(db, stale));
    PassSettles(db, stale, batch);
    assert Elements(batch) * Rescuable(db, stale) == {};
    assert IsBatch(db, stale, batch);
  }

  /** Whatever batches the query returns, m rescuable sagas are settled after m passes exactly
      when there are none of them or fewer than ten blocked ones. */
  lemma SettlesExactly(db: Db, stale: set<SagaId>)
    requires Sound(db)
    ensures AlwaysSettles(db, stale) <==> Rescuable(db, stale) == {} || |Blocked(db, stale)| < BATCH
  {
    if |Blocked(db, stale)| < BATCH {
      forall dbs | ArePasses(dbs, stale) && dbs[0] == db && |dbs| == |Rescuable(db, stale)| + 1
        ensures Rescuable(dbs[|dbs| - 1], stale) == {}
      {
        EnoughPasses(dbs, stale);
      }
    } else {
      NeverMoving(db, stale);
    }
  }

  ghost predicate AlwaysSettles(db: Db, stale: set<SagaId>) {
    forall dbs | ArePasses(dbs, stale) && dbs[0] == db && |dbs| == |Rescuable(db, stale)| + 1 ::
      Rescuable(dbs[|dbs| - 1], stale) == {}
  }

  lemma EnoughPasses(dbs: seq<Db>, stale: set<SagaId>)
    requires ArePasses(dbs, stale) && Sound(dbs[0])
    requires |Blocked(dbs[0], stale)| < BATCH && |dbs| == |Rescuable(dbs[0], stale)| + 1
    ensures Rescuable(dbs[|dbs| - 1], stale) == {}
  {
    PassesSettle(dbs, stale);
    NoneRemain(|Rescuable(dbs[0], stale)|, BATCH - |Blocked(dbs[0], stale)|);
  }

  lemma NeverMoving(db: Db, stale: set<SagaId>)
    requires Sound(db) && |Blocked(db, stale)| >= BATCH
    ensures AlwaysSettles(db, stale) <==> Rescuable(db, stale) == {}
  {
    FullOfBlocked(db, stale);
    var dbs := seq(|Rescuable(db, stale)| + 1, i => db);
    assert ArePasses(dbs, stale) && dbs[|dbs| - 1] == db;
  }

  // ---- the service ----

  lemma {:induction false} UnusedWorker(used: set<nat>) returns (rid: nat)
    ensures forall r <- used :: r < rid
  {
    if used == {} {
      rid := 0;
    } else {
      var r :| r in used;
      var rest := UnusedWorker(used - {r});
      assert forall x <- used :: x == r || x in used - {r};
      rid := if r < rest then rest else r + 1;
    }
  }

  class SagaRecoveryService {
    const service: TransferSagaService
    var isRecovering: bool

    constructor (service: TransferSagaService)
      ensures this.service == service && !isRecovering
    {
      this.service, this.isRecovering := service, false;
    }

    /** DEBITED and stale, at most ten, in no particular order. */
    method FindStuck(stale: set<SagaId>) returns (batch: seq<SagaId>)
      ensures IsBatch(service.database.db, stale, batch)
    {
      var rest := Stuck(service.database.db, stale);
      batch := [];
      while |batch| < BATCH && rest != {}
        invariant Distinct(batch) && Elements(batch) !! rest
        invariant Elements(batch) + rest == Stuck(service.database.db, stale)
        invariant |batch| + |rest| == |Stuck(service.database.db, stale)| && |batch| <= BATCH
      {
        var sid := AnyOf(rest);
        AppendOne(batch, sid);
        batch, rest := batch + [sid], rest - {sid};
      }
    }

    /** One scan. An error in one saga does not keep the others from being tried. */
    method ProcessStuckSagas(stale: set<SagaId>, env: SagaId -> RecoveryEnv, queryFails: bool)
      requires service.Valid()
      modifies this, service, service.database
      ensures service.Valid()
      ensures old(isRecovering) || queryFails ==> service.database.db == old(service.database.db)
      ensures isRecovering == old(isRecovering)
      ensures !old(isRecovering) && !queryFails ==>
                IsScan(old(service.database.db), service.database.db, stale, env, service.Tries())
      ensures !old(isRecovering) && !queryFails && service.Tries() > 0 && (forall sid :: env(sid).DatabaseWorks()) ==>
                IsPass(old(service.database.db), service.database.db, stale)
    {
      if isRecovering { return; }
      isRecovering := true;
      if !queryFails {
        ghost var db := service.database.db;
        var batch := FindStuck(stale);
        for i := 0 to |batch|
          invariant service.Valid()
          invariant service.database.db == RecoverEach(db, batch[..i], env, service.Tries())
        {
          ghost var rid := UnusedWorker(service.state.recs.Keys);
          var thrown := service.RecoverSaga(rid, batch[i], env(batch[i]));
          assert batch[..i + 1][..i] == batch[..i];
        }
        assert batch[..|batch|] == batch;
        if service.Tries() > 0 && forall sid :: env(sid).DatabaseWorks() {
          WorkingScan(db, batch, env, service.Tries());
        }
      }
      isRecovering := false;
    }
  }
}
