/** Coordinators and recovery workers over row-level transactions: every leg and every direct request is
    locked, read, written and committed in steps of its own, between the awaits of all processes.
    Without a stale commit, such a run is a run of SagaSystem. */
module RowRuns {
  import opened Basics
  import opened Wallets
  import opened Store
  import opened Ledger
  import opened SagaSystem
  import opened RowLocks
  import Conservation

  datatype Whole = Whole(sys: State, txs: map<TxId, Tx>)

  datatype WAction =
    | Await(step: Action)          // an await that is no leg and no direct request
    | Begins(tx: TxId)             // a process opens the transaction of its leg
    | Ask(request: nat, wallet: WalletId, op: WalletOp, id: Option<RequestId>)
    | RowStep(row: LAction)        // an open transaction's next step
    | Again(tx: TxId)              // rolled back, to be tried again
    | GiveUp(tx: TxId)             // rolled back, the error thrown

  function Rows(c: Whole): LState {
    LState(c.sys.db, c.txs, [])
  }

  /** The transaction a process is at. */
  function ActAt(s: State, t: TxId): Option<Act> {
    match t
    case OfCoord(sid) => if sid in s.coords then CoordAct(sid, s.coords[sid]) else None
    case OfWorker(rid) => if rid in s.recs then WorkerAct(s.recs[rid]) else None
    case OfRequest(_) => None
  }

  // ---- a transaction ends ----

  function CoordNext(pc: Pc, ok: bool): Pc {
    match pc
    case Debiting => if ok then DebitCache else Reloading
    case Crediting => if ok then CreditCache else Reloading
    case Refunding => if ok then Publishing else Threw
    case _ => pc
  }

  function WorkerNext(pc: RecoveryPc, ok: bool): RecoveryPc {
    match pc
    case Paying => if ok then PayCache else GivingBack
    case GivingBack => if ok then Announcing else Finished
    case _ => pc
  }

  /** Its process goes on with what it saw: a commit, or a refusal of the code's own. */
  function Ended(s: State, t: TxId, ok: bool): State {
    match t
    case OfCoord(sid) =>
      if sid in s.coords then s.(coords := s.coords[sid := s.coords[sid].(pc := CoordNext(s.coords[sid].pc, ok))]) else s
    case OfWorker(rid) =>
      if rid in s.recs then s.(recs := s.recs[rid := s.recs[rid].(pc := WorkerNext(s.recs[rid].pc, ok))]) else s
    case OfRequest(_) => s
  }

  function ThrownAt(t: TxId): seq<Action> {
    match t
    case OfCoord(sid) => [Fail(sid)]
    case OfWorker(rid) => [WorkerFail(rid)]
    case OfRequest(_) => []
  }

  // ---- steps ----

  predicate RowAct(act: Act) {
    act.OnWallet? || act.RunLeg?
  }

  /** Getting or creating a wallet takes its row's lock, and a call sees one day. */
  predicate Undisturbed(c: Whole, act: Act) {
    match act
    case Open(w, _) => WalletFree(Rows(c), w)
    case Tick(_) => forall t <- c.txs :: c.txs[t].stage.Waiting?
    case _ => true
  }

  predicate CanStep(c: Whole, a: Action) {
    && (ActOf(c.sys, a).Some? ==> !RowAct(ActOf(c.sys, a).value) && Undisturbed(c, ActOf(c.sys, a).value))
    && match a
       case Advance(sid) => OfCoord(sid) !in c.txs
       case Fail(sid) => OfCoord(sid) !in c.txs
       case WorkerAdvance(rid) => OfWorker(rid) !in c.txs
       case WorkerFail(rid) => OfWorker(rid) !in c.txs
       case _ => true
  }

  /** The database rolls back what a crashed process had open. */
  function Surviving(txs: map<TxId, Tx>, a: Action): map<TxId, Tx> {
    match a
    case Crash(sid) => txs - {OfCoord(sid)}
    case WorkerCrash(rid) => txs - {OfWorker(rid)}
    case _ => txs
  }

  predicate IsRowStep(l: LAction) {
    l.TakeWallet? || l.ReadSaga? || l.TakeSaga? || l.Commit?
  }

  function AfterRow(c: Whole, l: LAction): Whole
    requires IsRowStep(l)
  {
    var s := LStep(Rows(c), l);
    Whole(if l.tx in c.txs && l.tx !in s.txs then Ended(c.sys.(db := s.db), l.tx, l.Commit?) else c.sys.(db := s.db), s.txs)
  }

  function WStep(c: Whole, a: WAction): Whole {
    match a
    case Await(step) => if CanStep(c, step) then Whole(Step(c.sys, step), Surviving(c.txs, step)) else c
    case Begins(t) =>
      if t in c.txs || ActAt(c.sys, t).None? || !ActAt(c.sys, t).value.RunLeg? then c
      else c.(txs := c.txs[t := Tx(ActAt(c.sys, t).value, Waiting)])
    case Ask(n, w, op, id) =>
      if OfRequest(n) in c.txs || op.Credit? then c
      else c.(txs := c.txs[OfRequest(n) := Tx(OnWallet(w, op, id), Waiting)])
    case RowStep(l) => if IsRowStep(l) then AfterRow(c, l) else c
    case Again(t) => c.(txs := c.txs - {t})
    case GiveUp(t) => if t in c.txs then Whole(Run(c.sys, ThrownAt(t)), c.txs - {t}) else c
  }

  function WRun(c: Whole, actions: seq<WAction>): Whole
    decreases |actions|
  {
    if actions == [] then c else WStep(WRun(c, actions[..|actions| - 1]), actions[|actions| - 1])
  }

  /** The check the code does not make, here too. */
  predicate StaleStep(c: Whole, a: WAction) {
    a.RowStep? && a.row.Commit? && Stale(Rows(c), a.row.tx)
  }

  predicate AnyStaleStep(c: Whole, actions: seq<WAction>)
    decreases |actions|
  {
    actions != [] &&
    var before := actions[..|actions| - 1];
    AnyStaleStep(c, before) || StaleStep(WRun(c, before), actions[|actions| - 1])
  }

  // ---- what a step is in SagaSystem ----

  /** The indivisible step of the transaction's process. */
  function StepOf(t: TxId, act: Act): seq<Action> {
    match t
    case OfCoord(sid) => [Advance(sid)]
    case OfWorker(rid) => [WorkerAdvance(rid)]
    case OfRequest(_) => if act.OnWallet? then [Submit(act.wallet, act.op, act.request)] else []
  }

  /** A transaction is a step when it ends, by its commit or by a refusal. */
  function Shadow(c: Whole, a: WAction): seq<Action> {
    match a
    case Await(step) => if CanStep(c, step) then [step] else []
    case RowStep(l) =>
      if IsRowStep(l) && l.tx in c.txs && l.tx !in LStep(Rows(c), l).txs then StepOf(l.tx, c.txs[l.tx].act) else []
    case GiveUp(t) => if t in c.txs then ThrownAt(t) else []
    case _ => []
  }

  function Shadows(c: Whole, actions: seq<WAction>): seq<Action>
    decreases |actions|
  {
    if actions == [] then []
    else
      var before := actions[..|actions| - 1];
      Shadows(c, before) + Shadow(WRun(c, before), actions[|actions| - 1])
  }

  // ---- the invariant ----

  /** Every open transaction is the one its process is at. */
  ghost predicate Linked(c: Whole) {
    forall t <- c.txs ::
      if t.OfRequest? then c.txs[t].act.OnWallet? else c.txs[t].act.RunLeg? && ActAt(c.sys, t) == Some(c.txs[t].act)
  }

  ghost predicate WInv(c: Whole) {
    Inv(c.sys) && LInv(Rows(c)) && Linked(c)
  }

  // ---- a transaction that ends is one step ----

  /** It ends by a commit that does to the database what the indivisible transaction does there and then,
      or by a refusal that the indivisible transaction meets there and then. */
  lemma EndsAtomically(s: LState, l: LAction)
    requires LInv(s) && IsRowStep(l) && l.tx in s.txs && l.tx !in LStep(s, l).txs
    requires l.Commit? ==> !Stale(s, l.tx)
    ensures var act := s.txs[l.tx].act;
            && LStep(s, l).db == Apply(s.db, act)
            && (act.RunLeg? ==> (LegTx(s.db, act.saga, act.leg, act.wallet, act.amount).Success? <==> l.Commit?))
  {
    var tx := s.txs[l.tx];
    assert TxOk(s.db, tx);
    if l.Commit? {
      FreshCommitIsAtomic(s, l.tx);
    } else if tx.act.OnWallet? {
      PreparedIsApplied(s.db, tx.act);
    }
  }

  lemma RunOne(s: State, a: Action)
    ensures Run(s, [a]) == Step(s, a)
  {
    assert [a][..0] == [];
  }

  lemma CoordEnds(s: State, sid: SagaId, act: Act, ok: bool)
    requires ActAt(s, OfCoord(sid)) == Some(act) && act.RunLeg?
    requires LegTx(s.db, act.saga, act.leg, act.wallet, act.amount).Success? <==> ok
    ensures Ended(s.(db := Apply(s.db, act)), OfCoord(sid), ok) == Step(s, Advance(sid))
  {
  }

  lemma WorkerEnds(s: State, rid: nat, act: Act, ok: bool)
    requires ActAt(s, OfWorker(rid)) == Some(act) && act.RunLeg?
    requires LegTx(s.db, act.saga, act.leg, act.wallet, act.amount).Success? <==> ok
    ensures Ended(s.(db := Apply(s.db, act)), OfWorker(rid), ok) == Step(s, WorkerAdvance(rid))
  {
  }

  lemma RowStepRefines(c: Whole, l: LAction)
    requires LInv(Rows(c)) && Linked(c) && IsRowStep(l)
    requires l.Commit? ==> !Stale(Rows(c), l.tx)
    ensures AfterRow(c, l).sys == Run(c.sys, Shadow(c, RowStep(l)))
  {
    if l.tx in c.txs && l.tx !in LStep(Rows(c), l).txs {
      var act := c.txs[l.tx].act;
      EndsAtomically(Rows(c), l);
      assert TxOk(c.sys.db, c.txs[l.tx]);
      match l.tx
      case OfCoord(sid) => CoordEnds(c.sys, sid, act, l.Commit?); RunOne(c.sys, Advance(sid));
      case OfWorker(rid) => WorkerEnds(c.sys, rid, act, l.Commit?); RunOne(c.sys, WorkerAdvance(rid));
      case OfRequest(_) => RunOne(c.sys, Submit(act.wallet, act.op, act.request));
    } else {
      SameDb(Rows(c), l);
    }
  }

  lemma SameDb(s: LState, l: LAction)
    requires IsRowStep(l) && !(l.tx in s.txs && l.tx !in LStep(s, l).txs)
    ensures LStep(s, l).db == s.db
  {
  }

  lemma StepRefines(c: Whole, a: WAction)
    requires LInv(Rows(c)) && Linked(c) && !StaleStep(c, a)
    ensures WStep(c, a).sys == Run(c.sys, Shadow(c, a))
  {
    match a
    case Await(step) => RunOne(c.sys, step);
    case RowStep(l) => if IsRowStep(l) { RowStepRefines(c, l); }
    case _ =>
  }

  // ---- the invariant is kept ----

  /** What else happens leaves an open transaction as it found it. */
  lemma OtherFrames(db: Db, act: Act, tx: Tx)
    requires TxOk(db, tx) && Allowed(db, act) && !RowAct(act)
    requires act.Open? ==> !Locks(tx, act.wallet)
    requires act.Tick? ==> tx.stage.Waiting?
    requires act.MarkFailed? && tx.act.RunLeg? && tx.act.saga == act.saga ==> tx.act.leg != Debit
    ensures TxOk(Apply(db, act), tx)
  {
  }

  /** When a saga is marked FAILED no transaction of it is open: its own coordinator is at the mark, and no
      worker takes up a PENDING saga. */
  lemma NoLegBeside(c: Whole, a: Action, t: TxId)
    requires CoordsOk(c.sys) && WorkersOk(c.sys) && Linked(c) && CanStep(c, a) && t in c.txs
    requires ActOf(c.sys, a).Some? && ActOf(c.sys, a).value.MarkFailed?
    ensures c.txs[t].act.RunLeg? ==> c.txs[t].act.saga != ActOf(c.sys, a).value.saga
  {
    StartedAllowed(c.sys, a);
  }

  lemma OtherKeepsRows(c: Whole, a: Action)
    requires CoordsOk(c.sys) && WorkersOk(c.sys) && LInv(Rows(c)) && Linked(c) && CanStep(c, a)
    ensures LInv(Rows(WStep(c, Await(a))))
  {
    var c' := WStep(c, Await(a));
    forall t <- c'.txs
      ensures TxOk(c'.sys.db, c'.txs[t])
    {
      assert t in c.txs && c'.txs[t] == c.txs[t] && TxOk(c.sys.db, c.txs[t]);
      var act := ActOf(c.sys, a);
      if act.Some? {
        StartedAllowed(c.sys, a);
        if act.value.MarkFailed? {
          NoLegBeside(c, a, t);
        }
        OtherFrames(c.sys.db, act.value, c.txs[t]);
      }
    }
  }

  lemma OtherKeepsLinks(c: Whole, a: Action)
    requires Linked(c) && CanStep(c, a)
    ensures Linked(WStep(c, Await(a)))
  {
    var c' := WStep(c, Await(a));
    forall t <- c'.txs
      ensures !t.OfRequest? ==> ActAt(c'.sys, t) == ActAt(c.sys, t)
    {
      assert t in c.txs && c'.txs[t] == c.txs[t];
    }
  }

  lemma BeginsKeeps(c: Whole, t: TxId)
    requires CoordsOk(c.sys) && WorkersOk(c.sys) && LInv(Rows(c)) && Linked(c)
    ensures LInv(Rows(WStep(c, Begins(t)))) && Linked(WStep(c, Begins(t)))
  {
    var c' := WStep(c, Begins(t));
    if c' != c {
      var act := ActAt(c.sys, t).value;
      match t {
        case OfCoord(sid) => assert CoordOk(c.sys.db, sid, c.sys.coords[sid]);
        case OfWorker(rid) => assert WorkerOk(c.sys.db, c.sys.recs[rid]);
      }
      LStepKeeps(Rows(c), RowLocks.Start(t, act));
      assert Rows(c') == LStep(Rows(c), RowLocks.Start(t, act));
    }
  }

  lemma AskKeeps(c: Whole, n: nat, w: WalletId, op: WalletOp, id: Option<RequestId>)
    requires LInv(Rows(c)) && Linked(c)
    ensures LInv(Rows(WStep(c, Ask(n, w, op, id)))) && Linked(WStep(c, Ask(n, w, op, id)))
  {
    var c' := WStep(c, Ask(n, w, op, id));
    if c' != c {
      LStepKeeps(Rows(c), RowLocks.Start(OfRequest(n), OnWallet(w, op, id)));
      assert Rows(c') == LStep(Rows(c), RowLocks.Start(OfRequest(n), OnWallet(w, op, id)));
    }
  }

  lemma RowStepKeepsRows(c: Whole, l: LAction)
    requires LInv(Rows(c)) && IsRowStep(l)
    ensures LInv(Rows(AfterRow(c, l)))
  {
    LStepKeeps(Rows(c), l);
    assert AfterRow(c, l).sys.db == LStep(Rows(c), l).db;
  }

  /** A step of one transaction changes no other, and its own act never. */
  lemma RowStepLocal(s: LState, l: LAction, t: TxId)
    requires IsRowStep(l) && t in LStep(s, l).txs
    ensures t in s.txs && LStep(s, l).txs[t].act == s.txs[t].act
  {
  }

  lemma RowStepKeepsLinks(c: Whole, l: LAction)
    requires Linked(c) && IsRowStep(l)
    ensures Linked(AfterRow(c, l))
  {
    var c' := AfterRow(c, l);
    forall t <- c'.txs
      ensures t in c.txs && c'.txs[t].act == c.txs[t].act
      ensures !t.OfRequest? ==> ActAt(c'.sys, t) == ActAt(c.sys, t)
    {
      RowStepLocal(Rows(c), l, t);
    }
  }

  lemma AgainKeeps(c: Whole, t: TxId)
    requires LInv(Rows(c)) && Linked(c)
    ensures LInv(Rows(WStep(c, Again(t)))) && Linked(WStep(c, Again(t)))
  {
    LStepKeeps(Rows(c), Abort(t));
    assert Rows(WStep(c, Again(t))) == LStep(Rows(c), Abort(t));
  }

  /** A throw concerns its own process alone. */
  lemma ThrowLocal(s: State, t: TxId, u: TxId)
    requires u != t
    ensures Run(s, ThrownAt(t)).db == s.db && ActAt(Run(s, ThrownAt(t)), u) == ActAt(s, u)
  {
    match t
    case OfCoord(sid) => RunOne(s, Fail(sid));
    case OfWorker(rid) => RunOne(s, WorkerFail(rid));
    case OfRequest(_) =>
  }

  lemma GiveUpKeeps(c: Whole, t: TxId)
    requires LInv(Rows(c)) && Linked(c)
    ensures LInv(Rows(WStep(c, GiveUp(t)))) && Linked(WStep(c, GiveUp(t)))
  {
    AgainKeeps(c, t);
    var c' := WStep(c, GiveUp(t));
    forall u <- c'.txs
      ensures TxOk(c'.sys.db, c'.txs[u]) && (!u.OfRequest? ==> ActAt(c'.sys, u) == ActAt(c.sys, u))
    {
      if t in c.txs {
        ThrowLocal(c.sys, t, u);
      }
      assert TxOk(c.sys.db, c.txs[u]);
    }
  }

  lemma StepKeepsRows(c: Whole, a: WAction)
    requires CoordsOk(c.sys) && WorkersOk(c.sys) && LInv(Rows(c)) && Linked(c)
    ensures LInv(Rows(WStep(c, a))) && Linked(WStep(c, a))
  {
    match a
    case Await(step) =>
      if CanStep(c, step) {
        OtherKeepsRows(c, step);
        OtherKeepsLinks(c, step);
      }
    case Begins(t) => BeginsKeeps(c, t);
    case Ask(n, w, op, id) => AskKeeps(c, n, w, op, id);
    case RowStep(l) =>
      if IsRowStep(l) {
        RowStepKeepsRows(c, l);
        RowStepKeepsLinks(c, l);
      }
    case Again(t) => AgainKeeps(c, t);
    case GiveUp(t) => GiveUpKeeps(c, t);
  }

  lemma {:induction false} RunJoins(s: State, first: seq<Action>, rest: seq<Action>)
    ensures Run(s, first + rest) == Run(Run(s, first), rest)
    decreases |rest|
  {
    if rest == [] {
      assert first + rest == first;
    } else {
      RunJoins(s, first, rest[..|rest| - 1]);
      assert (first + rest)[..|first + rest| - 1] == first + rest[..|rest| - 1];
    }
  }

  /** Without a stale commit, a run of coordinators, workers and requests over interleaved row-level
      transactions is a run of SagaSystem, in which every transaction is one step. Everything proved of
      those runs holds of it. */
  lemma {:induction false} RowRunsAreRuns(s: State, actions: seq<WAction>)
    requires Inv(s)
    requires !AnyStaleStep(Whole(s, map[]), actions)
    ensures var c := Whole(s, map[]);
            && WRun(c, actions).sys == Run(s, Shadows(c, actions))
            && WInv(WRun(c, actions))
    decreases |actions|
  {
    if actions != [] {
      var c, before, a := Whole(s, map[]), actions[..|actions| - 1], actions[|actions| - 1];
      RowRunsAreRuns(s, before);
      var d := WRun(c, before);
      StepRefines(d, a);
      RunJoins(s, Shadows(c, before), Shadow(d, a));
      StepKeepsRows(d, a);
      RunKeeps(s, Shadows(c, actions));
    }
  }

  /** Money, for one: conserved over every such run. */
  lemma RowRunsConserve(s: State, actions: seq<WAction>, cur: Currency)
    requires Inv(s)
    requires !AnyStaleStep(Whole(s, map[]), actions)
    ensures var db := WRun(Whole(s, map[]), actions).sys.db;
            Conservation.Total(db, cur) == Conservation.Total(s.db, cur)
              + Conservation.NetDirect(db.events, cur) - Conservation.NetDirect(s.db.events, cur)
  {
    RowRunsAreRuns(s, actions);
    Conservation.MoneyIsConserved(s, Shadows(Whole(s, map[]), actions), cur);
  }

  // ---- the race, in a whole run ----

  function AsRows(ls: seq<LAction>): seq<WAction> {
    if ls == [] then [] else AsRows(ls[..|ls| - 1]) + [RowStep(ls[|ls| - 1])]
  }

  predicate SameRows(c: Whole, s: LState) {
    c.sys.db == s.db && c.txs == s.txs
  }

  lemma RowStepFollows(c: Whole, s: LState, l: LAction)
    requires SameRows(c, s) && IsRowStep(l)
    ensures SameRows(WStep(c, RowStep(l)), LStep(s, l))
    ensures StaleStep(c, RowStep(l)) <==> l.Commit? && Stale(s, l.tx)
  {
  }

  lemma {:induction false} RowStepsFollow(c: Whole, s: LState, ls: seq<LAction>)
    requires SameRows(c, s) && forall l <- ls :: IsRowStep(l)
    ensures SameRows(WRun(c, AsRows(ls)), LRun(s, ls))
    ensures AnyStaleStep(c, AsRows(ls)) <==> AnyStale(s, ls)
    decreases |ls|
  {
    if ls != [] {
      var before, l := ls[..|ls| - 1], ls[|ls| - 1];
      RowStepsFollow(c, s, before);
      assert AsRows(ls)[..|AsRows(ls)| - 1] == AsRows(before);
      assert l in ls;
      RowStepFollows(WRun(c, AsRows(before)), LRun(s, before), l);
    }
  }

  lemma {:induction false} WRunJoins(c: Whole, first: seq<WAction>, rest: seq<WAction>)
    ensures WRun(c, first + rest) == WRun(WRun(c, first), rest)
    ensures AnyStaleStep(WRun(c, first), rest) ==> AnyStaleStep(c, first + rest)
    decreases |rest|
  {
    if rest == [] {
      assert first + rest == first;
    } else {
      WRunJoins(c, first, rest[..|rest| - 1]);
      assert (first + rest)[..|first + rest| - 1] == first + rest[..|rest| - 1];
    }
  }

  /** The worker and the coordinator open their transactions, and race. */
  function RaceActions(sid: SagaId): seq<WAction> {
    [Begins(PAYER), Begins(OfCoord(sid))] + AsRows(RaceSteps(sid))
  }

  lemma BothBegin(t: State, sid: SagaId)
    requires Owing(t.db, sid)
    requires ActAt(t, PAYER) == Some(PayIt(t.db, sid)) && ActAt(t, OfCoord(sid)) == Some(RowLocks.GiveBack(t.db, sid))
    ensures SameRows(WRun(Whole(t, map[]), [Begins(PAYER), Begins(OfCoord(sid))]), Racing(t.db, sid, Waiting, Waiting))
  {
    var c, a, b := Whole(t, map[]), Begins(PAYER), Begins(OfCoord(sid));
    assert [a, b][..1] == [a] && [a][..0] == [];
    assert WRun(c, [a]) == WStep(c, a);
    assert WStep(c, a) == Whole(t, map[PAYER := Tx(PayIt(t.db, sid), Waiting)]);
  }

  /** A coordinator about to refund and a worker about to pay the same saga can both do it: sender and
      receiver end up with the amount, and some commit was stale. */
  lemma RaceRuns(t: State, sid: SagaId)
    requires Owing(t.db, sid)
    requires ActAt(t, PAYER) == Some(PayIt(t.db, sid)) && ActAt(t, OfCoord(sid)) == Some(RowLocks.GiveBack(t.db, sid))
    ensures AnyStaleStep(Whole(t, map[]), RaceActions(sid))
    ensures var g := t.db.sagas[sid];
            var db := WRun(Whole(t, map[]), RaceActions(sid)).sys.db;
            && g.to in db.wallets && db.wallets[g.to].balance == t.db.wallets[g.to].balance + g.amount
            && g.from in db.wallets && db.wallets[g.from].balance == t.db.wallets[g.from].balance + g.amount
  {
    BothBegin(t, sid);
    var begun := WRun(Whole(t, map[]), [Begins(PAYER), Begins(OfCoord(sid))]);
    RaceGoes(t.db, sid);
    RowStepsFollow(begun, Racing(t.db, sid, Waiting, Waiting), RaceSteps(sid));
    WRunJoins(Whole(t, map[]), [Begins(PAYER), Begins(OfCoord(sid))], AsRows(RaceSteps(sid)));
    PaidAndRefunded(t.db, sid);
    RaceEnds(t.db, sid);
  }
}
