/** Direct requests that overlap: look the id up, take the request lock, run the transaction, give
    the lock back, interleaved for any number of requests, with expiring locks and crashes. */
module Overlap {
  import opened Basics
  import opened Wallets
  import opened Store
  import WalletService

  datatype Pc =
    | Looking
    | Locking
    | Working                            // holds the lock, or did until it expired
    | Closing(result: Option<Reply>)     // the transaction is over, the lock is still to be deleted
    | Ended(answer: Option<Reply>)

  /** `late`: an answer was already stored when this request took its lock. */
  datatype Process = Process(id: RequestId, wallet: WalletId, op: WalletOp, pc: Pc, late: bool)

  datatype System = System(db: Db, locks: set<RequestId>, procs: map<nat, Process>, effects: seq<RequestId>)

  datatype Action =
    | Begin(p: nat, id: RequestId, wallet: WalletId, op: WalletOp)
    | Look(p: nat)
    | Lock(p: nat)
    | Work(p: nat)
    | WorkFails(p: nat)          // rolled back
    | Unlock(p: nat)             // deletes the key, whoever set it
    | UnlockFails(p: nat)
    | Throw(p: nat)              // the lookup or the lock throws
    | Crash(p: nat)
    | Expire(id: RequestId)
    | Elsewhere(act: Act)        // anything that stores no answer

  function Quiet(db: Db): System {
    System(db, {}, map[], [])
  }

  predicate KeyFree(act: Act) {
    !act.PutKey? && (act.OnWallet? ==> act.request.None?)
  }

  predicate At(s: System, p: nat, pc: Pc) {
    p in s.procs && s.procs[p].pc == pc
  }

  function To(s: System, p: nat, pc: Pc): map<nat, Process>
    requires p in s.procs
  {
    s.procs[p := s.procs[p].(pc := pc)]
  }

  function Tx(s: System, p: nat): Result<(Db, Reply), TxError>
    requires p in s.procs
  {
    WalletTx(s.db, s.procs[p].wallet, s.procs[p].op, Some(s.procs[p].id))
  }

  function Next(s: System, a: Action): System {
    match a
    case Begin(p, id, w, op) =>
      if p in s.procs || !(op.Deposit? || op.Withdraw?) then s
      else s.(procs := s.procs[p := Process(id, w, op, Looking, false)])
    case Look(p) =>
      if !At(s, p, Looking) then s
      else if s.procs[p].id in s.db.keys then s.(procs := To(s, p, Ended(Some(s.db.keys[s.procs[p].id]))))
      else s.(procs := To(s, p, Locking))
    case Lock(p) =>
      if !At(s, p, Locking) then s
      else if s.procs[p].id in s.locks then s.(procs := To(s, p, Ended(None)))
      else
        s.(locks := s.locks + {s.procs[p].id},
           procs := s.procs[p := s.procs[p].(pc := Working, late := s.procs[p].id in s.db.keys)])
    case Work(p) =>
      if !At(s, p, Working) then s
      else
        (match Tx(s, p)
         case Failure(_) => s.(procs := To(s, p, Closing(None)))
         case Success(done) =>
           s.(db := done.0, procs := To(s, p, Closing(Some(done.1))), effects := s.effects + [s.procs[p].id]))
    case WorkFails(p) => if !At(s, p, Working) then s else s.(procs := To(s, p, Closing(None)))
    case Unlock(p) =>
      if p !in s.procs || !s.procs[p].pc.Closing? then s
      else s.(locks := s.locks - {s.procs[p].id}, procs := To(s, p, Ended(s.procs[p].pc.result)))
    case UnlockFails(p) =>
      if p !in s.procs || !s.procs[p].pc.Closing? then s else s.(procs := To(s, p, Ended(None)))
    case Throw(p) =>
      if !At(s, p, Looking) && !At(s, p, Locking) then s else s.(procs := To(s, p, Ended(None)))
    case Crash(p) => s.(procs := s.procs - {p})
    case Expire(id) => s.(locks := s.locks - {id})
    case Elsewhere(act) => if KeyFree(act) then s.(db := Apply(s.db, act)) else s
  }

  function Run(s: System, actions: seq<Action>): System
    decreases |actions|
  {
    if actions == [] then s else Next(Run(s, actions[..|actions| - 1]), actions[|actions| - 1])
  }

  function Count(effects: seq<RequestId>, id: RequestId): nat {
    if effects == [] then 0
    else Count(effects[..|effects| - 1], id) + (if effects[|effects| - 1] == id then 1 else 0)
  }

  /** How often the request took effect, the effect that stored an answer before the run included. */
  function Effects(db: Db, s: System, id: RequestId): nat {
    Count(s.effects, id) + (if id in db.keys then 1 else 0)
  }

  predicate Commits(s: System, a: Action, id: RequestId) {
    a.Work? && At(s, a.p, Working) && s.procs[a.p].id == id && Tx(s, a.p).Success?
  }

  // ---- the guard the transaction does not have ----

  /** Some transaction commits although an answer is stored already. */
  predicate AnyRepeat(s: System, actions: seq<Action>, id: RequestId)
    decreases |actions|
  {
    actions != [] &&
    var before, a := actions[..|actions| - 1], actions[|actions| - 1];
    AnyRepeat(s, before, id) || (Commits(Run(s, before), a, id) && id in Run(s, before).db.keys)
  }

  lemma KeysElsewhere(db: Db, act: Act)
    requires KeyFree(act)
    ensures Apply(db, act).keys == db.keys
  {
  }

  lemma TxKeys(db: Db, w: WalletId, op: WalletOp, id: RequestId, other: RequestId)
    requires WalletTx(db, w, op, Some(id)).Success?
    ensures var after := WalletTx(db, w, op, Some(id)).value.0; other in after.keys <==> other in db.keys || other == id
  {
  }

  lemma Counts(effects: seq<RequestId>, x: RequestId, id: RequestId)
    ensures Count(effects + [x], id) == Count(effects, id) + (if x == id then 1 else 0)
  {
    assert (effects + [x])[..|effects|] == effects;
  }

  /** A commit stores the answer and counts as an effect; nothing else does either. */
  lemma NextKeys(s: System, a: Action, id: RequestId)
    ensures var s' := Next(s, a);
            && Count(s'.effects, id) == Count(s.effects, id) + (if Commits(s, a, id) then 1 else 0)
            && (id in s'.db.keys <==> id in s.db.keys || Commits(s, a, id))
  {
    match a
    case Work(p) =>
      if At(s, p, Working) && Tx(s, p).Success? {
        TxKeys(s.db, s.procs[p].wallet, s.procs[p].op, s.procs[p].id, id);
        Counts(s.effects, s.procs[p].id, id);
      }
    case Elsewhere(act) => if KeyFree(act) { KeysElsewhere(s.db, act); }
    case _ =>
  }

  lemma {:induction false} Tally(db: Db, actions: seq<Action>, id: RequestId)
    ensures var t := Run(Quiet(db), actions);
            && (id in t.db.keys <==> Effects(db, t, id) >= 1)
            && (AnyRepeat(Quiet(db), actions, id) <==> Effects(db, t, id) >= 2)
    decreases |actions|
  {
    if actions != [] {
      var before := actions[..|actions| - 1];
      Tally(db, before, id);
      NextKeys(Run(Quiet(db), before), actions[|actions| - 1], id);
    }
  }

  /** Over any run, locks that expire included, a request takes effect at most once exactly when no
      transaction commits while an answer is stored: the check the transaction does not make. */
  lemma OnceExactly(db: Db, actions: seq<Action>, id: RequestId)
    ensures Effects(db, Run(Quiet(db), actions), id) <= 1 <==> !AnyRepeat(Quiet(db), actions, id)
  {
    Tally(db, actions, id);
  }

  // ---- while locks hold ----

  predicate Holds(s: System, p: nat, id: RequestId) {
    p in s.procs && s.procs[p].id == id && (s.procs[p].pc.Working? || s.procs[p].pc.Closing?)
  }

  /** The lock of this id expires only when nobody is between taking it and giving it back. */
  predicate Fair(s: System, a: Action, id: RequestId) {
    a == Expire(id) ==> forall p <- s.procs :: !Holds(s, p, id)
  }

  predicate LocksHold(s: System, actions: seq<Action>, id: RequestId)
    decreases |actions|
  {
    actions == [] ||
    (LocksHold(s, actions[..|actions| - 1], id) && Fair(Run(s, actions[..|actions| - 1]), actions[|actions| - 1], id))
  }

  /** Some transaction commits whose request took its lock when an answer was stored already. */
  predicate AnyLate(s: System, actions: seq<Action>, id: RequestId)
    decreases |actions|
  {
    actions != [] &&
    var before, a := actions[..|actions| - 1], actions[|actions| - 1];
    AnyLate(s, before, id) || (Commits(Run(s, before), a, id) && Run(s, before).procs[a.p].late)
  }

  /** One holder at a time, and until it commits nothing has been stored since it took the lock. */
  ghost predicate Guarded(s: System, id: RequestId) {
    && (forall p <- s.procs :: Holds(s, p, id) ==> id in s.locks)
    && (forall p, q | p in s.procs && q in s.procs && Holds(s, p, id) && Holds(s, q, id) :: p == q)
    && (forall p <- s.procs :: At(s, p, Working) && s.procs[p].id == id ==> (s.procs[p].late <==> id in s.db.keys))
  }

  lemma WorkCloses(s: System, p: nat)
    requires At(s, p, Working)
    ensures var s' := Next(s, Work(p));
            && s'.locks == s.locks && s'.procs.Keys == s.procs.Keys
            && s'.procs[p].pc.Closing? && s'.procs[p].id == s.procs[p].id
            && (forall q <- s.procs :: q != p ==> s'.procs[q] == s.procs[q])
  {
  }

  lemma WorkGuarded(s: System, p: nat, id: RequestId)
    requires Guarded(s, id)
    ensures Guarded(Next(s, Work(p)), id)
  {
    var s' := Next(s, Work(p));
    if At(s, p, Working) {
      WorkCloses(s, p);
      NextKeys(s, Work(p), id);
      forall q <- s'.procs
        ensures Holds(s', q, id) <==> Holds(s, q, id)
        ensures At(s', q, Working) ==> q != p && s'.procs[q] == s.procs[q]
      {
      }
    }
  }

  lemma LockGuarded(s: System, p: nat, id: RequestId)
    requires Guarded(s, id)
    ensures Guarded(Next(s, Lock(p)), id)
  {
  }

  lemma UnlockGuarded(s: System, p: nat, id: RequestId)
    requires Guarded(s, id)
    ensures Guarded(Next(s, Unlock(p)), id)
  {
  }

  lemma ElsewhereGuarded(s: System, act: Act, id: RequestId)
    requires Guarded(s, id)
    ensures Guarded(Next(s, Elsewhere(act)), id)
  {
    if KeyFree(act) {
      KeysElsewhere(s.db, act);
      assert forall p <- s.procs :: Holds(Next(s, Elsewhere(act)), p, id) <==> Holds(s, p, id);
    }
  }

  lemma OthersGuarded(s: System, a: Action, id: RequestId)
    requires Guarded(s, id) && Fair(s, a, id)
    requires !a.Lock? && !a.Work? && !a.Unlock? && !a.Elsewhere?
    ensures Guarded(Next(s, a), id)
  {
    var s' := Next(s, a);
    assert s'.db == s.db;
    assert forall p <- s'.procs :: Holds(s', p, id) ==>
        Holds(s, p, id) && (At(s', p, Working) ==> s'.procs[p] == s.procs[p]);
  }

  lemma NextGuarded(s: System, a: Action, id: RequestId)
    requires Guarded(s, id) && Fair(s, a, id)
    ensures Guarded(Next(s, a), id)
  {
    match a
    case Lock(p) => LockGuarded(s, p, id);
    case Work(p) => WorkGuarded(s, p, id);
    case Unlock(p) => UnlockGuarded(s, p, id);
    case Elsewhere(act) => ElsewhereGuarded(s, act, id);
    case _ => OthersGuarded(s, a, id);
  }

  lemma {:induction false} LateIsRepeat(db: Db, actions: seq<Action>, id: RequestId)
    requires LocksHold(Quiet(db), actions, id)
    ensures Guarded(Run(Quiet(db), actions), id)
    ensures AnyLate(Quiet(db), actions, id) <==> AnyRepeat(Quiet(db), actions, id)
    decreases |actions|
  {
    if actions != [] {
      var before := actions[..|actions| - 1];
      LateIsRepeat(db, before, id);
      NextGuarded(Run(Quiet(db), before), actions[|actions| - 1], id);
    }
  }

  /** As long as no lock expires under its holder, a request takes effect at most once over a run
      exactly when no transaction commits whose request took its lock when an answer was already
      stored: looking the id up again under the lock is the check that is missing. */
  lemma OnceUnlessLate(db: Db, actions: seq<Action>, id: RequestId)
    requires LocksHold(Quiet(db), actions, id)
    ensures Effects(db, Run(Quiet(db), actions), id) <= 1 <==> !AnyLate(Quiet(db), actions, id)
  {
    OnceExactly(db, actions, id);
    LateIsRepeat(db, actions, id);
  }

  // ---- both run ----

  lemma Extend(db: Db, actions: seq<Action>, a: Action, id: RequestId) returns (longer: seq<Action>)
    requires LocksHold(Quiet(db), actions, id) && !a.Expire?
    ensures longer == actions + [a] && LocksHold(Quiet(db), longer, id)
    ensures Run(Quiet(db), longer) == Next(Run(Quiet(db), actions), a)
    ensures AnyLate(Quiet(db), longer, id)
       <==> AnyLate(Quiet(db), actions, id)
            || (Commits(Run(Quiet(db), actions), a, id) && Run(Quiet(db), actions).procs[a.p].late)
  {
    longer := actions + [a];
    assert longer[..|actions|] == actions;
  }

  function Asked(id: RequestId, w: WalletId, amount: int, pc: Pc, late: bool): Process {
    Process(id, w, Deposit(amount), pc, late)
  }

  function Deposited(db: Db, w: WalletId, amount: int, id: RequestId): Db {
    Apply(db, OnWallet(w, Deposit(amount), Some(id)))
  }

  function Pair(db: Db, locks: set<RequestId>, one: Process, two: Process, effects: seq<RequestId>): System {
    System(db, locks, map[0 := one, 1 := two], effects)
  }

  lemma FirstLocks(db: Db, pr: Process)
    requires pr.pc == Locking && !pr.late && pr.id !in db.keys
    ensures Next(Pair(db, {}, pr, pr, []), Lock(0)) == Pair(db, {pr.id}, pr.(pc := Working), pr, [])
  {
    assert {} + {pr.id} == {pr.id};
  }

  lemma FirstWorks(db: Db, pr: Process, other: Process)
    requires pr.pc == Working && WalletTx(db, pr.wallet, pr.op, Some(pr.id)).Success?
    ensures var (after, reply) := WalletTx(db, pr.wallet, pr.op, Some(pr.id)).value;
            Next(Pair(db, {pr.id}, pr, other, []), Work(0))
              == Pair(after, {pr.id}, pr.(pc := Closing(Some(reply))), other, [pr.id])
  {
    assert [] + [pr.id] == [pr.id];
  }

  lemma FirstUnlocks(db: Db, pr: Process, other: Process, result: Option<Reply>)
    ensures Next(Pair(db, {pr.id}, pr.(pc := Closing(result)), other, [pr.id]), Unlock(0))
         == Pair(db, {}, pr.(pc := Ended(result)), other, [pr.id])
  {
    assert {pr.id} - {pr.id} == {};
  }

  function Single(db: Db, locks: set<RequestId>, pr: Process, effects: seq<RequestId>): System {
    System(db, locks, map[0 := pr], effects)
  }

  lemma AsksAlone(db: Db, pr: Process)
    requires pr.op.Deposit? || pr.op.Withdraw?
    requires pr.pc == Looking && !pr.late
    ensures Next(Next(Quiet(db), Begin(0, pr.id, pr.wallet, pr.op)), Look(0))
         == Single(db, {}, pr.(pc := if pr.id in db.keys then Ended(Some(db.keys[pr.id])) else Locking), [])
  {
    assert Next(Quiet(db), Begin(0, pr.id, pr.wallet, pr.op)) == Single(db, {}, pr, []);
  }

  lemma AsksToo(db: Db, pr: Process)
    requires (pr.op.Deposit? || pr.op.Withdraw?) && pr.pc == Looking && !pr.late && pr.id !in db.keys
    ensures var looked := pr.(pc := Locking);
            Next(Next(Single(db, {}, looked, []), Begin(1, pr.id, pr.wallet, pr.op)), Look(1))
              == Pair(db, {}, looked, looked, [])
  {
    assert Next(Single(db, {}, pr.(pc := Locking), []), Begin(1, pr.id, pr.wallet, pr.op))
        == Pair(db, {}, pr.(pc := Locking), pr, []);
  }

  lemma BothLook(db: Db, w: WalletId, amount: int, id: RequestId) returns (actions: seq<Action>)
    requires id !in db.keys
    ensures LocksHold(Quiet(db), actions, id) && !AnyLate(Quiet(db), actions, id)
    ensures Run(Quiet(db), actions)
         == Pair(db, {}, Asked(id, w, amount, Locking, false), Asked(id, w, amount, Locking, false), [])
  {
    var pr := Asked(id, w, amount, Looking, false);
    actions := Extend(db, [], Begin(0, id, w, Deposit(amount)), id);
    actions := Extend(db, actions, Look(0), id);
    AsksAlone(db, pr);
    actions := Extend(db, actions, Begin(1, id, w, Deposit(amount)), id);
    actions := Extend(db, actions, Look(1), id);
    AsksToo(db, pr);
  }

  function Answered(db: Db, w: WalletId): Option<Reply>
    requires w in db.wallets
  {
    Some(BalanceReply(db.wallets[w].balance, w))
  }

  lemma FirstRuns(db: Db, before: seq<Action>, w: WalletId, amount: int, id: RequestId) returns (actions: seq<Action>)
    requires id !in db.keys && w in db.wallets && db.wallets[w].status == Active && amount > 0
    requires LocksHold(Quiet(db), before, id) && !AnyLate(Quiet(db), before, id)
    requires Run(Quiet(db), before)
          == Pair(db, {}, Asked(id, w, amount, Locking, false), Asked(id, w, amount, Locking, false), [])
    ensures LocksHold(Quiet(db), actions, id)
    ensures var once := Deposited(db, w, amount, id);
            && w in once.wallets
            && Run(Quiet(db), actions) == Pair(once, {}, Asked(id, w, amount, Ended(Answered(once, w)), false),
                                               Asked(id, w, amount, Locking, false), [id])
  {
    var other := Asked(id, w, amount, Locking, false);
    actions := Extend(db, before, Lock(0), id);
    FirstLocks(db, other);
    actions := Extend(db, actions, Work(0), id);
    FirstWorks(db, Asked(id, w, amount, Working, false), other);
    actions := Extend(db, actions, Unlock(0), id);
    FirstUnlocks(Deposited(db, w, amount, id), Asked(id, w, amount, Working, false), other,
                 Answered(Deposited(db, w, amount, id), w));
  }

  lemma SecondRuns(db: Db, before: seq<Action>, s: System, id: RequestId) returns (actions: seq<Action>)
    requires LocksHold(Quiet(db), before, id) && Run(Quiet(db), before) == s
    requires At(s, 1, Locking) && s.procs[1].id == id && id !in s.locks && id in s.db.keys && Tx(s, 1).Success?
    ensures LocksHold(Quiet(db), actions, id) && AnyLate(Quiet(db), actions, id)
    ensures Run(Quiet(db), actions).effects == s.effects + [id]
    ensures Run(Quiet(db), actions).db == Tx(s, 1).value.0
  {
    actions := Extend(db, before, Lock(1), id);
    assert Run(Quiet(db), actions).procs[1].late && At(Run(Quiet(db), actions), 1, Working);
    actions := Extend(db, actions, Work(1), id);
  }

  /** Two deposits with one id: the second looks the id up before the first commits, and takes the lock
      after the first has given it back. Both take effect, and no lock expired. */
  lemma OverlappingRequestsBothRun(db: Db, w: WalletId, amount: int, id: RequestId) returns (actions: seq<Action>)
    requires id !in db.keys && w in db.wallets && db.wallets[w].status == Active && amount > 0
    ensures LocksHold(Quiet(db), actions, id) && AnyLate(Quiet(db), actions, id)
    ensures var t := Run(Quiet(db), actions);
            t.effects == [id, id] && w in t.db.wallets && t.db.wallets[w].balance == db.wallets[w].balance + 2 * amount
  {
    actions := BothLook(db, w, amount, id);
    actions := FirstRuns(db, actions, w, amount, id);
    var s := Run(Quiet(db), actions);
    assert id in s.db.keys && s.db.wallets[w].status == Active;
    actions := SecondRuns(db, actions, s, id);
    assert [id] + [id] == [id, id];
  }

  // ---- one request among others ----

  /** The steps one request takes, given which of its awaits fail. A transaction that cannot start is one that
      does nothing and leaves its lock. */
  function Steps(p: nat, id: RequestId, w: WalletId, op: WalletOp, env: WalletService.DirectEnv): seq<Action> {
    [Begin(p, id, w, op)]
    + [if env.lookupFails then Throw(p) else Look(p)]
    + [if env.lockFails then Throw(p) else Lock(p)]
    + [if env.startFails || env.txFails then WorkFails(p) else Work(p)]
    + [if env.LeavesLock() then UnlockFails(p) else Unlock(p)]
  }

  lemma RunFive(s: System, a: Action, b: Action, c: Action, d: Action, e: Action)
    ensures Run(s, [a] + [b] + [c] + [d] + [e]) == Next(Next(Next(Next(Next(s, a), b), c), d), e)
  {
    RunLast(s, [], a);
    RunLast(s, [a], b);
    RunLast(s, [a] + [b], c);
    RunLast(s, [a] + [b] + [c], d);
    RunLast(s, [a] + [b] + [c] + [d], e);
    assert [] + [a] == [a];
  }

  lemma RunLast(s: System, actions: seq<Action>, a: Action)
    ensures Run(s, actions + [a]) == Next(Run(s, actions), a)
  {
    assert (actions + [a])[..|actions|] == actions;
  }

  /** The system is `s` but for its database, locks, effects, and the process `p`. */
  predicate Beside(s: System, t: System, p: nat) {
    t.procs - {p} == s.procs - {p} && p in t.procs
  }

  lemma Asks(s: System, p: nat, id: RequestId, w: WalletId, op: WalletOp, fails: bool)
    requires p !in s.procs && (op.Deposit? || op.Withdraw?)
    ensures var t := Next(Next(s, Begin(p, id, w, op)), if fails then Throw(p) else Look(p));
            && Beside(s, t, p) && t.db == s.db && t.locks == s.locks
            && t.procs[p] == Process(id, w, op,
                 if fails then Ended(None) else if id in s.db.keys then Ended(Some(s.db.keys[id])) else Locking, false)
  {
  }

  lemma Locks(s: System, p: nat, fails: bool)
    requires p in s.procs && (s.procs[p].pc.Ended? || s.procs[p].pc == Locking)
    ensures var t := Next(s, if fails then Throw(p) else Lock(p));
            var id := s.procs[p].id;
            && Beside(s, t, p) && t.db == s.db
            && t.locks == (if s.procs[p].pc == Locking && !fails && id !in s.locks then s.locks + {id} else s.locks)
            && t.procs[p].id == id && t.procs[p].wallet == s.procs[p].wallet && t.procs[p].op == s.procs[p].op
            && t.procs[p].pc == if s.procs[p].pc.Ended? then s.procs[p].pc
                                else if fails || id in s.locks then Ended(None) else Working
  {
  }

  lemma Works(s: System, p: nat, fails: bool)
    requires p in s.procs && (s.procs[p].pc.Ended? || s.procs[p].pc == Working)
    ensures var t := Next(s, if fails then WorkFails(p) else Work(p));
            var tx := Tx(s, p);
            && Beside(s, t, p) && t.locks == s.locks && t.procs[p].id == s.procs[p].id
            && t.db == (if s.procs[p].pc == Working && !fails && tx.Success? then tx.value.0 else s.db)
            && t.procs[p].pc == if s.procs[p].pc.Ended? then s.procs[p].pc
                                else Closing(if !fails && tx.Success? then Some(tx.value.1) else None)
  {
  }

  lemma Unlocks(s: System, p: nat, fails: bool)
    requires p in s.procs && (s.procs[p].pc.Ended? || s.procs[p].pc.Closing?)
    ensures var t := Next(s, if fails then UnlockFails(p) else Unlock(p));
            && Beside(s, t, p) && t.db == s.db
            && t.locks == (if s.procs[p].pc.Closing? && !fails then s.locks - {s.procs[p].id} else s.locks)
            && t.procs[p].pc == if s.procs[p].pc.Ended? then s.procs[p].pc
                                else Ended(if fails then None else s.procs[p].pc.result)
  {
  }

  lemma WorksUnderLock(s: System, p: nat, env: WalletService.DirectEnv)
    requires p in s.procs && (s.procs[p].pc.Ended? || s.procs[p].pc == Working)
    ensures var worked := Next(s, if env.startFails || env.txFails then WorkFails(p) else Work(p));
            var t := Next(worked, if env.LeavesLock() then UnlockFails(p) else Unlock(p));
            && Beside(s, t, p)
            && (s.procs[p].pc.Ended? ==> t.db == s.db && t.locks == s.locks && t.procs[p].pc == s.procs[p].pc)
            && (s.procs[p].pc == Working ==>
                  var (after, r) := WalletService.Worked(s.db, s.procs[p].wallet, s.procs[p].op, Some(s.procs[p].id), env);
                  && t.db == after
                  && t.locks == (if env.LeavesLock() then s.locks else s.locks - {s.procs[p].id})
                  && t.procs[p].pc == Ended(if r.Success? then Some(r.value) else None))
  {
    Works(s, p, env.startFails || env.txFails);
    Unlocks(Next(s, if env.startFails || env.txFails then WorkFails(p) else Work(p)), p, env.LeavesLock());
  }

  /** Whatever other requests are in progress and whatever locks are set: the awaits of one request do to
      database and locks what the service's specification says, answer what it says when the cache
      works, and leave the other requests alone. So the service's lock is the one above. */
  lemma AloneIsServed(s: System, p: nat, w: WalletId, op: WalletOp, id: RequestId, env: WalletService.DirectEnv)
    requires p !in s.procs && (op.Deposit? || op.Withdraw?)
    ensures var t := Run(s, Steps(p, id, w, op, env));
            var (after, answer) := WalletService.Served(s.db, s.locks, w, op, Some(id), env);
            && t.db == after && t.locks == WalletService.LocksAfter(s.db, s.locks, Some(id), env)
            && Beside(s, t, p)
            && (!env.cacheFails ==> t.procs[p].pc == Ended(if answer.Success? then Some(answer.value) else None))
  {
    RunFive(s, Begin(p, id, w, op), if env.lookupFails then Throw(p) else Look(p),
            if env.lockFails then Throw(p) else Lock(p),
            if env.startFails || env.txFails then WorkFails(p) else Work(p),
            if env.LeavesLock() then UnlockFails(p) else Unlock(p));
    Asks(s, p, id, w, op, env.lookupFails);
    var asked := Next(Next(s, Begin(p, id, w, op)), if env.lookupFails then Throw(p) else Look(p));
    Locks(asked, p, env.lockFails);
    var locked := Next(asked, if env.lockFails then Throw(p) else Lock(p));
    WorksUnderLock(locked, p, env);
    assert id !in s.locks ==> s.locks + {id} - {id} == s.locks;
  }
}
