/** Transfers that share a request id. They take no request lock and store the answer last, so any number
    of them can pass the lookup: when at most one moves money, and that two can. */
module TransferRepeats {
  import opened Basics
  import opened Wallets
  import opened Store
  import opened Ledger
  import opened SagaSystem
  import AtomicTransfers

  // ---- the sagas of one request ----

  /** A coordinator of the request inserts its saga. */
  predicate Makes(t: State, a: Action, id: RequestId) {
    a.Advance? && a.saga in t.coords && t.coords[a.saga].pc.Creating? && t.coords[a.saga].request == Some(id)
  }

  function Made(s: State, actions: seq<Action>, id: RequestId): set<SagaId>
    decreases |actions|
  {
    if actions == [] then {}
    else
      var before, a := actions[..|actions| - 1], actions[|actions| - 1];
      Made(s, before, id) + (if Makes(Run(s, before), a, id) then {a.saga} else {})
  }

  /** Those that have moved their money. */
  function Done(s: State, actions: seq<Action>, id: RequestId): set<SagaId> {
    Finished(Run(s, actions).db, Made(s, actions, id))
  }

  function Finished(db: Db, sids: set<SagaId>): set<SagaId> {
    set sid <- sids | IsCompleted(db, sid)
  }

  /** The step commits the saga's credit, whether a coordinator or a recovery worker makes it. */
  predicate Credits(t: State, a: Action, sid: SagaId) {
    var act := ActOf(t, a);
    && act.Some? && act.value.RunLeg? && act.value.leg == Pay && act.value.saga == sid
    && LegTx(t.db, sid, Pay, act.value.wallet, act.value.amount).Success?
  }

  predicate CreditsOneOf(t: State, a: Action, sids: set<SagaId>) {
    exists sid <- sids :: Credits(t, a, sid)
  }

  /** Some credit commits while another saga of the same request is COMPLETED. */
  predicate SecondCredit(s: State, actions: seq<Action>, id: RequestId)
    decreases |actions|
  {
    actions != [] &&
    var before, a := actions[..|actions| - 1], actions[|actions| - 1];
    || SecondCredit(s, before, id)
    || (Done(s, before, id) != {} && CreditsOneOf(Run(s, before), a, Made(s, before, id)))
  }

  lemma StepCompletes(t: State, a: Action, sid: SagaId)
    requires CoordsOk(t) && WorkersOk(t)
    ensures IsCompleted(Step(t, a).db, sid) <==> IsCompleted(t.db, sid) || Credits(t, a, sid)
    ensures !(IsCompleted(t.db, sid) && Credits(t, a, sid))
  {
    var act := ActOf(t, a);
    if act.Some? {
      StartedAllowed(t, a);
      AtomicTransfers.LabelCompletes(t.db, act.value, sid);
    }
  }

  lemma MadePending(t: State, a: Action, id: RequestId)
    requires CoordsOk(t) && Makes(t, a, id)
    ensures !IsCompleted(Step(t, a).db, a.saga) && forall sid :: !Credits(t, a, sid)
  {
    assert CoordOk(t.db, a.saga, t.coords[a.saga]);
  }

  lemma FinishedStep(t: State, a: Action, made: set<SagaId>)
    requires CoordsOk(t) && WorkersOk(t)
    ensures var before, after := Finished(t.db, made), Finished(Step(t, a).db, made);
            forall sid <- made ::
              (sid in after <==> sid in before || Credits(t, a, sid)) && !(sid in before && Credits(t, a, sid))
  {
    forall sid <- made
      ensures IsCompleted(Step(t, a).db, sid) <==> IsCompleted(t.db, sid) || Credits(t, a, sid)
      ensures !(IsCompleted(t.db, sid) && Credits(t, a, sid))
    {
      StepCompletes(t, a, sid);
    }
  }

  lemma DoneStep(t: State, a: Action, made: set<SagaId>, id: RequestId)
    requires CoordsOk(t) && WorkersOk(t)
    ensures var before := Finished(t.db, made);
            var after := Finished(Step(t, a).db, made + (if Makes(t, a, id) then {a.saga} else {}));
            && |after| == |before| + (if CreditsOneOf(t, a, made) then 1 else 0)
  {
    var before := Finished(t.db, made);
    var after := Finished(Step(t, a).db, made + (if Makes(t, a, id) then {a.saga} else {}));
    if Makes(t, a, id) {
      MadePending(t, a, id);
    }
    FinishedStep(t, a, made);
    if sid :| sid in made && Credits(t, a, sid) {
      assert after == before + {sid};
    } else {
      assert after == before;
    }
  }

  lemma {:induction false} DoneTally(s: State, actions: seq<Action>, id: RequestId)
    requires Inv(s)
    ensures |Done(s, actions, id)| >= 2 <==> SecondCredit(s, actions, id)
    decreases |actions|
  {
    if actions != [] {
      var before, a := actions[..|actions| - 1], actions[|actions| - 1];
      DoneTally(s, before, id);
      RunKeeps(s, before);
      DoneStep(Run(s, before), a, Made(s, before, id), id);
    }
  }

  /** Over any run, of all transfers with one request id at most one moves money exactly when no credit of
      one commits while another is COMPLETED: nothing between the lookup and the credit asks. */
  lemma OneTransferExactly(s: State, actions: seq<Action>, id: RequestId)
    requires Inv(s)
    ensures |Done(s, actions, id)| <= 1 <==> !SecondCredit(s, actions, id)
  {
    DoneTally(s, actions, id);
  }

  /** A saga that has been inserted, and its coordinator, which belongs to the request. */
  predicate OwnedBy(t: State, id: RequestId, sid: SagaId) {
    sid in t.coords && sid in t.db.sagas && t.coords[sid].request == Some(id)
  }

  /** The saga of a coordinator of the request was inserted by that coordinator. */
  lemma {:induction false} MadeByOwn(s: State, actions: seq<Action>, id: RequestId, sid: SagaId)
    requires Inv(s) && s.coords == map[]
    ensures var t := Run(s, actions);
            OwnedBy(t, id, sid) ==> sid in Made(s, actions, id)
    decreases |actions|
  {
    if actions != [] {
      var before, a := actions[..|actions| - 1], actions[|actions| - 1];
      MadeByOwn(s, before, id, sid);
      RunKeeps(s, before);
      if OwnedBy(Run(s, actions), id, sid) {
        SagaBefore(Run(s, before), a, id, sid);
      }
    }
  }

  lemma SagaBefore(t: State, a: Action, id: RequestId, sid: SagaId)
    requires CoordsOk(t) && WorkersOk(t)
    requires OwnedBy(Step(t, a), id, sid)
    ensures OwnedBy(t, id, sid) || (Makes(t, a, id) && a.saga == sid)
  {
    var act := ActOf(t, a);
    if act.Some? {
      StartedAllowed(t, a);
      ApplyEvolves(t.db, act.value);
    }
  }

  // ---- two transfers, one id ----

  /** The sender can pay, and the receiver, if there is one, can be paid. */
  predicate Solvent(db: Db, from: WalletId, to: WalletId, least: int) {
    && from != to && from in db.wallets && db.wallets[from].status == Active
    && db.wallets[from].dailyLimit.None? && db.wallets[from].balance >= least
    && (to in db.wallets ==> db.wallets[to].status == Active && db.wallets[to].currency == db.wallets[from].currency)
  }

  function Asking(from: WalletId, to: WalletId, amount: int, id: RequestId, pc: Pc): Coord {
    Coord(from, to, amount, Some(id), pc)
  }

  lemma Creates(t: State, sid: SagaId, from: WalletId, to: WalletId, amount: int, id: RequestId, least: int)
    requires sid in t.coords && t.coords[sid] == Asking(from, to, amount, id, Validating)
    requires sid !in t.db.sagas && Solvent(t.db, from, to, least)
    ensures var t' := Step(Step(Step(t, Advance(sid)), Advance(sid)), Advance(sid));
            && Solvent(t'.db, from, to, least) && to in t'.db.wallets
            && t'.coords == t.coords[sid := Asking(from, to, amount, id, Debiting)]
            && t'.db.sagas == t.db.sagas[sid := Saga(from, to, amount, t.db.wallets[from].currency, Pending)]
  {
  }

  lemma Debits(t: State, sid: SagaId, from: WalletId, to: WalletId, amount: int, id: RequestId, least: int)
    requires sid in t.coords && t.coords[sid] == Asking(from, to, amount, id, Debiting)
    requires sid in t.db.sagas && t.db.sagas[sid].state == Pending
    requires Solvent(t.db, from, to, amount + least) && to in t.db.wallets && amount > 0 && least >= 0
    ensures var t' := Step(Step(t, Advance(sid)), Advance(sid));
            && Solvent(t'.db, from, to, least) && to in t'.db.wallets
            && t'.coords == t.coords[sid := Asking(from, to, amount, id, Crediting)]
            && t'.db.sagas == t.db.sagas[sid := t.db.sagas[sid].(state := SagaState.Debited)]
  {
  }

  lemma Pays(t: State, sid: SagaId, from: WalletId, to: WalletId, amount: int, id: RequestId, least: int)
    requires sid in t.coords && t.coords[sid] == Asking(from, to, amount, id, Crediting)
    requires sid in t.db.sagas && t.db.sagas[sid].state == SagaState.Debited
    requires Solvent(t.db, from, to, least) && to in t.db.wallets && amount > 0
    ensures var t' := Step(t, Advance(sid));
            && Solvent(t'.db, from, to, least)
            && t'.coords == t.coords[sid := Asking(from, to, amount, id, CreditCache)]
            && t'.db.sagas == t.db.sagas[sid := t.db.sagas[sid].(state := Completed)]
  {
  }

  lemma Ends(t: State, sid: SagaId, from: WalletId, to: WalletId, amount: int, id: RequestId)
    requires sid in t.coords && t.coords[sid] == Asking(from, to, amount, id, CreditCache)
    ensures var t' := Step(Step(t, Advance(sid)), Advance(sid));
            && t'.db.wallets == t.db.wallets && t'.db.sagas == t.db.sagas
            && t'.coords == t.coords[sid := Asking(from, to, amount, id, Returned)]
  {
  }

  lemma GetsToDebit(s: State, before: seq<Action>, sid: SagaId, from: WalletId, to: WalletId, amount: int, id: RequestId,
                    least: int) returns (actions: seq<Action>)
    requires var t := Run(s, before);
             && sid in t.coords && t.coords[sid] == Asking(from, to, amount, id, Validating)
             && sid !in t.db.sagas && Solvent(t.db, from, to, least)
    ensures var t, t' := Run(s, before), Run(s, actions);
            && Solvent(t'.db, from, to, least) && to in t'.db.wallets
            && t'.coords == t.coords[sid := Asking(from, to, amount, id, Debiting)]
            && sid in t'.db.sagas && t'.db.sagas[sid].state == Pending
            && t'.db.sagas == t.db.sagas[sid := t'.db.sagas[sid]]
  {
    Creates(Run(s, before), sid, from, to, amount, id, least);
    actions := Extend(s, before, Advance(sid));
    actions := Extend(s, actions, Advance(sid));
    actions := Extend(s, actions, Advance(sid));
  }

  lemma GetsToCredit(s: State, before: seq<Action>, sid: SagaId, from: WalletId, to: WalletId, amount: int, id: RequestId,
                     least: int) returns (actions: seq<Action>)
    requires var t := Run(s, before);
             && sid in t.coords && t.coords[sid] == Asking(from, to, amount, id, Validating)
             && sid !in t.db.sagas && Solvent(t.db, from, to, amount + least)
    requires amount > 0 && least >= 0
    ensures var t, t' := Run(s, before), Run(s, actions);
            && Solvent(t'.db, from, to, least) && to in t'.db.wallets
            && t'.coords == t.coords[sid := Asking(from, to, amount, id, Crediting)]
            && sid in t'.db.sagas && t'.db.sagas[sid].state == SagaState.Debited
            && t'.db.sagas == t.db.sagas[sid := t'.db.sagas[sid]]
  {
    actions := GetsToDebit(s, before, sid, from, to, amount, id, amount + least);
    Debits(Run(s, actions), sid, from, to, amount, id, least);
    actions := Extend(s, actions, Advance(sid));
    actions := Extend(s, actions, Advance(sid));
  }

  /** A transfer that has passed the lookup runs to its end. */
  lemma Completes(s: State, before: seq<Action>, sid: SagaId, from: WalletId, to: WalletId, amount: int, id: RequestId,
                  least: int) returns (actions: seq<Action>)
    requires var t := Run(s, before);
             && sid in t.coords && t.coords[sid] == Asking(from, to, amount, id, Validating)
             && sid !in t.db.sagas && Solvent(t.db, from, to, amount + least)
    requires amount > 0 && least >= 0
    ensures var t, t' := Run(s, before), Run(s, actions);
            && Solvent(t'.db, from, to, least)
            && t'.coords == t.coords[sid := Asking(from, to, amount, id, Returned)]
            && IsCompleted(t'.db, sid) && t'.db.sagas == t.db.sagas[sid := t'.db.sagas[sid]]
  {
    actions := GetsToCredit(s, before, sid, from, to, amount, id, least);
    Pays(Run(s, actions), sid, from, to, amount, id, least);
    actions := Extend(s, actions, Advance(sid));
    Ends(Run(s, actions), sid, from, to, amount, id);
    actions := Extend(s, actions, Advance(sid));
    actions := Extend(s, actions, Advance(sid));
  }

  lemma BothLookUp(one: SagaId, two: SagaId, from: WalletId, to: WalletId, amount: int, id: RequestId)
    returns (actions: seq<Action>)
    requires one != two && from != to && amount > 0
    ensures var t := Run(INITIAL, actions);
            && t.coords == map[one := Asking(from, to, amount, id, Validating),
                               two := Asking(from, to, amount, id, Validating)]
            && t.db.sagas == map[] && Solvent(t.db, from, to, amount + amount)
  {
    actions := Extend(INITIAL, [], Submit(from, Deposit(amount + amount), None));
    assert Run(INITIAL, actions).coords == map[] && Run(INITIAL, actions).db.keys == map[];
    var db := Run(INITIAL, actions).db;
    actions := Extend(INITIAL, actions, Begin(one, from, to, amount, Some(id)));
    actions := Extend(INITIAL, actions, Advance(one));
    assert Run(INITIAL, actions).coords == map[one := Asking(from, to, amount, id, Validating)];
    actions := Extend(INITIAL, actions, Begin(two, from, to, amount, Some(id)));
    actions := Extend(INITIAL, actions, Advance(two));
    assert Run(INITIAL, actions).db == db;
  }

  lemma BothMade(actions: seq<Action>, id: RequestId, one: SagaId, two: SagaId)
    requires one != two
    requires var t := Run(INITIAL, actions);
             && one in t.coords && two in t.coords && t.coords[one].request == t.coords[two].request == Some(id)
             && IsCompleted(t.db, one) && IsCompleted(t.db, two)
    ensures {one, two} <= Done(INITIAL, actions, id) && SecondCredit(INITIAL, actions, id)
  {
    InitialInv();
    MadeByOwn(INITIAL, actions, id, one);
    MadeByOwn(INITIAL, actions, id, two);
    var done := Done(INITIAL, actions, id);
    assert done == {one, two} + (done - {one, two});
    DoneTally(INITIAL, actions, id);
  }

  /** Two coordinators look the same id up before either has stored an answer. Both transfers complete, and
      both clients are told so. */
  lemma OverlappingTransfersBothComplete(one: SagaId, two: SagaId, from: WalletId, to: WalletId, amount: int, id: RequestId)
    returns (actions: seq<Action>)
    requires one != two && from != to && amount > 0
    ensures var t := Run(INITIAL, actions);
            && one in t.coords && t.coords[one] == Asking(from, to, amount, id, Returned)
            && two in t.coords && t.coords[two] == Asking(from, to, amount, id, Returned)
    ensures {one, two} <= Done(INITIAL, actions, id) && SecondCredit(INITIAL, actions, id)
  {
    actions := BothLookUp(one, two, from, to, amount, id);
    actions := Completes(INITIAL, actions, one, from, to, amount, id, amount);
    actions := Completes(INITIAL, actions, two, from, to, amount, id, 0);
    BothMade(actions, id, one, two);
  }
}
