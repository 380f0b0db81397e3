/** The saga entity. Three marks look at the state first; the fourth does not. */
module SagaEntity {
  import opened Basics
  import opened Store

  class TransferSaga {
    const from: WalletId
    const to: WalletId
    const amount: int
    const currency: Currency
    var state: SagaState

    constructor Load(g: Saga)
      ensures Row() == g
    {
      from, to, amount, currency := g.from, g.to, g.amount, g.currency;
      state := g.state;
    }

    function Row(): Saga
      reads this
    {
      Saga(from, to, amount, currency, state)
    }

    method MarkAsDebited() returns (thrown: Option<SagaState>)
      modifies this
      ensures thrown == if old(state) == Pending then None else Some(old(state))
      ensures Row() == if thrown.None? then old(Row()).(state := SagaState.Debited) else old(Row())
    {
      if state != Pending { return Some(state); }
      state := SagaState.Debited;
      thrown := None;
    }

    method MarkAsCompleted() returns (thrown: Option<SagaState>)
      modifies this
      ensures thrown == if old(state) == SagaState.Debited then None else Some(old(state))
      ensures Row() == if thrown.None? then old(Row()).(state := Completed) else old(Row())
    {
      if state != SagaState.Debited { return Some(state); }
      state := Completed;
      thrown := None;
    }

    method MarkAsCompensated() returns (thrown: Option<SagaState>)
      modifies this
      ensures thrown == if old(state) == SagaState.Debited then None else Some(old(state))
      ensures Row() == if thrown.None? then old(Row()).(state := Compensated) else old(Row())
    {
      if state != SagaState.Debited { return Some(state); }
      state := Compensated;
      thrown := None;
    }

    method MarkAsFailed()
      modifies this
      ensures Row() == old(Row()).(state := Failed)
    {
      state := Failed;
    }

    /** The mark that belongs to a leg. */
    method Mark(leg: Leg) returns (thrown: Option<SagaState>)
      modifies this
      ensures thrown == if old(state) == LegNeeds(leg) then None else Some(old(state))
      ensures Row() == if thrown.None? then old(Row()).(state := LegLeaves(leg)) else old(Row())
    {
      match leg
      case Debit => thrown := MarkAsDebited();
      case Pay => thrown := MarkAsCompleted();
      case Refund => thrown := MarkAsCompensated();
    }
  }
}
