/** The wallet entity: its row, what each operation does to the row, and the
    mutable object the services load, change and save. */
module Wallets {
  import opened Basics

  datatype WalletStatus = Active | Frozen | Closed

  datatype WalletError =
    | InvalidAmount(amount: int)
    | NotActive(status: WalletStatus)
    | InsufficientFunds(balance: int, requested: int)
    | LimitExceeded(requested: int, limit: int)
    | WalletClosed
    | NonZeroBalance(remaining: int)

  datatype WalletRow = WalletRow(
    balance: int,
    currency: Currency,
    status: WalletStatus,
    dailyLimit: Option<int>,
    dailyTotal: int,
    lastDay: Option<int>)

  datatype WalletOp =
    | Deposit(amount: int)
    | Withdraw(amount: int)
    | Credit(amount: int)
    | Freeze
    | Unfreeze
    | Close
    | SetLimit(limit: Option<int>)

  function NewRow(currency: Currency): WalletRow {
    WalletRow(0, currency, Active, None, 0, None)
  }

  /** What the row says was withdrawn on `day`: a total left over from another day counts as zero. */
  function EffectiveTotal(row: WalletRow, day: int): int {
    if row.lastDay == Some(day) then row.dailyTotal else 0
  }

  predicate WithinLimit(row: WalletRow, amount: int, today: int) {
    row.dailyLimit.Some? ==> EffectiveTotal(row, today) + amount <= row.dailyLimit.value
  }

  /** The row an operation leaves behind, or the error it throws. */
  function ApplyOp(row: WalletRow, op: WalletOp, today: int): Result<WalletRow, WalletError> {
    match op
    case Deposit(a) => Added(row, a)
    case Credit(a) => Added(row, a)
    case Withdraw(a) =>
      if a <= 0 then Failure(InvalidAmount(a))
      else if row.status != Active then Failure(NotActive(row.status))
      else if !WithinLimit(row, a, today) then Failure(LimitExceeded(a, row.dailyLimit.value))
      else if row.balance < a then Failure(InsufficientFunds(row.balance, a))
      else Success(row.(balance := row.balance - a,
                        dailyTotal := EffectiveTotal(row, today) + a,
                        lastDay := Some(today)))
    case Freeze =>
      if row.status == Closed then Failure(WalletClosed) else Success(row.(status := Frozen))
    case Unfreeze =>
      Success(if row.status == Frozen then row.(status := Active) else row)
    case Close =>
      if row.balance != 0 then Failure(NonZeroBalance(row.balance)) else Success(row.(status := Closed))
    case SetLimit(l) =>
      if l.Some? && l.value <= 0 then Failure(InvalidAmount(l.value)) else Success(row.(dailyLimit := l))
  }

  function Added(row: WalletRow, amount: int): Result<WalletRow, WalletError> {
    if amount <= 0 then Failure(InvalidAmount(amount))
    else if row.status != Active then Failure(NotActive(row.status))
    else Success(row.(balance := row.balance + amount))
  }

  // ---- what the operations promise ----

  /** Money can be put into an active wallet, in a positive amount, and changes nothing but its balance. */
  lemma AddingExactly(row: WalletRow, op: WalletOp, today: int)
    requires op.Deposit? || op.Credit?
    ensures var r, a := ApplyOp(row, op, today), op.amount;
            && (r.Success? <==> a > 0 && row.status == Active)
            && (forall e :: r == Failure(e) <==>
                  (e == InvalidAmount(a) && a <= 0) || (e == NotActive(row.status) && a > 0 && row.status != Active))
            && (r.Success? ==> r.value.balance == row.balance + a && r.value.(balance := row.balance) == row)
  {
  }

  /** Each refusal of a withdrawal, and when it comes: the amount first, then the status, the limit, and
      the funds last. A withdrawal of exactly the balance, or of exactly what the limit leaves, succeeds. */
  predicate Refuses(row: WalletRow, a: int, today: int, e: WalletError) {
    var taken := if row.lastDay == Some(today) then row.dailyTotal else 0;
    var over := row.dailyLimit.Some? && taken + a > row.dailyLimit.value;
    match e
    case InvalidAmount(x) => x == a <= 0
    case NotActive(st) => a > 0 && st == row.status != Active
    case LimitExceeded(x, limit) => a > 0 && row.status == Active && over && x == a && row.dailyLimit == Some(limit)
    case InsufficientFunds(b, x) => a > 0 && row.status == Active && !over && b == row.balance < a == x
    case _ => false
  }

  lemma WithdrawingExactly(row: WalletRow, a: int, today: int)
    ensures var r := ApplyOp(row, Withdraw(a), today);
            && (forall e :: r == Failure(e) <==> Refuses(row, a, today, e))
            && (r.Success? <==>
                  && a > 0 && row.status == Active && row.balance >= a
                  && (row.dailyLimit.Some? ==> EffectiveTotal(row, today) + a <= row.dailyLimit.value))
            && (r.Success? ==>
                  && r.value.balance == row.balance - a >= 0
                  && EffectiveTotal(r.value, today) == EffectiveTotal(row, today) + a
                  && (forall d | d != today :: EffectiveTotal(r.value, d) == 0)
                  && r.value.(balance := row.balance, dailyTotal := row.dailyTotal, lastDay := row.lastDay) == row)
  {
  }

  /** Closing takes an empty wallet and freezing one that is not closed; unfreezing undoes a freeze and
      nothing else; a limit is stored if it is positive, or lifted. */
  lemma StatusExactly(row: WalletRow, op: WalletOp, today: int)
    ensures op.Close? ==>
              && (ApplyOp(row, op, today) == Success(row.(status := Closed)) <==> row.balance == 0)
              && (ApplyOp(row, op, today) == Failure(NonZeroBalance(row.balance)) <==> row.balance != 0)
    ensures op.Freeze? ==>
              && (ApplyOp(row, op, today) == Success(row.(status := Frozen)) <==> row.status != Closed)
              && (ApplyOp(row, op, today) == Failure(WalletClosed) <==> row.status == Closed)
    ensures op.Unfreeze? ==>
              ApplyOp(row, op, today).Success?
              && ApplyOp(row, op, today).value.status == (if row.status == Closed then Closed else Active)
              && ApplyOp(row, op, today).value.(status := row.status) == row
    ensures op.SetLimit? ==>
              && (ApplyOp(row, op, today) == Success(row.(dailyLimit := op.limit)) <==> op.limit.None? || op.limit.value > 0)
              && (op.limit.Some? && op.limit.value <= 0 <==> ApplyOp(row, op, today).Failure?)
              && (ApplyOp(row, op, today).Failure? ==> ApplyOp(row, op, today).error == InvalidAmount(op.limit.value))
  {
  }

  /** What one operation does the next undoes: money put in can be taken out again, unless a limit or an
      earlier withdrawal of the day stands against it, and a freeze lifted. */
  lemma OperationsUndo(row: WalletRow, a: int, today: int)
    requires row.status == Active
    ensures a > 0 && WithinLimit(row, a, today) && row.balance >= 0 ==>
              var put := ApplyOp(row, Deposit(a), today);
              && put.Success? && ApplyOp(put.value, Withdraw(a), today).Success?
              && ApplyOp(put.value, Withdraw(a), today).value.balance == row.balance
    ensures var frozen := ApplyOp(row, Freeze, today);
            && frozen.Success? && ApplyOp(frozen.value, Unfreeze, today) == Success(row)
            && ApplyOp(frozen.value, Deposit(a), today).Failure? && ApplyOp(frozen.value, Credit(a), today).Failure?
            && ApplyOp(frozen.value, Withdraw(a), today).Failure?
  {
  }

  /** A closed wallet stays closed, whatever is asked of it, and keeps the balance it was closed with. */
  lemma ClosedIsForever(row: WalletRow, op: WalletOp, today: int)
    requires row.status == Closed
    ensures var r := ApplyOp(row, op, today);
            r.Success? ==> r.value.status == Closed && r.value.balance == row.balance
  {
  }

  /** The loaded entity. Its methods work field by field, the way the service uses them. */
  class Wallet {
    const currency: Currency
    var balance: int
    var status: WalletStatus
    var dailyLimit: Option<int>
    var dailyTotal: int
    var lastDay: Option<int>

    constructor Load(row: WalletRow)
      ensures Row() == row
    {
      currency := row.currency;
      balance, status := row.balance, row.status;
      dailyLimit, dailyTotal, lastDay := row.dailyLimit, row.dailyTotal, row.lastDay;
    }

    function Row(): WalletRow
      reads this
    {
      WalletRow(balance, currency, status, dailyLimit, dailyTotal, lastDay)
    }

    /** The exception, if any, that the operation throws; the new row otherwise. */
    ghost predicate Did(before: WalletRow, op: WalletOp, today: int, thrown: Option<WalletError>)
      reads this
    {
      ApplyOp(before, op, today) == match thrown case None => Success(Row()) case Some(e) => Failure(e)
    }

    method DoDeposit(amount: int, today: int) returns (thrown: Option<WalletError>)
      modifies this
      ensures Did(old(Row()), Deposit(amount), today, thrown)
      ensures thrown.Some? ==> Row() == old(Row())
    {
      if amount <= 0 { return Some(InvalidAmount(amount)); }
      if status != Active { return Some(NotActive(status)); }
      balance := balance + amount;
      thrown := None;
    }

    method DoCredit(amount: int, today: int) returns (thrown: Option<WalletError>)
      modifies this
      ensures Did(old(Row()), Credit(amount), today, thrown)
      ensures thrown.Some? ==> Row() == old(Row())
    {
      if amount <= 0 { return Some(InvalidAmount(amount)); }
      if status != Active { return Some(NotActive(status)); }
      balance := balance + amount;
      thrown := None;
    }

    /** A refused withdrawal may already have reset a total left over from an earlier day;
        what the entity says about today is unchanged. */
    method DoWithdraw(amount: int, today: int) returns (thrown: Option<WalletError>)
      modifies this
      ensures Did(old(Row()), Withdraw(amount), today, thrown)
      ensures thrown.Some? ==> Row().(dailyTotal := old(dailyTotal)) == old(Row())
      ensures thrown.Some? ==> EffectiveTotal(Row(), today) == EffectiveTotal(old(Row()), today)
    {
      if amount <= 0 { return Some(InvalidAmount(amount)); }
      if status != Active { return Some(NotActive(status)); }
      if lastDay != Some(today) {
        dailyTotal := 0;
      }
      if dailyLimit.Some? && dailyTotal + amount > dailyLimit.value {
        return Some(LimitExceeded(amount, dailyLimit.value));
      }
      if balance < amount { return Some(InsufficientFunds(balance, amount)); }
      balance := balance - amount;
      dailyTotal := dailyTotal + amount;
      lastDay := Some(today);
      thrown := None;
    }

    method DoFreeze(today: int) returns (thrown: Option<WalletError>)
      modifies this
      ensures Did(old(Row()), Freeze, today, thrown)
      ensures thrown.Some? ==> Row() == old(Row())
    {
      if status == Closed { return Some(WalletClosed); }
      status := Frozen;
      thrown := None;
    }

    method DoUnfreeze(today: int) returns (thrown: Option<WalletError>)
      modifies this
      ensures Did(old(Row()), Unfreeze, today, thrown)
    {
      if status == Frozen {
        status := Active;
      }
      thrown := None;
    }

    method DoClose(today: int) returns (thrown: Option<WalletError>)
      modifies this
      ensures Did(old(Row()), Close, today, thrown)
      ensures thrown.Some? ==> Row() == old(Row())
    {
      if balance != 0 { return Some(NonZeroBalance(balance)); }
      status := Closed;
      thrown := None;
    }

    method DoSetLimit(limit: Option<int>, today: int) returns (thrown: Option<WalletError>)
      modifies this
      ensures Did(old(Row()), SetLimit(limit), today, thrown)
      ensures thrown.Some? ==> Row() == old(Row())
    {
      if limit.Some? && limit.value <= 0 { return Some(InvalidAmount(limit.value)); }
      dailyLimit := limit;
      thrown := None;
    }

    /** One entry point, for the callbacks the services pass around. */
    method Perform(op: WalletOp, today: int) returns (thrown: Option<WalletError>)
      modifies this
      ensures Did(old(Row()), op, today, thrown)
    {
      match op
      case Deposit(a) => thrown := DoDeposit(a, today);
      case Withdraw(a) => thrown := DoWithdraw(a, today);
      case Credit(a) => thrown := DoCredit(a, today);
      case Freeze => thrown := DoFreeze(today);
      case Unfreeze => thrown := DoUnfreeze(today);
      case Close => thrown := DoClose(today);
      case SetLimit(l) => thrown := DoSetLimit(l, today);
    }

    /** Pre-validation of a debit. It compares the amount alone with the limit. */
    predicate CanDebit(amount: int)
      reads this
    {
      && status == Active
      && balance >= amount
      && amount > 0
      && (dailyLimit.Some? ==> amount <= dailyLimit.value)
    }

    /** The pre-validation is necessary for a withdrawal; what is missing is exactly today's total. */
    lemma CanDebitIsNotEnough(amount: int, today: int)
      requires EffectiveTotal(Row(), today) >= 0
      ensures ApplyOp(Row(), Withdraw(amount), today).Success?
         <==> CanDebit(amount) && WithinLimit(Row(), amount, today)
    {
    }
  }
}
