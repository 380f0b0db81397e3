/** What holds in every state of every run of the system: ledgers, final states, answers,
    replay and outbox. */
module Guarantees {
  import opened Basics
  import opened Wallets
  import opened Store
  import opened Ledger
  import opened SagaSystem

  // ---- sagas ----

  /** The events carrying a saga's id are exactly those its state stands for, whatever was
      retried, recovered or raced: it is debited at most once, and then either still
      owed, or paid once, or refunded once. */
  lemma SagaLedgerExact(s: State, actions: seq<Action>, sid: SagaId)
    requires Inv(s)
    ensures var db := Run(s, actions).db;
            var moves := OfSaga(db.events, sid);
            if sid !in db.sagas then moves == []
            else
              var g := db.sagas[sid];
              var out := Move(g.from, FundsWithdrawn, Some(g.amount));
              && (g.state == Pending || g.state == Failed <==> moves == [])
              && (g.state == Debited <==> moves == [out])
              && (g.state == Completed <==> moves == [out, Move(g.to, FundsDeposited, Some(g.amount))])
              && (g.state == Compensated <==> moves == [out, Move(g.from, TransferCompensated, Some(g.amount))])
              && (moves != [] ==> g.amount > 0 && g.from != g.to)
  {
    RunKeeps(s, actions);
    var db := Run(s, actions).db;
    if sid in db.sagas {
      assert SagaShape(db.wallets, db.sagas[sid]);
      assert OfSaga(db.events, sid) == ExpectedMoves(db.sagas[sid]);
    }
  }

  predicate Terminal(st: SagaState) {
    st == Completed || st == Compensated || st == Failed
  }

  /** The states a saga can be found in later. */
  predicate Reaches(st: SagaState, later: SagaState) {
    match st
    case Pending => true
    case Debited => later != Pending && later != Failed
    case _ => later == st
  }

  ghost predicate Later(g: Saga, later: map<SagaId, Saga>, sid: SagaId) {
    && sid in later
    && later[sid].(state := g.state) == g
    && Reaches(g.state, later[sid].state)
  }

  lemma StepLater(g: Saga, t: State, a: Action, sid: SagaId)
    requires CoordsOk(t) && WorkersOk(t) && Later(g, t.db.sagas, sid)
    ensures Later(g, Step(t, a).db.sagas, sid)
  {
    var act := ActOf(t, a);
    if act.Some? {
      StartedAllowed(t, a);
      ApplyEvolves(t.db, act.value);
    }
  }

  lemma {:induction false} RunLater(s: State, actions: seq<Action>, sid: SagaId)
    requires Inv(s) && sid in s.db.sagas
    ensures Later(s.db.sagas[sid], Run(s, actions).db.sagas, sid)
    decreases |actions|
  {
    if actions != [] {
      RunLater(s, actions[..|actions| - 1], sid);
      RunKeeps(s, actions[..|actions| - 1]);
      StepLater(s.db.sagas[sid], Run(s, actions[..|actions| - 1]), actions[|actions| - 1], sid);
    }
  }

  /** A saga row is never lost or edited, a terminal state never changes, and FAILED is
      reached from PENDING alone, although the mark itself is unguarded. */
  lemma SagaHistory(s: State, actions: seq<Action>, sid: SagaId)
    requires Inv(s) && sid in s.db.sagas
    ensures var later := Run(s, actions).db.sagas;
            && sid in later
            && later[sid].(state := s.db.sagas[sid].state) == s.db.sagas[sid]
            && Reaches(s.db.sagas[sid].state, later[sid].state)
            && (Terminal(s.db.sagas[sid].state) ==> later[sid] == s.db.sagas[sid])
            && (later[sid].state == Failed ==> s.db.sagas[sid].state in {Pending, Failed})
  {
    RunLater(s, actions, sid);
  }

  lemma AnsweredTrue(t: State, sid: SagaId)
    requires CoordsOk(t) && sid in t.coords
    ensures t.coords[sid].pc == Returned ==> ReplyTrue(t.db, OwnReply(sid, t.coords[sid]))
    ensures t.coords[sid].pc.Replied? ==> ReplyTrue(t.db, t.coords[sid].pc.reply)
  {
    assert CoordOk(t.db, sid, t.coords[sid]);
  }

  lemma ReplyLasts(t: State, reply: Reply, more: seq<Action>)
    requires Inv(t) && ReplyTrue(t.db, reply)
    ensures ReplyTrue(Run(t, more).db, reply)
  {
    if reply.TransferReply? {
      SagaHistory(t, more, reply.saga);
    }
  }

  /** An answer given to a client is true of the database, then and for ever after. */
  lemma AnswersAreTrue(s: State, actions: seq<Action>, sid: SagaId, more: seq<Action>)
    requires Inv(s)
    requires sid in Run(s, actions).coords
    ensures var c := Run(s, actions).coords[sid];
            var later := Run(Run(s, actions), more).db;
            && (c.pc == Returned ==> ReplyTrue(later, OwnReply(sid, c)))
            && (c.pc.Replied? ==> ReplyTrue(later, c.pc.reply))
  {
    RunKeeps(s, actions);
    var t := Run(s, actions);
    AnsweredTrue(t, sid);
    if t.coords[sid].pc == Returned {
      ReplyLasts(t, OwnReply(sid, t.coords[sid]), more);
    } else if t.coords[sid].pc.Replied? {
      ReplyLasts(t, t.coords[sid].pc.reply, more);
    }
  }

  // ---- wallets ----

  lemma {:induction false} OverdrawnNever(es: seq<Event>, k: nat)
    requires NeverOverdrawn(es) && k <= |es|
    ensures Replay(es[..k]) >= 0
    decreases |es|
  {
    if k == |es| {
      assert es[..k] == es;
    } else {
      OverdrawnNever(es[..|es| - 1], k);
      assert es[..|es| - 1][..k] == es[..k];
    }
  }

  lemma {:induction false} CreationFirst(es: seq<Event>, i: nat)
    requires CreatedOnce(es) && i < |es|
    ensures es[i].kind == WalletCreated <==> i == 0
    decreases |es|
  {
    if |es| > 1 {
      if i < |es| - 1 {
        CreationFirst(es[..|es| - 1], i);
      }
      CreationFirst(es[..|es| - 1], 0);
    }
  }

  lemma {:induction false} OneCurrency(es: seq<Event>, i: nat, c: Currency)
    requires InCurrency(es, c) && i < |es|
    ensures es[i].currency == c
    decreases |es|
  {
    if i < |es| - 1 {
      OneCurrency(es[..|es| - 1], i, c);
    }
  }

  /** A wallet's log starts with its only creation, is in its currency, replays to the stored balance and
      status and says whether a daily limit is in force, and no prefix of it replays to less than nothing.
      A wallet that does not exist has no log. */
  lemma ReplayIsBalance(s: State, actions: seq<Action>, w: WalletId)
    requires Inv(s)
    ensures var db := Run(s, actions).db;
            var es := OfWallet(db.events, w);
            if w !in db.wallets then es == []
            else
              && es != []
              && (forall i | 0 <= i < |es| :: es[i].kind == WalletCreated <==> i == 0)
              && Replay(es) == db.wallets[w].balance
              && ReplayStatus(es) == db.wallets[w].status
              && ReplayLimited(es) == db.wallets[w].dailyLimit.Some?
              && (forall i | 0 <= i < |es| :: es[i].currency == db.wallets[w].currency)
              && (forall k | 0 <= k <= |es| :: Replay(es[..k]) >= 0)
  {
    RunKeeps(s, actions);
    var db := Run(s, actions).db;
    var es := OfWallet(db.events, w);
    if w in db.wallets {
      assert LedgerOk(db.wallets[w], es, db.today);
      forall i | 0 <= i < |es|
        ensures es[i].kind == WalletCreated <==> i == 0
      {
        CreationFirst(es, i);
      }
      forall i | 0 <= i < |es|
        ensures es[i].currency == db.wallets[w].currency
      {
        OneCurrency(es, i, db.wallets[w].currency);
      }
      forall k | 0 <= k <= |es|
        ensures Replay(es[..k]) >= 0
      {
        OverdrawnNever(es, k);
      }
    }
  }

  /** The balance query of the design document: it counts deposits and withdrawals alone. */
  function DesignQuery(es: seq<Event>): int {
    if es == [] then 0
    else
      var e := es[|es| - 1];
      DesignQuery(es[..|es| - 1]) + (if e.kind == TransferCompensated then 0 else Signed(e))
  }

  predicate Refunded(es: seq<Event>) {
    es != [] && ((es[|es| - 1].kind == TransferCompensated && es[|es| - 1].amount.Some?) || Refunded(es[..|es| - 1]))
  }

  lemma {:induction false} QueryMissesRefunds(es: seq<Event>)
    requires Positive(es)
    ensures DesignQuery(es) <= Replay(es)
    ensures DesignQuery(es) == Replay(es) <==> !Refunded(es)
  {
    if es != [] {
      QueryMissesRefunds(es[..|es| - 1]);
    }
  }

  lemma AppendOnly(db: Db, act: Act)
    ensures db.events <= Apply(db, act).events
  {
  }

  lemma {:induction false} WalletLogJoins(es: seq<Event>, more: seq<Event>, w: WalletId)
    ensures OfWallet(es + more, w) == OfWallet(es, w) + OfWallet(more, w)
    decreases |more|
  {
    if more == [] {
      assert es + more == es;
    } else {
      WalletLogJoins(es, more[..|more| - 1], w);
      assert (es + more)[..|es + more| - 1] == es + more[..|more| - 1];
    }
  }

  /** A wallet's log only grows at its end. */
  lemma {:induction false} LogGrows(s: State, actions: seq<Action>, w: WalletId)
    ensures s.db.events <= Run(s, actions).db.events
    ensures OfWallet(s.db.events, w) <= OfWallet(Run(s, actions).db.events, w)
    decreases |actions|
  {
    if actions != [] {
      var before, a := actions[..|actions| - 1], actions[|actions| - 1];
      LogGrows(s, before, w);
      var act := ActOf(Run(s, before), a);
      if act.Some? {
        AppendOnly(Run(s, before).db, act.value);
      }
    }
    var es, later := s.db.events, Run(s, actions).db.events;
    WalletLogJoins(es, later[|es|..], w);
    assert later == es + later[|es|..];
  }

  lemma QueryNow(db: Db, w: WalletId)
    requires DbInv(db) && w in db.wallets
    ensures QueryRight(OfWallet(db.events, w), db.wallets[w].balance)
  {
    assert LedgerOk(db.wallets[w], OfWallet(db.events, w), db.today);
    QueryMissesRefunds(OfWallet(db.events, w));
  }

  /** The query over a log gives a balance exactly if there is no refund in the log. */
  predicate QueryRight(es: seq<Event>, balance: int) {
    DesignQuery(es) == balance <==> !Refunded(es)
  }

  lemma CutOff(now: seq<Event>, later: seq<Event>)
    requires now <= later
    ensures later[..|now|] == now
  {
  }

  /** That query, asked at any later time for the balance at an earlier one, cuts the log off where it
      ended then. It gives the balance of that time exactly if the wallet had received no refund
      by then. */
  lemma DesignQueryExactly(s: State, actions: seq<Action>, more: seq<Action>, w: WalletId)
    requires Inv(s) && w in Run(s, actions).db.wallets
    ensures var db := Run(s, actions).db;
            var es, cutoff := OfWallet(Run(Run(s, actions), more).db.events, w), |OfWallet(db.events, w)|;
            && cutoff <= |es|
            && (DesignQuery(es[..cutoff]) == db.wallets[w].balance <==> !Refunded(es[..cutoff]))
  {
    RunKeeps(s, actions);
    var t := Run(s, actions);
    LogGrows(t, more, w);
    CutOff(OfWallet(t.db.events, w), OfWallet(Run(t, more).db.events, w));
    QueryNow(t.db, w);
  }

  /** No wallet is closed with money in it. */
  predicate ClosedEmpty(wallets: map<WalletId, WalletRow>) {
    forall w <- wallets :: wallets[w].status == Closed ==> wallets[w].balance == 0
  }

  lemma OpKeepsEmpty(row: WalletRow, op: WalletOp, today: int)
    requires row.status == Closed ==> row.balance == 0
    ensures var r := ApplyOp(row, op, today); r.Success? && r.value.status == Closed ==> r.value.balance == 0
  {
  }

  lemma ApplyKeepsEmpty(db: Db, act: Act)
    requires ClosedEmpty(db.wallets)
    ensures ClosedEmpty(Apply(db, act).wallets)
  {
    match act
    case OnWallet(w, op, _) => OpKeepsEmpty(if w in db.wallets then db.wallets[w] else NewRow(USD), op, db.today);
    case RunLeg(_, leg, w, amount) => if w in db.wallets { OpKeepsEmpty(db.wallets[w], LegOp(leg, amount), db.today); }
    case _ =>
  }

  /** Money never gets shut in: over every run a closed wallet is empty. */
  lemma {:induction false} ClosedStayEmpty(s: State, actions: seq<Action>)
    requires ClosedEmpty(s.db.wallets)
    ensures ClosedEmpty(Run(s, actions).db.wallets)
    decreases |actions|
  {
    if actions != [] {
      ClosedStayEmpty(s, actions[..|actions| - 1]);
      var act := ActOf(Run(s, actions[..|actions| - 1]), actions[|actions| - 1]);
      if act.Some? {
        ApplyKeepsEmpty(Run(s, actions[..|actions| - 1]).db, act.value);
      }
    }
  }

  // ---- outbox ----

  /** Without the two saga lifecycle messages the outbox is the event log without wallet
      creations, row for row and in order; every saga was announced once, and its
      completion once exactly when it completed. */
  lemma OutboxFollowsLog(s: State, actions: seq<Action>)
    requires Inv(s)
    ensures var db := Run(s, actions).db;
            && Mirrored(db.outbox) == Mirrors(db.events)
            && (forall sid :: CountRows(db.outbox, TransferInitiated, sid) == if sid in db.sagas then 1 else 0)
            && (forall sid :: CountRows(db.outbox, TransferCompleted, sid)
                           == if sid in db.sagas && db.sagas[sid].state == Completed then 1 else 0)
  {
    RunKeeps(s, actions);
  }
}
