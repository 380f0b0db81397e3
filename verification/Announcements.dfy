/** What somebody who reads nothing but the outbox can know. */
module Announcements {
  import opened Basics
  import opened Wallets
  import opened Store
  import opened Ledger
  import opened SagaSystem

  // ---- reading the outbox ----

  function Says(r: OutboxRow): int {
    match r.amount
    case None => 0
    case Some(a) =>
      match r.kind
      case FundsDeposited => a
      case TransferCompensated => a
      case FundsWithdrawn => -a
      case _ => 0
  }

  /** Adding up the messages about a wallet: deposits and refunds come in, withdrawals go out. */
  function Announced(outbox: seq<OutboxRow>, w: WalletId): int {
    if outbox == [] then 0
    else
      var r := outbox[|outbox| - 1];
      Announced(outbox[..|outbox| - 1], w) + (if r.aggregate == w then Says(r) else 0)
  }

  function AnnouncedStatus(outbox: seq<OutboxRow>, w: WalletId): WalletStatus {
    if outbox == [] then Active
    else
      var r := outbox[|outbox| - 1];
      var before := AnnouncedStatus(outbox[..|outbox| - 1], w);
      if r.aggregate == w then StatusAfter(before, r.kind) else before
  }

  predicate AnnouncedLimited(outbox: seq<OutboxRow>, w: WalletId) {
    outbox != [] &&
    var r := outbox[|outbox| - 1];
    var before := AnnouncedLimited(outbox[..|outbox| - 1], w);
    if r.aggregate == w then LimitedAfter(before, r.kind) else before
  }

  /** The money movements announced with a saga's id. */
  function AnnouncedMoves(outbox: seq<OutboxRow>, sid: SagaId): seq<Move> {
    if outbox == [] then []
    else
      var r := outbox[|outbox| - 1];
      AnnouncedMoves(outbox[..|outbox| - 1], sid)
      + (if r.saga == Some(sid) && !Lifecycle(r.kind) then [Move(r.aggregate, r.kind, r.amount)] else [])
  }

  // ---- the messages of the log ----

  /** The message of an event says what the event did. */
  lemma MessageSays(e: Event)
    ensures Mirror(e).aggregate == e.wallet && Says(Mirror(e)) == Signed(e)
  {
  }

  /** What one more message adds. */
  lemma AnnouncedLast(rows: seq<OutboxRow>, r: OutboxRow, w: WalletId)
    ensures Announced(rows + [r], w) == Announced(rows, w) + (if r.aggregate == w then Says(r) else 0)
    ensures AnnouncedStatus(rows + [r], w)
         == if r.aggregate == w then StatusAfter(AnnouncedStatus(rows, w), r.kind) else AnnouncedStatus(rows, w)
    ensures AnnouncedLimited(rows + [r], w)
         == if r.aggregate == w then LimitedAfter(AnnouncedLimited(rows, w), r.kind) else AnnouncedLimited(rows, w)
  {
    assert (rows + [r])[..|rows|] == rows;
  }

  lemma OwnLast(es: seq<Event>, e: Event, w: WalletId)
    ensures OfWallet(es + [e], w) == OfWallet(es, w) + (if e.wallet == w then [e] else [])
  {
    assert (es + [e])[..|es|] == es;
  }

  lemma ReplayLast(es: seq<Event>, e: Event, w: WalletId)
    ensures Replay(OfWallet(es + [e], w)) == Replay(OfWallet(es, w)) + (if e.wallet == w then Signed(e) else 0)
    ensures ReplayStatus(OfWallet(es + [e], w))
         == if e.wallet == w then StatusAfter(ReplayStatus(OfWallet(es, w)), e.kind) else ReplayStatus(OfWallet(es, w))
    ensures ReplayLimited(OfWallet(es + [e], w))
         == if e.wallet == w then LimitedAfter(ReplayLimited(OfWallet(es, w)), e.kind) else ReplayLimited(OfWallet(es, w))
  {
    var own := OfWallet(es, w);
    OwnLast(es, e, w);
    assert (own + [e])[..|own|] == own && own + [] == own;
  }

  lemma MirrorsLast(es: seq<Event>, e: Event)
    ensures Mirrors(es + [e]) == if e.kind == WalletCreated then Mirrors(es) else Mirrors(es) + [Mirror(e)]
  {
    assert (es + [e])[..|es|] == es && Mirrors(es) + [] == Mirrors(es);
  }

  lemma {:induction false} LogAnnounces(es: seq<Event>, w: WalletId)
    ensures Announced(Mirrors(es), w) == Replay(OfWallet(es, w))
    ensures AnnouncedStatus(Mirrors(es), w) == ReplayStatus(OfWallet(es, w))
    ensures AnnouncedLimited(Mirrors(es), w) == ReplayLimited(OfWallet(es, w))
  {
    if es != [] {
      var front, e := es[..|es| - 1], es[|es| - 1];
      LogAnnounces(front, w);
      assert es == front + [e];
      MirrorsLast(front, e);
      ReplayLast(front, e, w);
      AnnouncedLast(Mirrors(front), Mirror(e), w);
      MessageSays(e);
    }
  }

  lemma MirroredLast(rows: seq<OutboxRow>, r: OutboxRow)
    ensures Mirrored(rows + [r]) == if Lifecycle(r.kind) then Mirrored(rows) else Mirrored(rows) + [r]
  {
    assert (rows + [r])[..|rows|] == rows && Mirrored(rows) + [] == Mirrored(rows);
  }

  /** The two saga messages say nothing about wallets. */
  lemma {:induction false} LifecycleIsSilent(outbox: seq<OutboxRow>, w: WalletId)
    ensures Announced(Mirrored(outbox), w) == Announced(outbox, w)
    ensures AnnouncedStatus(Mirrored(outbox), w) == AnnouncedStatus(outbox, w)
    ensures AnnouncedLimited(Mirrored(outbox), w) == AnnouncedLimited(outbox, w)
  {
    if outbox != [] {
      var front, r := outbox[..|outbox| - 1], outbox[|outbox| - 1];
      LifecycleIsSilent(front, w);
      assert outbox == front + [r];
      MirroredLast(front, r);
      AnnouncedLast(front, r, w);
      AnnouncedLast(Mirrored(front), r, w);
    }
  }

  predicate NoCreation(moves: seq<Move>) {
    forall m <- moves :: m.kind != WalletCreated && !Lifecycle(m.kind)
  }

  lemma {:induction false} LogAnnouncesMoves(es: seq<Event>, sid: SagaId)
    requires NoCreation(OfSaga(es, sid))
    ensures AnnouncedMoves(Mirrors(es), sid) == OfSaga(es, sid)
  {
    if es != [] {
      var front, e := es[..|es| - 1], es[|es| - 1];
      var moves := OfSaga(front, sid);
      assert forall m :: m in moves ==> m in OfSaga(es, sid);
      LogAnnouncesMoves(front, sid);
      if e.saga == Some(sid) {
        assert OfSaga(es, sid)[|moves|] == Move(e.wallet, e.kind, e.amount);
      }
      var rows := Mirrors(front);
      assert (rows + [Mirror(e)])[..|rows|] == rows && rows + [] == rows;
    }
  }

  lemma {:induction false} LifecycleMovesNothing(outbox: seq<OutboxRow>, sid: SagaId)
    ensures AnnouncedMoves(Mirrored(outbox), sid) == AnnouncedMoves(outbox, sid)
  {
    if outbox != [] {
      var front, r := outbox[..|outbox| - 1], outbox[|outbox| - 1];
      LifecycleMovesNothing(front, sid);
      var rows := Mirrored(front);
      assert (rows + [r])[..|rows|] == rows && rows + [] == rows;
    }
  }

  // ---- over runs ----

  /** Whoever adds up the outbox messages about a wallet has its balance, its status, and whether a daily
      limit is in force. */
  lemma OutboxTellsWallets(s: State, actions: seq<Action>, w: WalletId)
    requires Inv(s)
    ensures var db := Run(s, actions).db;
            && Announced(db.outbox, w) == (if w in db.wallets then db.wallets[w].balance else 0)
            && AnnouncedStatus(db.outbox, w) == (if w in db.wallets then db.wallets[w].status else Active)
            && AnnouncedLimited(db.outbox, w) == (w in db.wallets && db.wallets[w].dailyLimit.Some?)
  {
    RunKeeps(s, actions);
    WalletsTold(Run(s, actions).db, w);
  }

  lemma WalletsTold(db: Db, w: WalletId)
    requires WalletsOk(db.wallets, db.events, db.today) && OutboxOk(db.sagas, db.events, db.outbox)
    ensures Announced(db.outbox, w) == (if w in db.wallets then db.wallets[w].balance else 0)
    ensures AnnouncedStatus(db.outbox, w) == (if w in db.wallets then db.wallets[w].status else Active)
    ensures AnnouncedLimited(db.outbox, w) == (w in db.wallets && db.wallets[w].dailyLimit.Some?)
  {
    LogAnnounces(db.events, w);
    LifecycleIsSilent(db.outbox, w);
    LogTells(db, w);
  }

  lemma LogTells(db: Db, w: WalletId)
    requires WalletsOk(db.wallets, db.events, db.today)
    ensures var es := OfWallet(db.events, w);
            && Replay(es) == (if w in db.wallets then db.wallets[w].balance else 0)
            && ReplayStatus(es) == (if w in db.wallets then db.wallets[w].status else Active)
            && ReplayLimited(es) == (w in db.wallets && db.wallets[w].dailyLimit.Some?)
  {
    if w in db.wallets {
      assert LedgerOk(db.wallets[w], OfWallet(db.events, w), db.today);
    }
  }

  /** The messages with a saga's id are the movements its state stands for: what left the sender, and what
      came to the receiver or back. */
  lemma OutboxTellsSagas(s: State, actions: seq<Action>, sid: SagaId)
    requires Inv(s)
    ensures var db := Run(s, actions).db;
            var moves := AnnouncedMoves(db.outbox, sid);
            if sid !in db.sagas then moves == []
            else
              var g := db.sagas[sid];
              var out := Move(g.from, FundsWithdrawn, Some(g.amount));
              && (g.state == Pending || g.state == Failed <==> moves == [])
              && (g.state == Debited <==> moves == [out])
              && (g.state == Completed <==> moves == [out, Move(g.to, FundsDeposited, Some(g.amount))])
              && (g.state == Compensated <==> moves == [out, Move(g.from, TransferCompensated, Some(g.amount))])
  {
    RunKeeps(s, actions);
    SagasTold(Run(s, actions).db, sid);
  }

  lemma SagasTold(db: Db, sid: SagaId)
    requires SagasOk(db.wallets, db.sagas, db.events) && OutboxOk(db.sagas, db.events, db.outbox)
    ensures AnnouncedMoves(db.outbox, sid) == if sid in db.sagas then ExpectedMoves(db.sagas[sid]) else []
  {
    if sid in db.sagas {
      assert OfSaga(db.events, sid) == ExpectedMoves(db.sagas[sid]);
    }
    LogAnnouncesMoves(db.events, sid);
    LifecycleMovesNothing(db.outbox, sid);
  }

  /** The two saga messages are about the sender and carry the saga's amount. */
  predicate AboutSender(sagas: map<SagaId, Saga>, r: OutboxRow) {
    Lifecycle(r.kind) ==>
      r.saga.Some? && r.saga.value in sagas
      && r.aggregate == sagas[r.saga.value].from && r.amount == Some(sagas[r.saga.value].amount)
  }

  predicate AllAboutSender(db: Db) {
    forall i | 0 <= i < |db.outbox| :: AboutSender(db.sagas, db.outbox[i])
  }

  lemma LegAnnounces(db: Db, sid: SagaId, leg: Leg, w: WalletId, amount: int)
    requires AllAboutSender(db)
    ensures AllAboutSender(Apply(db, RunLeg(sid, leg, w, amount)))
  {
    var db' := Apply(db, RunLeg(sid, leg, w, amount));
    LegEvolves(db, sid, leg, w, amount);
    forall i | 0 <= i < |db'.outbox|
      ensures AboutSender(db'.sagas, db'.outbox[i])
    {
      if i < |db.outbox| {
        assert db'.outbox[i] == db.outbox[i] && AboutSender(db.sagas, db.outbox[i]);
      }
    }
  }

  lemma ApplyAnnounces(db: Db, act: Act)
    requires AllAboutSender(db) && Allowed(db, act)
    ensures AllAboutSender(Apply(db, act))
  {
    if act.RunLeg? {
      LegAnnounces(db, act.saga, act.leg, act.wallet, act.amount);
    } else {
      var db' := Apply(db, act);
      ApplyEvolves(db, act);
      forall i | 0 <= i < |db'.outbox|
        ensures AboutSender(db'.sagas, db'.outbox[i])
      {
        if i < |db.outbox| {
          assert db'.outbox[i] == db.outbox[i] && AboutSender(db.sagas, db.outbox[i]);
        }
      }
    }
  }

  lemma {:induction false} LifecycleIsAboutSender(s: State, actions: seq<Action>)
    requires Inv(s) && AllAboutSender(s.db)
    ensures AllAboutSender(Run(s, actions).db)
    decreases |actions|
  {
    if actions != [] {
      var before, a := actions[..|actions| - 1], actions[|actions| - 1];
      LifecycleIsAboutSender(s, before);
      RunKeeps(s, before);
      var t := Run(s, before);
      if ActOf(t, a).Some? {
        StartedAllowed(t, a);
        ApplyAnnounces(t.db, ActOf(t, a).value);
      }
    }
  }
}
