/** A database transaction in the code's own steps: rows are loaded as entities, written to a
    working copy, and the buffered outbox rows are saved just before the commit. */
module Transactions {
  import opened Basics
  import opened Wallets
  import opened Store
  import opened SagaEntity

  class Database {
    var db: Db

    constructor (db: Db)
      ensures this.db == db
    {
      this.db := db;
    }
  }

  class TransactionContext {
    var work: Db
    var eventsToPublish: seq<OutboxRow>

    constructor (database: Database)
      ensures work == database.db && eventsToPublish == []
    {
      work := database.db;
      eventsToPublish := [];
    }

    method FindWallet(w: WalletId) returns (wallet: Wallet?)
      ensures wallet == null <==> w !in work.wallets
      ensures wallet != null ==> fresh(wallet) && wallet.Row() == work.wallets[w]
    {
      if w in work.wallets {
        wallet := new Wallet.Load(work.wallets[w]);
      } else {
        wallet := null;
      }
    }

    method SaveWallet(w: WalletId, wallet: Wallet)
      modifies this`work
      ensures work == old(work).(wallets := old(work).wallets[w := wallet.Row()])
    {
      work := work.(wallets := work.wallets[w := wallet.Row()]);
    }

    method FindSaga(sid: SagaId) returns (saga: TransferSaga?)
      ensures saga == null <==> sid !in work.sagas
      ensures saga != null ==> fresh(saga) && saga.Row() == work.sagas[sid]
    {
      if sid in work.sagas {
        saga := new TransferSaga.Load(work.sagas[sid]);
      } else {
        saga := null;
      }
    }

    method SaveSaga(sid: SagaId, saga: TransferSaga)
      modifies this`work
      ensures work == old(work).(sagas := old(work).sagas[sid := saga.Row()])
    {
      work := work.(sagas := work.sagas[sid := saga.Row()]);
    }

    method SaveEvent(e: Event)
      modifies this`work
      ensures work == old(work).(events := old(work).events + [e])
    {
      work := work.(events := work.events + [e]);
    }

    method SaveKey(request: RequestId, reply: Reply)
      modifies this`work
      ensures work == old(work).(keys := old(work).keys[request := reply])
    {
      work := work.(keys := work.keys[request := reply]);
    }

    method PublishEvent(row: OutboxRow)
      modifies this`eventsToPublish
      ensures eventsToPublish == old(eventsToPublish) + [row]
    {
      eventsToPublish := eventsToPublish + [row];
    }

    /** Nothing of the working copy is visible to anyone before this. */
    method Commit(database: Database)
      modifies this, database
      ensures database.db == old(work).(outbox := old(work).outbox + old(eventsToPublish))
    {
      if eventsToPublish != [] {
        work := work.(outbox := work.outbox + eventsToPublish);
      }
      database.db := work;
    }

    /** Get a wallet, or insert it and record its creation unless it has events already. */
    method GetOrCreate(w: WalletId, currency: Currency) returns (wallet: Wallet)
      modifies this`work
      ensures fresh(wallet)
      ensures w in old(work).wallets || (forall i | 0 <= i < |old(work).events| :: old(work).events[i].wallet != w) ==>
                work == Ensure(old(work), w, currency)
      ensures !(w in old(work).wallets || (forall i | 0 <= i < |old(work).events| :: old(work).events[i].wallet != w)) ==>
                work == old(work).(wallets := old(work).wallets[w := NewRow(currency)])
      ensures w in work.wallets && wallet.Row() == work.wallets[w]
    {
      var found := FindWallet(w);
      if found != null {
        return found;
      }
      wallet := new Wallet.Load(NewRow(currency));
      SaveWallet(w, wallet);
      var existing := CountEvents(w);
      if existing == 0 {
        SaveEvent(NewEvent(w, WalletCreated, currency, None, None, work.today));
      }
    }

    method CountEvents(w: WalletId) returns (n: nat)
      ensures n == 0 <==> forall i | 0 <= i < |work.events| :: work.events[i].wallet != w
    {
      n := 0;
      for k := 0 to |work.events|
        invariant n == 0 <==> forall i | 0 <= i < k :: work.events[i].wallet != w
      {
        if work.events[k].wallet == w {
          n := n + 1;
        }
      }
    }
  }
}
