/**
 * The background sync: fetch the remote listing, map every coin to a row,
 * then upsert the whole batch in one call.
 */
module CryptoWorker {
  import opened Common
  import opened Records
  import opened CoinDao
  import opened CryptoResponse
  import opened Repository

  /** How `doWork` ends: `Result.success()`, or an exception that escapes it. */
  datatype WorkOutcome = Succeeded | Escaped(message: Option<string>)

  /** `response.data.map { it.asDatabaseEntity() }`: the row of every fetched coin, in listing order. */
  function EntitiesOf(listing: seq<CoinData>): (es: seq<CoinEntity>)
    ensures |es| == |listing|
    ensures forall i :: 0 <= i < |listing| ==> es[i] == AsDatabaseEntity(listing[i])
    ensures IdsOf(es) == set c | c in listing :: c.id
  {
    if listing == [] then []
    else
      var es := [AsDatabaseEntity(listing[0])] + EntitiesOf(listing[1..]);
      SameIds(listing, es);
      es
  }

  /** Rows that carry the ids of the coins they were made from have the same set of ids. */
  lemma SameIds(listing: seq<CoinData>, es: seq<CoinEntity>)
    requires |es| == |listing| && forall i :: 0 <= i < |listing| ==> es[i].id == listing[i].id
    ensures IdsOf(es) == set c | c in listing :: c.id
  {
    forall id | id in IdsOf(es) ensures id in set c | c in listing :: c.id {
      var i :| 0 <= i < |es| && es[i].id == id;
      assert listing[i] in listing;
    }
    forall id | id in set c | c in listing :: c.id ensures id in IdsOf(es) {
      var i :| 0 <= i < |listing| && listing[i].id == id;
      assert es[i] in es;
    }
  }

  /** The table after a sync of `listing` that completed. */
  function Synced(t: Table, listing: seq<CoinData>): Table {
    UpsertAll(t, EntitiesOf(listing))
  }

  /** `listing[j]` is the last coin of the listing with its id. */
  predicate LastCoinWithItsId(listing: seq<CoinData>, j: int) {
    0 <= j < |listing| && forall i :: j < i < |listing| ==> listing[i].id != listing[j].id
  }

  /** After a sync, every fetched coin is stored as its row (the last one, when an id repeats). */
  lemma SyncStoresEveryCoin(t: Table, listing: seq<CoinData>, j: int)
    requires LastCoinWithItsId(listing, j)
    ensures listing[j].id in Synced(t, listing)
    ensures Synced(t, listing)[listing[j].id] == AsDatabaseEntity(listing[j])
  {
    var es := EntitiesOf(listing);
    assert LastWithItsId(es, j);
    UpsertLastWins(t, es, j);
  }

  /** A sync never deletes, and leaves the row of every id the listing lacks as it was. */
  lemma SyncKeepsAbsentCoins(t: Table, listing: seq<CoinData>, k: int)
    requires k in t && forall i :: 0 <= i < |listing| ==> listing[i].id != k
    ensures k in Synced(t, listing) && Synced(t, listing)[k] == t[k]
  {
    UpsertKeepsOthers(t, EntitiesOf(listing), k);
  }

  /** Syncing the same listing twice leaves the table as syncing it once. */
  lemma SyncIdempotent(t: Table, listing: seq<CoinData>)
    ensures Synced(Synced(t, listing), listing) == Synced(t, listing)
  {
    UpsertIdempotent(t, EntitiesOf(listing));
  }

  /** In every row, the details block carries the row's own id. */
  ghost predicate DetailsIdsAgree(t: Table) {
    forall k :: k in t ==> t[k].coinDetails.coinId == t[k].id
  }

  lemma {:induction false} UpsertKeepsDetailsIdsAgreeing(t: Table, batch: seq<CoinEntity>)
    requires DetailsIdsAgree(t)
    requires forall i :: 0 <= i < |batch| ==> batch[i].coinDetails.coinId == batch[i].id
    ensures DetailsIdsAgree(UpsertAll(t, batch))
    decreases |batch|
  {
    if batch != [] {
      UpsertKeepsDetailsIdsAgreeing(t, batch[..|batch| - 1]);
    }
  }

  /** A table filled only by syncs keeps the two ids of every row equal. */
  lemma SyncKeepsDetailsIdsAgreeing(t: Table, listing: seq<CoinData>)
    requires DetailsIdsAgree(t)
    ensures DetailsIdsAgree(Synced(t, listing))
  {
    UpsertKeepsDetailsIdsAgreeing(t, EntitiesOf(listing));
  }

  /**
   * Two syncs of the same coin at different prices: the row shows the second
   * price and the table gains no second row for that id.
   */
  lemma ResyncUpdatesInPlace(t: Table, first: CoinData, second: CoinData)
    requires first.id == second.id
    ensures Synced(Synced(t, [first]), [second])[second.id].price == UsdQuote(second).price
    ensures |Synced(Synced(t, [first]), [second])| == |Synced(t, [first])|
  {
    var once := Synced(t, [first]);
    SyncStoresEveryCoin(t, [first], 0);
    SyncStoresEveryCoin(once, [second], 0);
    assert Synced(once, [second]).Keys == once.Keys;
  }

  class CryptoWorker {
    const repository: DefaultCoinRepositoryImpl

    constructor (repository: DefaultCoinRepositoryImpl)
      requires repository.Valid()
      ensures this.repository == repository && repository.Valid()
    {
      this.repository := repository;
    }

    /**
     * `doWork`. `fetched` is what the listing request returned or threw;
     * `storeFailure` is the exception the database throws during the write,
     * if it does. The batch is built in full before the one write.
     */
    method DoWork(fetched: Call<seq<CoinData>>, storeFailure: Option<StoreFailure>) returns (r: WorkOutcome)
      requires repository.Valid()
      modifies repository.coinDao
      ensures repository.Valid()
      ensures fetched.Threw? ==> r == Escaped(fetched.message) && repository.coinDao.table == old(repository.coinDao.table)
      ensures fetched.Returned? && storeFailure.None? ==>
        r == Succeeded && repository.coinDao.table == Synced(old(repository.coinDao.table), fetched.value)
      ensures fetched.Returned? && storeFailure.Some? ==>
        r == Escaped(Some(UpsertErrorMessage(storeFailure.value))) && repository.coinDao.table == old(repository.coinDao.table)
    {
      match fetched {
        case Threw(m) =>
          r := Escaped(m);
        case Returned(listing) =>
          var entities := EntitiesOf(listing);
          var written := repository.UpsertCoins(entities, storeFailure);
          match written {
            case Completed => r := Succeeded;
            case Failed(msg) => r := Escaped(Some(msg));
          }
      }
    }
  }
}
