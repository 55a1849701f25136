/**
 * `DefaultCoinRepositoryImpl`: the seam between the screens and the coin
 * table. Reads map table rows to domain records; a failing write resurfaces
 * as an exception with a fixed message prefix.
 */
module Repository {
  import opened Common
  import opened Records
  import opened CoinDao
  import opened CoinEntityMapping

  /** An exception thrown by the database during a write. */
  datatype StoreFailure =
    | SqlFailure(message: Option<string>)      // a java.sql.SQLException
    | OtherFailure(message: Option<string>)    // any other exception

  /** The outcome of a suspending call that returns nothing: it completed, or threw. */
  datatype Completion = Completed | Failed(message: string)

  /** Kotlin's string template `"${e.message}"`: a null message prints as "null". */
  function MessageText(m: Option<string>): string {
    m.GetOr("null")
  }

  /**
   * The start of the message of Kotlin's null check on a non-null parameter;
   * the rest of it, which names the method and the parameter, is not modelled.
   */
  const NullReceiverMessage: string := "Parameter specified as non-null is null"

  const InsertFailureTail: string := "inserting coin list into database: "
  const SqlInsertPrefix: string := "Error " + InsertFailureTail
  const OtherInsertPrefix: string := "Unknown error " + InsertFailureTail

  /** The message of the exception `upsertCoins` throws for a failing write. */
  function UpsertErrorMessage(f: StoreFailure): (msg: string)
    ensures f.SqlFailure? ==> msg == SqlInsertPrefix + MessageText(f.message)
    ensures f.OtherFailure? ==> msg == OtherInsertPrefix + MessageText(f.message)
    ensures f.SqlFailure? ==> SqlInsertPrefix <= msg && !(OtherInsertPrefix <= msg)
    ensures f.OtherFailure? ==> OtherInsertPrefix <= msg && !(SqlInsertPrefix <= msg)
  {
    assert SqlInsertPrefix[0] == 'E';
    assert OtherInsertPrefix[0] == 'U';
    match f
    case SqlFailure(m) =>
      var msg := SqlInsertPrefix + MessageText(m);
      assert msg[0] == 'E';
      msg
    case OtherFailure(m) =>
      var msg := OtherInsertPrefix + MessageText(m);
      assert msg[0] == 'U';
      msg
  }

  /** Non-decreasing `cmc_rank`. */
  predicate SortedByCmcRank(cs: seq<CoinData>) {
    forall i, j :: 0 <= i < j < |cs| ==> cs[i].cmcRank <= cs[j].cmcRank
  }

  class DefaultCoinRepositoryImpl {
    /** The database access object; the repository holds nothing else that can change. */
    const coinDao: CoinStore

    ghost predicate Valid()
      reads this, coinDao
    {
      coinDao.Valid()
    }

    constructor (coinDao: CoinStore)
      requires coinDao.Valid()
      ensures this.coinDao == coinDao && Valid()
    {
      this.coinDao := coinDao;
    }

    /**
     * The first value of `getCoinById(id)`. For a stored id it is the full
     * domain record of the row. For an unknown id the DAO's flow emits null,
     * and the `map` step hands that null to `asDetailedDomainObject`, whose
     * non-null receiver check throws a NullPointerException inside the flow,
     * outside the `try` that only wraps building it.
     */
    function GetCoinById(id: int): (r: Call<CoinData>)
      reads this, coinDao
      ensures r.Returned? <==> id in coinDao.table
      ensures r.Returned? ==> r.value == AsDetailedDomainObject(coinDao.table[id])
      ensures Valid() && r.Returned? ==> r.value.id == id
      ensures r.Threw? ==> r.message == Some(NullReceiverMessage)
    {
      match CoinDao.GetCoinById(coinDao.table, id)
      case Some(e) => Returned(AsDetailedDomainObject(e))
      case None => Threw(Some(NullReceiverMessage))
    }

    /** `getAllCoins`: the summaries of the table's rank-ordered listing, same length and order. */
    function GetAllCoins(): (r: seq<CoinData>)
      reads this, coinDao
      ensures |r| == |CoinDao.GetAllCoins(coinDao.table)| && |r| <= MaxListed
      ensures forall i :: 0 <= i < |r| ==> r[i] == AsDomainObject(CoinDao.GetAllCoins(coinDao.table)[i])
      ensures SortedByCmcRank(r)
    {
      AsDomainObjects(CoinDao.GetAllCoins(coinDao.table))
    }

    /**
     * `upsertCoins`: hands the whole list to the table. `failure` is the
     * exception the database throws, if it does; the write then rolls back
     * (Room runs an upsert in one transaction) and the exception resurfaces
     * with its message prefixed.
     */
    method UpsertCoins(coinList: seq<CoinEntity>, failure: Option<StoreFailure>) returns (r: Completion)
      requires Valid()
      modifies coinDao
      ensures Valid()
      ensures failure.None? ==> r == Completed && coinDao.table == UpsertAll(old(coinDao.table), coinList)
      ensures failure.Some? ==> r == Failed(UpsertErrorMessage(failure.value)) && coinDao.table == old(coinDao.table)
    {
      if failure.Some? {
        r := Failed(UpsertErrorMessage(failure.value));
      } else {
        coinDao.UpsertCoins(coinList);
        r := Completed;
      }
    }
  }
}
