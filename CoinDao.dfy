/**
 * The `cryptocurrencies` table and the queries on it. The table is a map from
 * primary key `id` to its row; the read queries are functions of a snapshot
 * of that map, and `CoinStore.UpsertCoins` changes it in place.
 */
module CoinDao {
  import opened Common
  import opened Text
  import opened SqlLike
  import opened Records

  type Table = map<int, CoinEntity>

  /** `LIMIT 5000` of the full listing. */
  const MaxListed: nat := 5000

  /** Every row is stored under its own primary key. */
  ghost predicate KeyedById(t: Table) {
    forall k :: k in t ==> t[k].id == k
  }

  // ---------------------------------------------------------------- upsert

  function IdsOf(batch: seq<CoinEntity>): set<int> {
    set e | e in batch :: e.id
  }

  /**
   * Room's Upsert of a batch: each entity is inserted under its id, replacing the
   * whole row of that id if there is one; later entities of the batch win.
   */
  function UpsertAll(t: Table, batch: seq<CoinEntity>): (r: Table)
    ensures r.Keys == t.Keys + IdsOf(batch)
    decreases |batch|
  {
    if batch == [] then t
    else
      var last := batch[|batch| - 1];
      var r := UpsertAll(t, batch[..|batch| - 1])[last.id := last];
      assert batch == batch[..|batch| - 1] + [last];
      r
  }

  /** `batch[j]` is the last entity of the batch with its id. */
  predicate LastWithItsId(batch: seq<CoinEntity>, j: int) {
    0 <= j < |batch| && forall i :: j < i < |batch| ==> batch[i].id != batch[j].id
  }

  /** The row of an id in the batch is, whole, the last entity of the batch with that id. */
  lemma {:induction false} UpsertLastWins(t: Table, batch: seq<CoinEntity>, j: int)
    requires LastWithItsId(batch, j)
    ensures batch[j].id in UpsertAll(t, batch) && UpsertAll(t, batch)[batch[j].id] == batch[j]
    decreases |batch|
  {
    if j < |batch| - 1 {
      var front := batch[..|batch| - 1];
      UpsertLastWins(t, front, j);
    }
  }

  /** A row whose id is not in the batch is neither changed nor removed. */
  lemma {:induction false} UpsertKeepsOthers(t: Table, batch: seq<CoinEntity>, k: int)
    requires k !in IdsOf(batch)
    ensures k in UpsertAll(t, batch) <==> k in t
    ensures k in t ==> UpsertAll(t, batch)[k] == t[k]
    decreases |batch|
  {
    if batch != [] {
      var front := batch[..|batch| - 1];
      assert IdsOf(front) <= IdsOf(batch);
      UpsertKeepsOthers(t, front, k);
    }
  }

  lemma {:induction false} LastWithIdExists(batch: seq<CoinEntity>, k: int) returns (j: int)
    requires k in IdsOf(batch)
    ensures LastWithItsId(batch, j) && batch[j].id == k
    decreases |batch|
  {
    var last := batch[|batch| - 1];
    if last.id == k {
      j := |batch| - 1;
    } else {
      var front := batch[..|batch| - 1];
      assert batch == front + [last];
      assert k in IdsOf(front);
      j := LastWithIdExists(front, k);
    }
  }

  /** What a key holds after an upsert: the last batch entity with that id, or the old row. */
  lemma UpsertAt(t: Table, batch: seq<CoinEntity>, k: int)
    requires k in t || k in IdsOf(batch)
    ensures k in UpsertAll(t, batch)
    ensures k in IdsOf(batch) ==> exists j :: LastWithItsId(batch, j) && batch[j].id == k && UpsertAll(t, batch)[k] == batch[j]
    ensures k !in IdsOf(batch) ==> UpsertAll(t, batch)[k] == t[k]
  {
    if k in IdsOf(batch) {
      var j := LastWithIdExists(batch, k);
      UpsertLastWins(t, batch, j);
    } else {
      UpsertKeepsOthers(t, batch, k);
    }
  }

  /** Upserting the same batch twice leaves the table as upserting it once. */
  lemma UpsertIdempotent(t: Table, batch: seq<CoinEntity>)
    ensures UpsertAll(UpsertAll(t, batch), batch) == UpsertAll(t, batch)
  {
    var once := UpsertAll(t, batch);
    var twice := UpsertAll(once, batch);
    forall k | k in twice ensures twice[k] == once[k] {
      if k in IdsOf(batch) {
        var j := LastWithIdExists(batch, k);
        UpsertLastWins(t, batch, j);
        UpsertLastWins(once, batch, j);
      } else {
        UpsertKeepsOthers(once, batch, k);
      }
    }
  }

  /** Upsert never deletes: every key present before is present after. */
  lemma UpsertNeverDeletes(t: Table, batch: seq<CoinEntity>)
    ensures t.Keys <= UpsertAll(t, batch).Keys
  {
  }

  /** Upsert stores every entity under its own id. */
  lemma {:induction false} UpsertKeepsKeyedById(t: Table, batch: seq<CoinEntity>)
    requires KeyedById(t)
    ensures KeyedById(UpsertAll(t, batch))
    decreases |batch|
  {
    if batch != [] {
      UpsertKeepsKeyedById(t, batch[..|batch| - 1]);
    }
  }

  // ---------------------------------------------------------------- ORDER BY rank

  /**
   * The order of `ORDER BY rank`: by rank, rows of equal rank in primary-key
   * order (the order in which SQLite scans a rowid table).
   */
  predicate Before(t: Table, a: int, b: int)
    requires a in t && b in t
  {
    t[a].rank < t[b].rank || (t[a].rank == t[b].rank && a < b)
  }

  predicate IsFirst(t: Table, k: int) {
    k in t && forall k2 :: k2 in t && k2 != k ==> Before(t, k, k2)
  }

  lemma {:induction false} FirstKey(t: Table) returns (k: int)
    requires |t| > 0
    ensures IsFirst(t, k)
    decreases |t|
  {
    assert exists k0 :: k0 in t by {
      if forall k0 :: k0 !in t {
        assert false;
      }
    }
    var k0 :| k0 in t;
    var rest := t - {k0};
    assert rest.Keys == t.Keys - {k0};
    if |rest| == 0 {
      assert t.Keys == {k0};
      k := k0;
    } else {
      var k1 := FirstKey(rest);
      assert Before(rest, k1, k1) == Before(t, k1, k1);
      if Before(t, k0, k1) {
        k := k0;
        forall k2 | k2 in t && k2 != k0 ensures Before(t, k0, k2) {
          if k2 != k1 {
            assert Before(rest, k1, k2);
          }
        }
      } else {
        k := k1;
        forall k2 | k2 in t && k2 != k1 ensures Before(t, k1, k2) {
          if k2 != k0 {
            assert Before(rest, k1, k2);
          }
        }
      }
    }
  }

  lemma FirstExists(t: Table)
    requires |t| > 0
    ensures exists k :: IsFirst(t, k)
    ensures forall a, b :: IsFirst(t, a) && IsFirst(t, b) ==> a == b
  {
    var k := FirstKey(t);
  }

  /** The primary keys of the table in `ORDER BY rank` order, each exactly once. */
  function OrderedIds(t: Table): (ids: seq<int>)
    ensures |ids| == |t|
    ensures forall i :: 0 <= i < |ids| ==> ids[i] in t
    ensures forall k :: k in t ==> k in ids
    ensures forall i, j :: 0 <= i < j < |ids| ==> Before(t, ids[i], ids[j])
    decreases |t|
  {
    if |t| == 0 then []
    else
      FirstExists(t);
      var k :| IsFirst(t, k);
      var rest := t - {k};
      assert rest.Keys == t.Keys - {k};
      var tail := OrderedIds(rest);
      PrependFirst(t, k, tail);
      [k] + tail
  }

  /** Putting the first key in front of the ordered keys of the other rows orders them all. */
  lemma PrependFirst(t: Table, k: int, tail: seq<int>)
    requires IsFirst(t, k)
    requires |tail| == |t - {k}|
    requires forall i :: 0 <= i < |tail| ==> tail[i] in t - {k}
    requires forall k2 :: k2 in t - {k} ==> k2 in tail
    requires forall i, j :: 0 <= i < j < |tail| ==> Before(t - {k}, tail[i], tail[j])
    ensures |[k] + tail| == |t|
    ensures forall i :: 0 <= i < |[k] + tail| ==> ([k] + tail)[i] in t
    ensures forall k2 :: k2 in t ==> k2 in [k] + tail
    ensures forall i, j :: 0 <= i < j < |[k] + tail| ==> Before(t, ([k] + tail)[i], ([k] + tail)[j])
  {
    var ids := [k] + tail;
    assert (t - {k}).Keys == t.Keys - {k};
    forall i, j | 0 <= i < j < |ids| ensures Before(t, ids[i], ids[j]) {
      if i == 0 {
        assert ids[j] == tail[j - 1];
      } else {
        assert Before(t - {k}, tail[i - 1], tail[j - 1]);
      }
    }
    forall k2 | k2 in t ensures k2 in ids {
      if k2 != k {
        assert k2 in t - {k};
      }
    }
  }

  function RowsAt(t: Table, ids: seq<int>): (rows: seq<CoinEntity>)
    requires forall i :: 0 <= i < |ids| ==> ids[i] in t
    ensures |rows| == |ids|
    ensures forall i :: 0 <= i < |ids| ==> rows[i] == t[ids[i]]
  {
    if ids == [] then [] else [t[ids[0]]] + RowsAt(t, ids[1..])
  }

  /** No two rows share a primary key. */
  predicate DistinctIds(rows: seq<CoinEntity>) {
    forall i, j :: 0 <= i < j < |rows| ==> rows[i].id != rows[j].id
  }

  /** Non-decreasing `rank`. */
  predicate SortedByRank(rows: seq<CoinEntity>) {
    forall i, j :: 0 <= i < j < |rows| ==> rows[i].rank <= rows[j].rank
  }

  /** `getPagedCoins`: every row, in rank order, without a cap. */
  function GetPagedCoins(t: Table): (rows: seq<CoinEntity>)
    ensures |rows| == |t|
    ensures SortedByRank(rows)
    ensures forall k :: k in t ==> t[k] in rows
    ensures forall i :: 0 <= i < |rows| ==> rows[i] in t.Values
  {
    var ids := OrderedIds(t);
    RowsAtOrderedIds(t, ids);
    RowsAt(t, ids)
  }

  /** Reading the rows at the ordered keys lists every row once, in rank order. */
  lemma RowsAtOrderedIds(t: Table, ids: seq<int>)
    requires |ids| == |t|
    requires forall i :: 0 <= i < |ids| ==> ids[i] in t
    requires forall k :: k in t ==> k in ids
    requires forall i, j :: 0 <= i < j < |ids| ==> Before(t, ids[i], ids[j])
    ensures SortedByRank(RowsAt(t, ids))
    ensures forall k :: k in t ==> t[k] in RowsAt(t, ids)
    ensures forall i :: 0 <= i < |ids| ==> RowsAt(t, ids)[i] in t.Values
  {
    var rows := RowsAt(t, ids);
    forall i, j | 0 <= i < j < |rows| ensures rows[i].rank <= rows[j].rank {
      assert Before(t, ids[i], ids[j]);
    }
    forall k | k in t ensures t[k] in rows {
      var i :| 0 <= i < |ids| && ids[i] == k;
      assert rows[i] == t[k];
    }
  }

  /** The page source lists no row twice: its rows sit at strictly ordered keys. */
  lemma PagedCoinsHaveDistinctIds(t: Table)
    ensures KeyedById(t) ==> DistinctIds(GetPagedCoins(t))
  {
    if KeyedById(t) {
      var ids := OrderedIds(t);
      var rows := GetPagedCoins(t);
      assert rows == RowsAt(t, ids);
      forall i, j | 0 <= i < j < |rows| ensures rows[i].id != rows[j].id {
        assert Before(t, ids[i], ids[j]);
      }
    }
  }

  /** `getAllCoins`: the rank-ordered listing cut at 5000 rows. */
  function GetAllCoins(t: Table): (rows: seq<CoinEntity>)
    ensures |rows| <= MaxListed
    ensures |rows| == if |t| <= MaxListed then |t| else MaxListed
    ensures SortedByRank(rows)
    ensures rows == GetPagedCoins(t)[..|rows|]
  {
    FirstRows(GetPagedCoins(t), MaxListed)
  }

  /** The first `n` rows, or all of them when there are fewer. */
  function FirstRows(rows: seq<CoinEntity>, n: nat): (r: seq<CoinEntity>)
    requires SortedByRank(rows)
    ensures |r| == if |rows| <= n then |rows| else n
    ensures SortedByRank(r)
    ensures r == rows[..|r|]
  {
    var m := if |rows| <= n then |rows| else n;
    SortedPrefix(rows, m);
    rows[..m]
  }

  lemma SortedPrefix(rows: seq<CoinEntity>, n: nat)
    requires SortedByRank(rows) && n <= |rows|
    ensures SortedByRank(rows[..n])
  {
    forall i, j | 0 <= i < j < n ensures rows[..n][i].rank <= rows[..n][j].rank {
      assert rows[..n][i] == rows[i] && rows[..n][j] == rows[j];
    }
  }

  /** Below the cap, every row is listed, unchanged. */
  lemma AllCoinsListsEveryRowBelowCap(t: Table, k: int)
    requires k in t && |t| <= MaxListed
    ensures t[k] in GetAllCoins(t)
  {
  }

  /**
   * Above the cap, the listing holds the best-ranked rows: a row left out
   * ranks no better than any listed row.
   */
  lemma AllCoinsKeepsBestRanked(t: Table, listed: CoinEntity, k: int)
    requires listed in GetAllCoins(t) && k in t && t[k] !in GetAllCoins(t)
    ensures listed.rank <= t[k].rank
  {
    var all := GetPagedCoins(t);
    var shown := GetAllCoins(t);
    assert t[k] in all;
    PrefixHoldsBestRanked(all, |shown|, listed, t[k]);
  }

  lemma PrefixHoldsBestRanked(all: seq<CoinEntity>, n: nat, listed: CoinEntity, other: CoinEntity)
    requires SortedByRank(all) && n <= |all|
    requires listed in all[..n] && other in all && other !in all[..n]
    ensures listed.rank <= other.rank
  {
    var i :| 0 <= i < n && all[..n][i] == listed;
    var j :| 0 <= j < |all| && all[j] == other;
    assert j >= n;
  }

  /** A coin just upserted into a table of at most 5000 rows is listed, field for field. */
  lemma UpsertedCoinIsListed(t: Table, e: CoinEntity)
    requires |UpsertAll(t, [e])| <= MaxListed
    ensures e in GetAllCoins(UpsertAll(t, [e]))
  {
    UpsertLastWins(t, [e], 0);
  }

  // ---------------------------------------------------------------- WHERE id = :coinId

  /** `getCoinById`: the row with that id, or no emission for an unknown id. */
  function GetCoinById(t: Table, id: int): (r: Option<CoinEntity>)
    ensures r.Some? <==> id in t
    ensures r.Some? ==> r.value in t.Values
    ensures KeyedById(t) && r.Some? ==> r.value.id == id
  {
    if id in t then Some(t[id]) else None
  }

  // ---------------------------------------------------------------- LIKE search

  /** `name LIKE q OR symbol LIKE q OR id LIKE q`, the integer id read as its decimal text. */
  predicate RowMatches(e: CoinEntity, q: string) {
    Like(e.name, q) || Like(e.symbol, q) || Like(IntText(e.id), q)
  }

  function Filter(rows: seq<CoinEntity>, q: string): (r: seq<CoinEntity>)
    ensures |r| <= |rows|
    ensures forall x :: x in r <==> x in rows && RowMatches(x, q)
    ensures DistinctIds(rows) ==> DistinctIds(r)
  {
    if rows == [] then []
    else
      var rest := Filter(rows[1..], q);
      assert rows == [rows[0]] + rows[1..];
      assert DistinctIds(rows) ==> forall x :: x in rest ==> x.id != rows[0].id;
      if RowMatches(rows[0], q) then [rows[0]] + rest else rest
  }

  /**
   * `searchCoins(q)`: exactly the rows that match `q`; no match is the empty
   * list. The query is used as the LIKE pattern as it is: no `%` is added.
   */
  function SearchCoins(t: Table, q: string): (r: seq<CoinEntity>)
    ensures forall k :: k in t ==> (t[k] in r <==> RowMatches(t[k], q))
    ensures forall x :: x in r ==> x in t.Values && RowMatches(x, q)
    ensures r == [] <==> forall k :: k in t ==> !RowMatches(t[k], q)
    ensures KeyedById(t) ==> DistinctIds(r)
  {
    var ids := OrderedIds(t);
    PagedCoinsHaveDistinctIds(t);
    FilterOfAllRows(t, ids, q);
    Filter(RowsAt(t, ids), q)
  }

  /** Every key's row is among the rows read at every key. */
  lemma RowsAtEveryKey(t: Table, ids: seq<int>)
    requires forall i :: 0 <= i < |ids| ==> ids[i] in t
    requires forall k :: k in t ==> k in ids
    ensures forall k :: k in t ==> t[k] in RowsAt(t, ids)
  {
    var all := RowsAt(t, ids);
    forall k | k in t ensures t[k] in all {
      var i :| 0 <= i < |ids| && ids[i] == k;
      assert all[i] == t[k];
    }
  }

  /** Filtering the rows read at every key keeps exactly the matching rows. */
  lemma FilterOfAllRows(t: Table, ids: seq<int>, q: string)
    requires forall i :: 0 <= i < |ids| ==> ids[i] in t
    requires forall k :: k in t ==> k in ids
    ensures forall k :: k in t ==> (t[k] in Filter(RowsAt(t, ids), q) <==> RowMatches(t[k], q))
    ensures forall x :: x in Filter(RowsAt(t, ids), q) ==> x in t.Values && RowMatches(x, q)
    ensures Filter(RowsAt(t, ids), q) == [] <==> forall k :: k in t ==> !RowMatches(t[k], q)
  {
    var all := RowsAt(t, ids);
    var r := Filter(all, q);
    RowsAtEveryKey(t, ids);
    forall x | x in r ensures x in t.Values && RowMatches(x, q) {
      var i :| 0 <= i < |all| && all[i] == x;
      assert x == t[ids[i]];
    }
    if r != [] {
      assert r[0] in r;
      var i :| 0 <= i < |all| && all[i] == r[0];
      var k := ids[i];
      assert k in t && RowMatches(t[k], q);
    }
  }

  /** Searching for a row's exact name finds that row. */
  lemma SearchByNameFindsRow(t: Table, k: int)
    requires k in t
    ensures t[k] in SearchCoins(t, t[k].name)
  {
    LikeItself(t[k].name);
  }

  /**
   * A query without wildcards means equality up to ASCII case with the
   * name, the symbol or the decimal id.
   */
  lemma SearchWithoutWildcards(t: Table, q: string, k: int)
    requires NoWildcards(q) && k in t
    ensures t[k] in SearchCoins(t, q) <==>
      EqualsIgnoreCase(t[k].name, q) || EqualsIgnoreCase(t[k].symbol, q) || IntText(t[k].id) == q
  {
    LikeWithoutWildcards(t[k].name, q);
    LikeWithoutWildcards(t[k].symbol, q);
    LikeWithoutWildcards(IntText(t[k].id), q);
    DecimalTextFoldsOnlyToItself(IntText(t[k].id), q);
  }

  /** Only a string equal to it folds to a string of digits and minus signs. */
  lemma DecimalTextFoldsOnlyToItself(s: string, q: string)
    requires forall i :: 0 <= i < |s| ==> IsDigit(s[i]) || s[i] == '-'
    ensures EqualsIgnoreCase(s, q) <==> s == q
  {
    if EqualsIgnoreCase(s, q) {
      forall i | 0 <= i < |s| ensures s[i] == q[i] {
        assert SameLetterIgnoringCase(s[i], q[i]);
      }
    }
  }

  /**
   * Searching for the decimal text of an id finds the row of that id; any
   * other row found matched by its name or symbol, never by its id.
   */
  lemma SearchByIdText(t: Table, id: int, k: int)
    requires KeyedById(t) && id in t && k in t
    ensures t[id] in SearchCoins(t, IntText(id))
    ensures k != id && t[k] in SearchCoins(t, IntText(id)) ==>
      EqualsIgnoreCase(t[k].name, IntText(id)) || EqualsIgnoreCase(t[k].symbol, IntText(id))
  {
    var q := IntText(id);
    assert NoWildcards(q) by {
      forall i | 0 <= i < |q| ensures !IsWildcard(q[i]) {
        if i > 0 { assert IsDigit(q[i]); }
      }
    }
    SearchWithoutWildcards(t, q, id);
    SearchWithoutWildcards(t, q, k);
    IntTextInjective(k, id);
  }

  // ---------------------------------------------------------------- the table

  /** The `cryptocurrencies` table of the on-device database. */
  class CoinStore {
    var table: Table

    ghost predicate Valid()
      reads this
    {
      KeyedById(table)
    }

    /** A new, empty database. */
    constructor ()
      ensures Valid() && table == map[]
    {
      table := map[];
    }

    /** `upsertCoins`: insert or replace every entity of the batch, by id, in batch order. */
    method UpsertCoins(coins: seq<CoinEntity>)
      requires Valid()
      modifies this
      ensures Valid()
      ensures table == UpsertAll(old(table), coins)
    {
      for i := 0 to |coins|
        invariant table == UpsertAll(old(table), coins[..i])
      {
        assert coins[..i + 1][..i] == coins[..i];
        table := table[coins[i].id := coins[i]];
      }
      assert coins[..|coins|] == coins;
      UpsertKeepsKeyedById(old(table), coins);
    }
  }
}
