/**
 * The mapping from the API's coin record to a stored row (the unrounded
 * variant, the one the background sync uses), and its round trips with the
 * mappings back to the domain record.
 */
module CryptoResponse {
  import opened Common
  import opened Text
  import opened Records
  import opened CoinEntityMapping

  /** No tag contains the comma that separates tags in the stored string. */
  predicate TagsStorable(tags: seq<string>) {
    |tags| >= 1 && forall i :: 0 <= i < |tags| ==> ',' !in tags[i]
  }

  lemma StorableTagsSurviveJoin(tags: seq<string>)
    ensures TagsStorable(tags) ==> Split(Join(tags, ','), ',') == tags
  {
    if TagsStorable(tags) {
      SplitJoin(tags, ',');
    }
  }

  /**
   * The stored row of an API coin: the id goes to both the key and the
   * details block, the USD quote (or 0.0 / "" without one) fills the price
   * fields, and the tags are comma-joined.
   */
  function AsDatabaseEntity(c: CoinData): (e: CoinEntity)
    ensures e.id == c.id && e.coinDetails.coinId == e.id
    ensures e.rank == c.cmcRank
    ensures Usd !in c.quote ==>
      e.price == 0.0 && e.percentChange24h == 0.0 && e.marketCap == 0.0 &&
      e.coinDetails.volume == 0.0 && e.coinDetails.fullyDilutedMarketCap == 0.0 &&
      e.coinDetails.marketCapDominance == 0.0 && e.coinDetails.quoteLastUpdated == ""
    ensures e.name == c.name && e.symbol == c.symbol
    ensures e.coinDetails.tags == Join(c.tags, ',')
    ensures TagsStorable(c.tags) ==> Split(e.coinDetails.tags, ',') == c.tags
    ensures AsDetailedDomainObject(e) == Stored(c).(tags := Split(Join(c.tags, ','), ','))
  {
    var q := UsdQuote(c);
    StorableTagsSurviveJoin(c.tags);
    CoinEntity(
      id := c.id,
      name := c.name,
      symbol := c.symbol,
      rank := c.cmcRank,
      price := q.price,
      percentChange24h := q.percentChange24h,
      marketCap := q.marketCap,
      coinDetails := CoinDetailsEntity(
        coinId := c.id,
        circulatingSupply := c.circulatingSupply,
        totalSupply := c.totalSupply,
        maxSupply := c.maxSupply,
        numMarketPairs := c.numMarketPairs,
        lastUpdated := c.lastUpdated,
        dateAdded := c.dateAdded,
        tags := Join(c.tags, ','),
        slug := c.slug,
        infiniteSupply := c.infiniteSupply,
        volume := q.volume24h,
        fullyDilutedMarketCap := q.fullyDilutedMarketCap,
        marketCapDominance := q.marketCapDominance,
        quoteLastUpdated := q.lastUpdated))
  }

  /**
   * What survives storing an API coin and reading it back in full: everything
   * except the top-level 24h change and the quote's 24h volume change, which
   * come back as 0.0, and quotes in currencies other than USD, which are gone.
   */
  function Stored(c: CoinData): CoinData {
    c.(percentChange24h := 0.0, quote := map[Usd := UsdQuote(c).(volumeChange24h := 0.0)])
  }

  /**
   * API record -> row -> full domain record gives back exactly `Stored(c)`
   * when the tags form a non-empty list of comma-free tags.
   */
  lemma DetailedRoundTrip(c: CoinData)
    requires TagsStorable(c.tags)
    ensures AsDetailedDomainObject(AsDatabaseEntity(c)) == Stored(c)
  {
  }

  /**
   * Row -> full domain record -> row gives back the row, except that the
   * details block's id is forced to the row's id; so the round trip is exact
   * exactly when the two ids agree.
   */
  lemma EntityRoundTrip(e: CoinEntity)
    ensures AsDatabaseEntity(AsDetailedDomainObject(e)) == e.(coinDetails := e.coinDetails.(coinId := e.id))
    ensures AsDatabaseEntity(AsDetailedDomainObject(e)) == e <==> e.coinDetails.coinId == e.id
  {
    JoinSplit(e.coinDetails.tags, ',');
  }

  /** An empty tag list is stored as "" and does not survive the round trip. */
  lemma EmptyTagsDoNotRoundTrip(c: CoinData)
    requires c.tags == []
    ensures AsDetailedDomainObject(AsDatabaseEntity(c)).tags == [""]
  {
  }

  /** Quotes in currencies other than USD do not influence the stored row. */
  lemma OtherCurrenciesIgnored(c: CoinData, currency: string, q: CryptoQuote)
    requires currency != Usd
    ensures AsDatabaseEntity(c.(quote := c.quote[currency := q])) == AsDatabaseEntity(c)
  {
    var c' := c.(quote := c.quote[currency := q]);
    assert UsdQuote(c') == UsdQuote(c);
  }
}
