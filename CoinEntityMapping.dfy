/** The mappings from a stored row to the domain record the screens show. */
module CoinEntityMapping {
  import opened Common
  import opened Text
  import opened Records

  /**
   * The full domain record of a row: the tag string is split on commas and
   * the quote map holds exactly one quote, in USD.
   */
  function AsDetailedDomainObject(e: CoinEntity): (c: CoinData)
    ensures c.id == e.id && c.name == e.name && c.symbol == e.symbol && c.cmcRank == e.rank
    ensures c.slug == e.coinDetails.slug && c.numMarketPairs == e.coinDetails.numMarketPairs
    ensures c.circulatingSupply == e.coinDetails.circulatingSupply
    ensures c.totalSupply == e.coinDetails.totalSupply && c.maxSupply == e.coinDetails.maxSupply
    ensures c.infiniteSupply == e.coinDetails.infiniteSupply
    ensures c.lastUpdated == e.coinDetails.lastUpdated && c.dateAdded == e.coinDetails.dateAdded
    ensures c.tags == Split(e.coinDetails.tags, ',') && Join(c.tags, ',') == e.coinDetails.tags
    ensures c.percentChange24h == 0.0
    ensures c.quote.Keys == {Usd}
    ensures c.quote[Usd] == CryptoQuote(e.price, e.coinDetails.volume, 0.0, e.percentChange24h, e.marketCap,
                                        e.coinDetails.fullyDilutedMarketCap, e.coinDetails.marketCapDominance,
                                        e.coinDetails.quoteLastUpdated)
  {
    var d := e.coinDetails;
    JoinSplit(d.tags, ',');
    CoinData(
      id := e.id,
      name := e.name,
      symbol := e.symbol,
      slug := d.slug,
      cmcRank := e.rank,
      numMarketPairs := d.numMarketPairs,
      circulatingSupply := d.circulatingSupply,
      totalSupply := d.totalSupply,
      maxSupply := d.maxSupply,
      percentChange24h := 0.0,
      infiniteSupply := d.infiniteSupply,
      lastUpdated := d.lastUpdated,
      dateAdded := d.dateAdded,
      tags := Split(d.tags, ','),
      quote := map[Usd := CryptoQuote(
        price := e.price,
        volume24h := d.volume,
        volumeChange24h := 0.0,
        percentChange24h := e.percentChange24h,
        marketCap := e.marketCap,
        fullyDilutedMarketCap := d.fullyDilutedMarketCap,
        marketCapDominance := d.marketCapDominance,
        lastUpdated := d.quoteLastUpdated)])
  }

  /** The list-screen summary of a row: identity, rank and the USD price and 24h change only. */
  function AsDomainObject(e: CoinEntity): (c: CoinData)
    ensures c.id == e.id && c.name == e.name && c.symbol == e.symbol && c.cmcRank == e.rank
    ensures c.quote.Keys == {Usd}
    ensures c.quote[Usd] == DefaultQuote.(price := e.price, percentChange24h := e.percentChange24h)
    ensures c.(id := DefaultCoinData.id, name := DefaultCoinData.name, symbol := DefaultCoinData.symbol,
               cmcRank := DefaultCoinData.cmcRank, quote := DefaultCoinData.quote) == DefaultCoinData
  {
    DefaultCoinData.(
      id := e.id,
      name := e.name,
      symbol := e.symbol,
      cmcRank := e.rank,
      quote := map[Usd := DefaultQuote.(price := e.price, percentChange24h := e.percentChange24h)])
  }

  /** `List<CoinEntity>.asDomainObject()`: the summary of every row, in the same order. */
  function AsDomainObjects(es: seq<CoinEntity>): (cs: seq<CoinData>)
    ensures |cs| == |es|
    ensures forall i :: 0 <= i < |es| ==> cs[i] == AsDomainObject(es[i])
  {
    if es == [] then [] else [AsDomainObject(es[0])] + AsDomainObjects(es[1..])
  }

  /**
   * What the summary keeps of a full record: identity, rank, and the USD
   * price and 24h change; every other field back at its default.
   */
  function Summary(c: CoinData): CoinData
    requires Usd in c.quote
  {
    DefaultCoinData.(
      id := c.id,
      name := c.name,
      symbol := c.symbol,
      cmcRank := c.cmcRank,
      quote := map[Usd := DefaultQuote.(price := c.quote[Usd].price,
                                        percentChange24h := c.quote[Usd].percentChange24h)])
  }

  /** The summary of a row is the summary of its full record. */
  lemma SummaryOfDetailed(e: CoinEntity)
    ensures AsDomainObject(e) == Summary(AsDetailedDomainObject(e))
  {
  }

  /**
   * Both mappings take the domain id from the row's primary key: the id
   * stored in the details block has no influence on either.
   */
  lemma DomainIdIgnoresDetailsId(e: CoinEntity, otherId: int)
    ensures AsDetailedDomainObject(e.(coinDetails := e.coinDetails.(coinId := otherId))) == AsDetailedDomainObject(e)
    ensures AsDomainObject(e.(coinDetails := e.coinDetails.(coinId := otherId))) == AsDomainObject(e)
  {
  }

  /** A row stored with an empty tag string reads back with the one tag "". */
  lemma EmptyTagStringReadsAsOneEmptyTag(e: CoinEntity)
    requires e.coinDetails.tags == ""
    ensures AsDetailedDomainObject(e).tags == [""]
  {
  }
}
