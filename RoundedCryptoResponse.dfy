/**
 * The second `asDatabaseEntity`, which passes the six USD quote figures
 * through a two-decimal `DecimalFormat("#.##")` and back to a double before
 * storing them. The formatter is locale-dependent floating-point text, so
 * the model takes it as a parameter `round2`.
 */
module RoundedCryptoResponse {
  import opened Common
  import opened Text
  import opened Records
  import CryptoResponse

  /** The stored row of an API coin, with the quote figures rounded by `round2`. */
  function AsDatabaseEntityRounded(c: CoinData, round2: real -> real): (e: CoinEntity)
    ensures e.id == c.id && e.coinDetails.coinId == e.id && e.rank == c.cmcRank
    ensures e.name == c.name && e.symbol == c.symbol && e.coinDetails.slug == c.slug
    ensures e.coinDetails.numMarketPairs == c.numMarketPairs && e.coinDetails.infiniteSupply == c.infiniteSupply
    ensures e.coinDetails.lastUpdated == c.lastUpdated && e.coinDetails.dateAdded == c.dateAdded
    ensures e.coinDetails.tags == Join(c.tags, ',')
    ensures e.price == round2(UsdQuote(c).price) && e.percentChange24h == round2(UsdQuote(c).percentChange24h)
    ensures e.marketCap == round2(UsdQuote(c).marketCap) && e.coinDetails.volume == round2(UsdQuote(c).volume24h)
    ensures e.coinDetails.fullyDilutedMarketCap == round2(UsdQuote(c).fullyDilutedMarketCap)
    ensures e.coinDetails.marketCapDominance == round2(UsdQuote(c).marketCapDominance)
    ensures e.coinDetails.quoteLastUpdated == UsdQuote(c).lastUpdated
    ensures e.coinDetails.circulatingSupply == c.circulatingSupply
    ensures e.coinDetails.totalSupply == c.totalSupply && e.coinDetails.maxSupply == c.maxSupply
    ensures Usd !in c.quote ==>
      e.price == round2(0.0) && e.percentChange24h == round2(0.0) && e.marketCap == round2(0.0) &&
      e.coinDetails.volume == round2(0.0) && e.coinDetails.fullyDilutedMarketCap == round2(0.0) &&
      e.coinDetails.marketCapDominance == round2(0.0) && e.coinDetails.quoteLastUpdated == ""
  {
    var q := UsdQuote(c);
    CoinEntity(
      id := c.id,
      name := c.name,
      symbol := c.symbol,
      rank := c.cmcRank,
      price := round2(q.price),
      percentChange24h := round2(q.percentChange24h),
      marketCap := round2(q.marketCap),
      coinDetails := CoinDetailsEntity(
        coinId := c.id,
        circulatingSupply := c.circulatingSupply,
        totalSupply := c.totalSupply,
        maxSupply := c.maxSupply,
        numMarketPairs := c.numMarketPairs,
        lastUpdated := c.lastUpdated,
        dateAdded := c.dateAdded,
        tags := Join(c.tags, ','),
        slug := c.slug,
        infiniteSupply := c.infiniteSupply,
        volume := round2(q.volume24h),
        fullyDilutedMarketCap := round2(q.fullyDilutedMarketCap),
        marketCapDominance := round2(q.marketCapDominance),
        quoteLastUpdated := q.lastUpdated))
  }

  /** Applies the formatter to the six quote figures of a row and to nothing else. */
  function RoundQuoteFigures(e: CoinEntity, round2: real -> real): CoinEntity {
    e.(price := round2(e.price),
       percentChange24h := round2(e.percentChange24h),
       marketCap := round2(e.marketCap),
       coinDetails := e.coinDetails.(
         volume := round2(e.coinDetails.volume),
         fullyDilutedMarketCap := round2(e.coinDetails.fullyDilutedMarketCap),
         marketCapDominance := round2(e.coinDetails.marketCapDominance)))
  }

  /**
   * The two variants differ only in the six rounded quote figures: the
   * rounding variant is the unrounded row with those figures formatted.
   */
  lemma RoundedIsUnroundedWithFiguresFormatted(c: CoinData, round2: real -> real)
    ensures AsDatabaseEntityRounded(c, round2) == RoundQuoteFigures(CryptoResponse.AsDatabaseEntity(c), round2)
  {
  }

  /** With a formatter that changes nothing, the two variants agree. */
  lemma RoundedAgreesWhenFormatterIsIdentity(c: CoinData, round2: real -> real)
    requires forall x :: round2(x) == x
    ensures AsDatabaseEntityRounded(c, round2) == CryptoResponse.AsDatabaseEntity(c)
  {
    RoundedIsUnroundedWithFiguresFormatted(c, round2);
  }
}
