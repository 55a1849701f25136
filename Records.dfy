/**
 * The records of the coin cache: the stored row `CoinEntity` with its
 * embedded `CoinDetailsEntity` block, the remote API's `CoinData` /
 * `CryptoQuote`, and the price candle `KLine`. Kotlin `Double` values are
 * only copied and compared, so they are `real` here; Kotlin's snake_case JSON
 * names become camelCase fields.
 */
module Records {
  import opened Common

  /** The one quote currency the cache keeps. */
  const Usd: string := "USD"

  /** The details block stored inline in every row, with the `details_` column prefix. */
  datatype CoinDetailsEntity = CoinDetailsEntity(
    coinId: int,
    circulatingSupply: real,
    totalSupply: real,
    maxSupply: Option<real>,
    numMarketPairs: int,
    lastUpdated: string,
    dateAdded: string,
    tags: string,            // the tag list, comma-joined
    slug: string,
    infiniteSupply: bool,
    volume: real,
    fullyDilutedMarketCap: real,
    marketCapDominance: real,
    quoteLastUpdated: string)

  /** One row of the `cryptocurrencies` table; `id` is the primary key. */
  datatype CoinEntity = CoinEntity(
    id: int,
    name: string,
    symbol: string,
    rank: int,
    price: real,
    percentChange24h: real,
    marketCap: real,
    coinDetails: CoinDetailsEntity)

  /** A coin's quote in one currency, as the API sends it. */
  datatype CryptoQuote = CryptoQuote(
    price: real,
    volume24h: real,
    volumeChange24h: real,
    percentChange24h: real,
    marketCap: real,
    fullyDilutedMarketCap: real,
    marketCapDominance: real,
    lastUpdated: string)

  /** `CryptoQuote()` with every parameter at its default. */
  const DefaultQuote: CryptoQuote := CryptoQuote(0.0, 0.0, 0.0, 0.0, 0.0, 0.0, 0.0, "")

  /** A coin as the API sends it and as the screens consume it. */
  datatype CoinData = CoinData(
    id: int,
    name: string,
    symbol: string,
    slug: string,
    cmcRank: int,
    numMarketPairs: int,
    circulatingSupply: real,
    totalSupply: real,
    maxSupply: Option<real>,
    percentChange24h: real,
    infiniteSupply: bool,
    lastUpdated: string,
    dateAdded: string,
    tags: seq<string>,
    quote: map<string, CryptoQuote>)

  /** `CoinData()` with every parameter at its default. */
  const DefaultCoinData: CoinData :=
    CoinData(0, "", "", "", 0, 0, 0.0, 0.0, None, 0.0, false, "", "", [], map[])

  /** One price candle; the candle endpoint's parsing is not part of this model. */
  datatype KLine = KLine(
    openTime: int,
    open: real,
    high: real,
    low: real,
    close: real,
    volume: real,
    closeTime: int,
    quoteAssetVolume: real,
    numberOfTrades: int,
    takerBuyBaseAssetVolume: real,
    takerBuyQuoteAssetVolume: real)

  /** `quote["USD"]`, or the all-default quote when the API sent none in USD. */
  function UsdQuote(c: CoinData): (q: CryptoQuote)
    ensures Usd in c.quote ==> q == c.quote[Usd]
    ensures Usd !in c.quote ==> q == DefaultQuote
  {
    if Usd in c.quote then c.quote[Usd] else DefaultQuote
  }
}
