/**
 * `CoinDetailsViewModel.fetchCoinDetails`: load one coin, then decide
 * whether a price chart can be fetched, updating the screen state step by
 * step and stopping at the first error.
 */
module CoinDetailsViewModel {
  import opened Common
  import opened Text
  import opened Records
  import opened CoinEntityMapping
  import Repository

  /** The detail screen's state. */
  datatype CoinDetailsState = CoinDetailsState(
    isLoading: bool,
    coinDetails: Option<CoinData>,
    historicalData: seq<KLine>,
    error: Option<string>,
    selectedInterval: string)

  /** `CoinDetailsState()` with every parameter at its default. */
  const InitialState: CoinDetailsState := CoinDetailsState(false, None, [], None, "1h")

  const CoinMissingError: string := "Failed to fetch coin details"
  const NoChartForUsdtError: string := "No charting available for USDT"
  const OfflineError: string := "Only prices and market info is available when offline"
  const ChartFallbackError: string := "Network error occurred"

  /** The quote asset the chart's trading pair is priced in. */
  const ChartQuoteAsset: string := "USDT"

  /** Coins priced against themselves have no chart. */
  predicate IsUsdt(symbol: string) {
    EqualsIgnoreCase(symbol, "usdt")
  }

  /** A chart is requested only for a found coin that is not USDT, when online. */
  predicate RequestsChart(found: Option<CoinData>, online: bool) {
    found.Some? && !IsUsdt(found.value.symbol) && online
  }

  /**
   * The state one fetch ends in, from state `s`: `found` is the first emission
   * of the coin's flow, `online` whether the device has internet, and
   * `klines(pair, interval)` what the candle request returns or throws.
   */
  function AfterFetch(s: CoinDetailsState, found: Option<CoinData>, online: bool,
                      klines: (string, string) -> Call<seq<KLine>>): (r: CoinDetailsState)
    ensures !r.isLoading
    ensures r.selectedInterval == s.selectedInterval
    ensures found.None? ==> r == s.(isLoading := false, error := Some(CoinMissingError))
    ensures found.Some? ==> r.coinDetails == found
    ensures !RequestsChart(found, online) ==> r.historicalData == s.historicalData
    ensures found.Some? && IsUsdt(found.value.symbol) ==> r.error == Some(NoChartForUsdtError)
    ensures found.Some? && !IsUsdt(found.value.symbol) && !online ==> r.error == Some(OfflineError)
    ensures RequestsChart(found, online) ==>
      var call := klines(found.value.symbol + ChartQuoteAsset, s.selectedInterval);
      (call.Returned? ==> r.historicalData == call.value && r.error == s.error) &&
      (call.Threw? ==> r.historicalData == s.historicalData && r.error == Some(call.message.GetOr(ChartFallbackError)))
  {
    match found
    case None => s.(isLoading := false, error := Some(CoinMissingError))
    case Some(coin) =>
      var withCoin := s.(coinDetails := Some(coin));
      if IsUsdt(coin.symbol) then withCoin.(error := Some(NoChartForUsdtError), isLoading := false)
      else if !online then withCoin.(error := Some(OfflineError), isLoading := false)
      else
        match klines(coin.symbol + ChartQuoteAsset, s.selectedInterval)
        case Returned(data) => withCoin.(historicalData := data, isLoading := false)
        case Threw(m) => withCoin.(error := Some(m.GetOr(ChartFallbackError)), isLoading := false)
  }

  /**
   * What the look-up step yields: `Returned(found)` with the first value of
   * the repository's flow (None for a null), or the exception the flow threw.
   */
  predicate LookupRequestsChart(lookup: Call<Option<CoinData>>, online: bool) {
    lookup.Returned? && RequestsChart(lookup.value, online)
  }

  /**
   * The state one run of the load ends in. An exception from the look-up
   * escapes the coroutine: nothing catches it, so the state keeps the
   * loading flag it had just set and no error.
   */
  function AfterLookup(s: CoinDetailsState, lookup: Call<Option<CoinData>>, online: bool,
                       klines: (string, string) -> Call<seq<KLine>>): (r: CoinDetailsState)
    ensures r.isLoading <==> lookup.Threw?
    ensures r.selectedInterval == s.selectedInterval
    ensures lookup.Threw? ==> r.error == s.error && r.coinDetails == s.coinDetails
    ensures !LookupRequestsChart(lookup, online) ==> r.historicalData == s.historicalData
  {
    match lookup
    case Threw(_) => s.(isLoading := true)
    case Returned(found) => AfterFetch(s, found, online, klines)
  }

  /** A Kotlin flow's first value as the look-up step sees it. */
  function FirstValue(c: Call<CoinData>): Call<Option<CoinData>> {
    match c
    case Returned(v) => Returned(Some(v))
    case Threw(m) => Threw(m)
  }

  /**
   * Opening the screen for an id the table does not hold: the repository's
   * flow throws, so the screen stays loading with neither a coin nor an
   * error, and no chart is requested; "Failed to fetch coin details" is
   * never shown for it.
   */
  lemma UnknownCoinStaysLoading(repository: Repository.DefaultCoinRepositoryImpl, id: int,
                                online: bool, klines: (string, string) -> Call<seq<KLine>>)
    requires id !in repository.coinDao.table
    ensures AfterLookup(InitialState, FirstValue(repository.GetCoinById(id)), online, klines) ==
      InitialState.(isLoading := true)
    ensures !LookupRequestsChart(FirstValue(repository.GetCoinById(id)), online)
  {
  }

  /** Opening the screen for a stored id shows the full record of its row. */
  lemma StoredCoinIsShown(repository: Repository.DefaultCoinRepositoryImpl, id: int,
                          online: bool, klines: (string, string) -> Call<seq<KLine>>)
    requires id in repository.coinDao.table
    ensures AfterLookup(InitialState, FirstValue(repository.GetCoinById(id)), online, klines).coinDetails ==
      Some(AsDetailedDomainObject(repository.coinDao.table[id]))
    ensures !AfterLookup(InitialState, FirstValue(repository.GetCoinById(id)), online, klines).isLoading
  {
  }

  /** Once a coin is shown, a later fetch never takes it away. */
  lemma CoinDetailsNeverCleared(s: CoinDetailsState, found: Option<CoinData>, online: bool,
                                klines: (string, string) -> Call<seq<KLine>>)
    requires s.coinDetails.Some?
    ensures AfterFetch(s, found, online, klines).coinDetails.Some?
  {
  }

  /** A fetch that requests a chart and gets one stores it and leaves the error as it was. */
  lemma ChartSuccessKeepsError(s: CoinDetailsState, found: Option<CoinData>, online: bool,
                               klines: (string, string) -> Call<seq<KLine>>)
    requires RequestsChart(found, online)
    requires klines(found.value.symbol + ChartQuoteAsset, s.selectedInterval).Returned?
    ensures AfterFetch(s, found, online, klines).historicalData == klines(found.value.symbol + ChartQuoteAsset, s.selectedInterval).value
    ensures AfterFetch(s, found, online, klines).error == s.error
  {
  }

  /** Starting from the default state, a successful chart fetch ends with no error. */
  lemma FirstFetchWithChartHasNoError(found: Option<CoinData>, klines: (string, string) -> Call<seq<KLine>>)
    requires RequestsChart(found, true)
    requires klines(found.value.symbol + ChartQuoteAsset, "1h").Returned?
    ensures AfterFetch(InitialState, found, true, klines).error == None
  {
  }

  /**
   * The pair's quote asset "USDT" in any ASCII case, such as "UsDt", is the
   * symbol that gets no chart: the error is set and the chart data is left alone.
   */
  lemma UsdtInAnyCaseHasNoChart(s: CoinDetailsState, coin: CoinData, online: bool,
                                klines: (string, string) -> Call<seq<KLine>>)
    requires EqualsIgnoreCase(coin.symbol, ChartQuoteAsset)
    ensures AfterFetch(s, Some(coin), online, klines).error == Some(NoChartForUsdtError)
    ensures AfterFetch(s, Some(coin), online, klines).historicalData == s.historicalData
  {
    assert IsUsdt(coin.symbol) by {
      var upper, lower := ChartQuoteAsset, "usdt";
      forall i | 0 <= i < |coin.symbol| ensures SameLetterIgnoringCase(coin.symbol[i], lower[i]) {
        assert SameLetterIgnoringCase(coin.symbol[i], upper[i]);
        assert LowerAscii(upper[i]) == lower[i];
      }
    }
  }

  class CoinDetailsViewModel {
    const coinId: int
    var uiState: CoinDetailsState
    /** Every candle request made, as (trading pair, interval). */
    ghost var klineRequests: seq<(string, string)>

    /**
     * The view model starts in the default state and its initialiser runs
     * exactly one fetch for `coinId`. `lookup(id)` is what `firstOrNull()`
     * on the repository's flow for that id gives or throws; `online` is the
     * connectivity check.
     */
    constructor (coinId: int, lookup: int -> Call<Option<CoinData>>, online: bool,
                 klines: (string, string) -> Call<seq<KLine>>)
      ensures this.coinId == coinId
      ensures uiState == AfterLookup(InitialState, lookup(coinId), online, klines)
      ensures klineRequests ==
        if LookupRequestsChart(lookup(coinId), online)
        then [(lookup(coinId).value.value.symbol + ChartQuoteAsset, "1h")]
        else []
    {
      this.coinId := coinId;
      uiState := InitialState;
      klineRequests := [];
      new;
      FetchCoinDetails(coinId, lookup, online, klines);
    }

    /** `fetchCoinDetails(coinId)`: one run of the load, step by step with early returns. */
    method FetchCoinDetails(coinId: int, lookup: int -> Call<Option<CoinData>>, online: bool,
                            klines: (string, string) -> Call<seq<KLine>>)
      modifies this
      ensures uiState == AfterLookup(old(uiState), lookup(coinId), online, klines)
      ensures klineRequests == old(klineRequests) +
        (if LookupRequestsChart(lookup(coinId), online)
         then [(lookup(coinId).value.value.symbol + ChartQuoteAsset, old(uiState).selectedInterval)]
         else [])
    {
      uiState := uiState.(isLoading := true);

      var firstValue := lookup(coinId);
      if firstValue.Threw? {
        // the exception leaves the coroutine; nothing after this point runs
        return;
      }
      var coinDetailsResponse := firstValue.value;
      if coinDetailsResponse.None? {
        uiState := uiState.(error := Some(CoinMissingError), isLoading := false);
        return;
      }
      var coin := coinDetailsResponse.value;

      uiState := uiState.(coinDetails := Some(coin));

      if IsUsdt(coin.symbol) {
        uiState := uiState.(error := Some(NoChartForUsdtError), isLoading := false);
        return;
      }

      if !online {
        uiState := uiState.(error := Some(OfflineError), isLoading := false);
        return;
      }

      var pair := coin.symbol + ChartQuoteAsset;
      klineRequests := klineRequests + [(pair, uiState.selectedInterval)];
      match klines(pair, uiState.selectedInterval) {
        case Returned(historicalResponse) =>
          uiState := uiState.(historicalData := historicalResponse, isLoading := false);
        case Threw(m) =>
          uiState := uiState.(error := Some(m.GetOr(ChartFallbackError)), isLoading := false);
      }
    }
  }
}
