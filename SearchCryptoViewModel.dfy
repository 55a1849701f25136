/**
 * `SearchCryptoViewModel.searchCrypto`: search the local table first, and
 * ask the remote API for the symbol only when nothing local matched.
 */
module SearchCryptoViewModel {
  import opened Common
  import opened Records

  class SearchCryptoViewModel {
    var searchResults: seq<CoinData>
    var isLoading: bool
    /** Every value assigned to `isLoading`, in order. */
    ghost var loadingHistory: seq<bool>
    /** Every query handed to the remote symbol lookup, in order. */
    ghost var remoteRequests: seq<string>

    constructor ()
      ensures searchResults == [] && !isLoading
      ensures loadingHistory == [] && remoteRequests == []
    {
      searchResults := [];
      isLoading := false;
      loadingHistory := [];
      remoteRequests := [];
    }

    /**
     * `searchCrypto(query)`. `localSearch(q)` is the first emission of the
     * repository's local query flow for `q` (None when the flow completes
     * without one); `remoteLookup(q)` is what the remote symbol lookup returns
     * or throws. Returns false when the exception of `!!` on a missing local
     * emission escapes the coroutine.
     */
    method SearchCrypto(query: string,
                        localSearch: string -> Option<seq<CoinData>>,
                        remoteLookup: string -> Call<CoinData>) returns (completed: bool)
      modifies this
      ensures completed <==> localSearch(query).Some?
      ensures completed ==> loadingHistory == old(loadingHistory) + [true, false] && !isLoading
      ensures !completed ==>
        loadingHistory == old(loadingHistory) + [true] && isLoading &&
        searchResults == old(searchResults) && remoteRequests == old(remoteRequests)
      ensures completed && localSearch(query).value != [] ==>
        searchResults == localSearch(query).value && remoteRequests == old(remoteRequests)
      ensures completed && localSearch(query).value == [] ==>
        remoteRequests == old(remoteRequests) + [query] &&
        searchResults == (match remoteLookup(query)
                          case Returned(c) => [c]
                          case Threw(_) => [])
    {
      isLoading := true;
      loadingHistory := loadingHistory + [true];

      var searchQuery := localSearch(query);
      if searchQuery.None? {
        return false;
      }
      if searchQuery.value != [] {
        searchResults := searchQuery.value;
      } else {
        remoteRequests := remoteRequests + [query];
        match remoteLookup(query) {
          case Returned(c) =>
            searchResults := [c];
          case Threw(_) =>
            searchResults := [];
        }
      }
      isLoading := false;
      loadingHistory := loadingHistory + [false];
      return true;
    }
  }
}
