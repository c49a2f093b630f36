/** The main page: the Steam price index chart, loaded thirty points at a time with
    older pages in front, and the header that depends on the stored session. */
module Home {
  import opened Types
  import Paging
  import Storage

  const PageSize: nat := 30
  const HomeRoute: string := "/"

  class MainPage {
    var indexData: seq<IndexPoint>
    var page: nat
    var hasMore: bool
    var nickname: string
    const storage: Storage.LocalStorage

    function State(): Paging.Paged<IndexPoint>
      reads this
    {
      Paging.Paged(indexData, page, hasMore)
    }

    /** `isLoggedIn`, read from storage afresh at every render. */
    predicate IsLoggedIn()
      reads this, storage
    {
      Storage.HasSession(storage)
    }

    /** The "older data" button: a non-empty chart and more pages to fetch. */
    predicate ShowsLoadMore()
      reads this
    {
      |indexData| > 0 && hasMore
    }

    constructor (storage: Storage.LocalStorage)
      ensures this.storage == storage
      ensures State() == Paging.Paged([], 0, true) && nickname == ""
    {
      this.storage := storage;
      indexData, page, hasMore := [], 0, true;
      nickname := "";
    }

    /** `fetchIndex(p)` once `getSteamIndex` settled with `res`. */
    method FetchIndex(p: nat, res: Response<seq<IndexPoint>>)
      modifies this`indexData, this`hasMore
      ensures State() == Paging.Load(old(State()), p, res, PageSize, Paging.Prepend)
    {
      if res.Ok? {
        var newData := res.data;
        if |newData| < PageSize {
          hasMore := false;
        }
        if p == 0 {
          indexData := newData;
        } else {
          indexData := newData + indexData;
        }
      }
    }

    /** `fetchNickname` once `getAccountInfo` settled with `res`. */
    method FetchNickname(res: Response<AccountInfo>)
      modifies this`nickname
      ensures nickname == if res.Ok? then res.data.nickname else old(nickname)
    {
      if res.Ok? {
        nickname := res.data.nickname;
      }
    }

    /** The mount effect: page 0 of the index, and the nickname only for a stored
        session; `askedNickname` says whether the account request was sent. */
    method Mount(indexRes: Response<seq<IndexPoint>>, accountRes: Response<AccountInfo>) returns (askedNickname: bool)
      modifies this`indexData, this`hasMore, this`nickname
      ensures askedNickname == IsLoggedIn()
      ensures State() == Paging.Load(old(State()), 0, indexRes, PageSize, Paging.Prepend)
      ensures nickname == if askedNickname && accountRes.Ok? then accountRes.data.nickname else old(nickname)
    {
      FetchIndex(0, indexRes);
      askedNickname := Storage.HasSession(storage);
      if askedNickname {
        FetchNickname(accountRes);
      }
    }

    method HandleLoadMore(res: Response<seq<IndexPoint>>) returns (fetched: nat)
      modifies this`page, this`indexData, this`hasMore
      ensures fetched == old(page) + 1 == page
      ensures State() == Paging.LoadMore(old(State()), res, PageSize, Paging.Prepend)
    {
      var nextPage := page + 1;
      page := nextPage;
      FetchIndex(nextPage, res);
      fetched := nextPage;
    }

    /** Removes only the token, so the next render shows the logged-out header;
        returns the route navigated to. */
    method HandleLogout() returns (route: string)
      modifies storage
      ensures storage.entries == old(storage.entries) - {Storage.AccessTokenKey}
      ensures !IsLoggedIn()
      ensures route == HomeRoute
    {
      storage.RemoveItem(Storage.AccessTokenKey);
      route := HomeRoute;
    }
  }
}
