/** The account page: the account card and the wishlist, fetched together; any
    failure of either request sends the user to the login page. */
module Account {
  import opened Types
  import WishLists

  const LoginRoute: string := "/login"

  class MyPage {
    var accountInfo: Option<AccountInfo>
    var wishList: seq<WishEntry>

    /** The account card is rendered only once the account is known. */
    predicate ShowsAccountCard()
      reads this
    {
      accountInfo.Some?
    }

    constructor ()
      ensures accountInfo == None && wishList == []
    {
      accountInfo := None;
      wishList := [];
    }

    /** `fetchData`, with both requests settled; returns the route navigated to, if any. */
    method FetchData(accountRes: Response<AccountInfo>, wishRes: Response<seq<WishEntry>>) returns (nav: Option<string>)
      modifies this`accountInfo, this`wishList
      ensures accountRes.Ok? && wishRes.Ok? ==>
        accountInfo == Some(accountRes.data) && wishList == wishRes.data && nav == None
      ensures accountRes.Err? || wishRes.Err? ==>
        accountInfo == old(accountInfo) && wishList == old(wishList) && nav == Some(LoginRoute)
    {
      if accountRes.Ok? && wishRes.Ok? {
        accountInfo := Some(accountRes.data);
        wishList := wishRes.data;
        nav := None;
      } else {
        nav := Some(LoginRoute);
      }
    }

    /** `handleDelete(id)` once `deleteWishList(id)` settled with `res`. */
    method HandleDelete(id: int, res: Response<()>)
      modifies this`wishList
      ensures wishList == if res.Ok? then WishLists.RemoveEntry(old(wishList), id) else old(wishList)
    {
      if res.Ok? {
        wishList := WishLists.RemoveEntry(wishList, id);
      }
    }
  }
}
