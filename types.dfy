/** The payload shapes the REST API returns, and the outcome of one API call.
    Every record here is an immutable value received from the server. */
module Types {

  datatype Option<+T> = None | Some(value: T)

  /** The outcome of one awaited API call: the envelope's `data` on success, or a
      rejected promise, carrying the server's `message` when the response had one. */
  datatype Response<+T> = Ok(data: T) | Err(message: Option<string>)

  datatype Game = Game(appId: int, name: string, currentPrice: int, originalPrice: int, discountPercent: int)

  datatype Genre = Genre(genreId: int, genreName: string)

  /** One snapshot of a game's price; `snapshotDate` is a lexically sortable date string. */
  datatype PricePoint = PricePoint(snapshotDate: string, price: int, discountPercent: int)

  /** One point of the aggregate Steam price index. */
  datatype IndexPoint = IndexPoint(recordDate: string, indexValue: int, totalGameCount: int)

  datatype TargetType = Price | Discount

  /** A wishlist entry; `inTargetRange` is computed by the server. */
  datatype WishEntry = WishEntry(
    wishListId: int,
    appId: int,
    gameName: string,
    targetType: TargetType,
    targetValue: int,
    inTargetRange: bool)

  datatype AccountInfo = AccountInfo(accountId: int, username: string, nickname: string, email: string)

  /** A JavaScript number produced by `Number(text)`: an integer, or NaN. */
  datatype JsNumber = Finite(value: int) | NaN

  /** `a >= b` on a JavaScript number: false whenever `a` is NaN. */
  function AtLeast(a: JsNumber, b: int): (r: bool)
    ensures a.NaN? ==> !r
    ensures a.Finite? ==> (r <==> b <= a.value)
  {
    a.Finite? && a.value >= b
  }

  /** `a <= b` on a JavaScript number: false whenever `a` is NaN. */
  function AtMost(a: JsNumber, b: int): (r: bool)
    ensures a.NaN? ==> !r
    ensures a.Finite? ==> (r <==> a.value <= b)
  {
    a.Finite? && a.value <= b
  }
}
