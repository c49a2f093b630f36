/** The game detail page: the price history chart, loaded thirty points at a time
    with older pages in front, and the wishlist form whose target is checked against
    the latest loaded price point before it is sent. */
module GameDetail {
  import opened Types
  import opened DateOrder
  import Paging
  import Storage

  const PageSize: nat := 30
  const AddedNotice: string := "위시리스트에 추가됐어요!"
  const AddFailedNotice: string := "추가 실패"

  function SnapshotDate(p: PricePoint): string {
    p.snapshotDate
  }

  /** `k` is the first position holding a date no other point is later than. */
  ghost predicate IsFirstLatest(h: seq<PricePoint>, k: int) {
    && 0 <= k < |h|
    && (forall j :: 0 <= j < |h| ==> !DateLess(h[k].snapshotDate, h[j].snapshotDate))
    && (forall j :: 0 <= j < k ==> DateLess(h[j].snapshotDate, h[k].snapshotDate))
  }

  /** Replacing the running latest by a strictly later point keeps it the first maximum. */
  lemma LaterPointTakesOver(h: seq<PricePoint>, n: nat, k: nat)
    requires 1 < n <= |h| && k < n - 1
    requires forall j :: 0 <= j < n - 1 ==> !DateLess(h[k].snapshotDate, h[j].snapshotDate)
    requires DateLess(h[k].snapshotDate, h[n - 1].snapshotDate)
    ensures forall j :: 0 <= j < n ==> !DateLess(h[n - 1].snapshotDate, h[j].snapshotDate)
    ensures forall j :: 0 <= j < n - 1 ==> DateLess(h[j].snapshotDate, h[n - 1].snapshotDate)
  {
    var last := h[n - 1].snapshotDate;
    forall j | 0 <= j < n - 1
      ensures DateLess(h[j].snapshotDate, last) && !DateLess(last, h[j].snapshotDate)
    {
      LessTotal(h[j].snapshotDate, h[k].snapshotDate);
      if h[j].snapshotDate != h[k].snapshotDate {
        LessTransitive(h[j].snapshotDate, h[k].snapshotDate, last);
      }
      LessAsymmetric(h[j].snapshotDate, last);
    }
    LessIrreflexive(last);
  }

  /** The `reduce` over the first `n` points: keep the running latest unless the
      current point's date is strictly later, so the earliest of equal dates wins. */
  function LatestIndex(h: seq<PricePoint>, n: nat): (k: nat)
    requires 0 < n <= |h|
    ensures k < n
    ensures forall j :: 0 <= j < n ==> !DateLess(h[k].snapshotDate, h[j].snapshotDate)
    ensures forall j :: 0 <= j < k ==> DateLess(h[j].snapshotDate, h[k].snapshotDate)
    decreases n
  {
    if n == 1 then
      LessIrreflexive(h[0].snapshotDate);
      0
    else
      var k := LatestIndex(h, n - 1);
      if DateLess(h[k].snapshotDate, h[n - 1].snapshotDate) then
        LaterPointTakesOver(h, n, k);
        n - 1
      else
        k
  }

  /** `latestData`: null for an empty history, otherwise the reduce's result. */
  function LatestData(h: seq<PricePoint>): (r: Option<PricePoint>)
    ensures r.None? <==> |h| == 0
    ensures r.Some? ==> r.value in h
    ensures r.Some? ==> forall j :: 0 <= j < |h| ==> !DateLess(r.value.snapshotDate, h[j].snapshotDate)
    ensures r.Some? ==> exists k :: IsFirstLatest(h, k) && r.value == h[k]
  {
    if |h| > 0 then
      var k := LatestIndex(h, |h|);
      assert IsFirstLatest(h, k);
      Some(h[k])
    else
      None
  }

  /** The first maximum is unique, so it is exactly what `latestData` picks. */
  lemma LatestIsFirstLatest(h: seq<PricePoint>, k: int)
    requires IsFirstLatest(h, k)
    ensures LatestData(h) == Some(h[k])
  {
    var m := LatestIndex(h, |h|);
    assert m == k;
  }

  /** On a history in ascending date order, the latest point carries the last date. */
  lemma LatestOfChronological(h: seq<PricePoint>)
    requires |h| > 0 && Chronological(h, SnapshotDate)
    ensures LatestData(h).Some? && LatestData(h).value.snapshotDate == h[|h| - 1].snapshotDate
  {
    var m := LatestIndex(h, |h|);
    var last := |h| - 1;
    assert m < last ==> !DateLess(SnapshotDate(h[last]), SnapshotDate(h[m]));
    LastIsLatest(h, m);
  }

  lemma LastIsLatest(h: seq<PricePoint>, m: nat)
    requires |h| > 0 && m == LatestIndex(h, |h|)
    requires m < |h| - 1 ==> !DateLess(h[|h| - 1].snapshotDate, h[m].snapshotDate)
    ensures LatestData(h).Some? && LatestData(h).value.snapshotDate == h[|h| - 1].snapshotDate
  {
    if m < |h| - 1 {
      NeitherLessIsEqual(h[m].snapshotDate, h[|h| - 1].snapshotDate);
    }
  }

  /** The inline error under the wishlist form; the number is shown with
      `toLocaleString`, whose formatting is not modelled. */
  datatype FormError = NoError | PriceNotBelow(currentPrice: int) | DiscountNotAbove(currentDiscount: int)

  /** The client-side check of a target against the latest loaded point. */
  function CheckTarget(tt: TargetType, val: JsNumber, latest: Option<PricePoint>): (e: FormError)
    ensures e != NoError <==>
      latest.Some? &&
      (if tt == Price then AtLeast(val, latest.value.price) else AtMost(val, latest.value.discountPercent))
    ensures e.PriceNotBelow? ==> tt == Price && e.currentPrice == latest.value.price
    ensures e.DiscountNotAbove? ==> tt == Discount && e.currentDiscount == latest.value.discountPercent
  {
    match latest
    case None => NoError
    case Some(point) =>
      match tt
      case Price =>
        if AtLeast(val, point.price) then PriceNotBelow(point.price) else NoError
      case Discount =>
        if AtMost(val, point.discountPercent) then DiscountNotAbove(point.discountPercent) else NoError
  }

  /** A value that is not a number fails both comparisons, so it passes the check
      whatever the target type and the history. */
  lemma NaNPassesCheck(tt: TargetType, latest: Option<PricePoint>)
    ensures CheckTarget(tt, NaN, latest) == NoError
  {
  }

  /** The message shown after `addWishList` settles: a confirmation, the server's
      message, or the fallback when the server gave no (or an empty) message. */
  function SubmitNotice(reply: Response<()>): (msg: string)
    ensures |msg| > 0
    ensures reply.Ok? ==> msg == AddedNotice
    ensures reply.Err? && reply.message.Some? && |reply.message.value| > 0 ==> msg == reply.message.value
    ensures reply.Err? && (reply.message.None? || reply.message.value == "") ==> msg == AddFailedNotice
  {
    match reply
    case Ok(_) => AddedNotice
    case Err(Some(m)) => if m != "" then m else AddFailedNotice
    case Err(None) => AddFailedNotice
  }

  /** The body of the `addWishList` request. */
  datatype WishRequest = WishRequest(appId: int, targetType: TargetType, targetValue: JsNumber)

  class GameDetailPage {
    var appId: int
    var priceHistory: seq<PricePoint>
    var page: nat
    var hasMore: bool
    var targetType: TargetType
    var targetValue: string
    var wishlistMsg: string
    var error: FormError
    const storage: Storage.LocalStorage

    function State(): Paging.Paged<PricePoint>
      reads this
    {
      Paging.Paged(priceHistory, page, hasMore)
    }

    /** The wishlist form is rendered only for a stored session. */
    predicate ShowsWishListForm()
      reads this, storage
    {
      Storage.HasSession(storage)
    }

    /** The "older data" button: a non-empty chart and more pages to fetch. */
    predicate ShowsLoadMore()
      reads this
    {
      |priceHistory| > 0 && hasMore
    }

    constructor (appId: int, storage: Storage.LocalStorage)
      ensures this.appId == appId && this.storage == storage
      ensures State() == Paging.Paged([], 0, true)
      ensures targetType == Price && targetValue == "" && wishlistMsg == "" && error == NoError
    {
      this.appId := appId;
      this.storage := storage;
      priceHistory, page, hasMore := [], 0, true;
      targetType, targetValue, wishlistMsg, error := Price, "", "", NoError;
    }

    /** `fetchPriceHistory(p)` once `getPriceHistory` settled with `res`. */
    method FetchPriceHistory(p: nat, res: Response<seq<PricePoint>>)
      modifies this`priceHistory, this`hasMore
      ensures State() == Paging.Load(old(State()), p, res, PageSize, Paging.Prepend)
    {
      if res.Ok? {
        var newData := res.data;
        if |newData| < PageSize {
          hasMore := false;
        }
        if p == 0 {
          priceHistory := newData;
        } else {
          priceHistory := newData + priceHistory;
        }
      }
    }

    /** The effect run on mount and whenever the route's game id changes: page 0 is
        fetched again, but the cursor and the "has more" flag are not reset. */
    method ShowGame(id: int, res: Response<seq<PricePoint>>)
      modifies this`appId, this`priceHistory, this`hasMore
      ensures appId == id
      ensures State() == Paging.Load(old(State()), 0, res, PageSize, Paging.Prepend)
    {
      appId := id;
      FetchPriceHistory(0, res);
    }

    method HandleLoadMore(res: Response<seq<PricePoint>>) returns (fetched: nat)
      modifies this`page, this`priceHistory, this`hasMore
      ensures fetched == old(page) + 1 == page
      ensures State() == Paging.LoadMore(old(State()), res, PageSize, Paging.Prepend)
    {
      var nextPage := page + 1;
      page := nextPage;
      FetchPriceHistory(nextPage, res);
      fetched := nextPage;
    }

    /** A submit click. `val` is `Number(targetValue)`; `reply` is how `addWishList`
        settles if it is called. Returns the request sent, if any. */
    method HandleAddWishList(val: JsNumber, reply: Response<()>) returns (sent: Option<WishRequest>)
      modifies this`error, this`wishlistMsg
      ensures targetValue == "" ==> error == NoError
      ensures targetValue != "" ==> error == CheckTarget(targetType, val, LatestData(priceHistory))
      ensures sent.Some? <==> targetValue != "" && error == NoError
      ensures sent.Some? ==> sent.value == WishRequest(appId, targetType, val) && wishlistMsg == SubmitNotice(reply)
      ensures sent.None? ==> wishlistMsg == old(wishlistMsg)
    {
      error := NoError;
      if targetValue == "" {
        return None;
      }
      error := CheckTarget(targetType, val, LatestData(priceHistory));
      if error != NoError {
        return None;
      }
      sent := Some(WishRequest(appId, targetType, val));
      wishlistMsg := SubmitNotice(reply);
    }

    /** The "price target" / "discount target" buttons. */
    method SelectTargetType(t: TargetType)
      modifies this`targetType, this`error
      ensures targetType == t && error == NoError
    {
      targetType := t;
      error := NoError;
    }

    /** Typing in the target field. */
    method EditTargetValue(text: string)
      modifies this`targetValue, this`error
      ensures targetValue == text && error == NoError
    {
      targetValue := text;
      error := NoError;
    }
  }
}
