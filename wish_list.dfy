/** The wishlist page, and the deletion and label rules it shares with the
    account page: an entry disappears locally only after the server deleted it. */
module WishLists {
  import opened Types

  const AchievedLabel: string := "목표 달성"
  const WaitingLabel: string := "대기중"
  const PriceBadge: string := "가격"
  const DiscountBadge: string := "할인율"
  const WonUnit: string := "원"
  const PercentUnit: string := "%"

  /** `prev.filter(w => w.wishListId !== id)`. */
  function RemoveEntry(ws: seq<WishEntry>, id: int): (r: seq<WishEntry>)
    ensures forall i :: 0 <= i < |r| ==> r[i].wishListId != id
    ensures |r| <= |ws|
    ensures (forall i :: 0 <= i < |ws| ==> ws[i].wishListId != id) ==> r == ws
    decreases |ws|
  {
    if ws == [] then []
    else
      var head := if ws[0].wishListId == id then [] else [ws[0]];
      var rest := RemoveEntry(ws[1..], id);
      assert ws == [ws[0]] + ws[1..];
      assert (forall i :: 0 <= i < |ws| ==> ws[i].wishListId != id) ==>
        head == [ws[0]] && forall i :: 0 <= i < |ws[1..]| ==> ws[1..][i].wishListId != id;
      head + rest
  }

  /** Every entry with another id stays, as often as it occurred. */
  lemma {:induction false} RemoveEntryKeepsOthers(ws: seq<WishEntry>, id: int, w: WishEntry)
    requires w.wishListId != id
    ensures multiset(RemoveEntry(ws, id))[w] == multiset(ws)[w]
    decreases |ws|
  {
    if ws != [] {
      RemoveEntryKeepsOthers(ws[1..], id, w);
      var head := if ws[0].wishListId == id then [] else [ws[0]];
      assert ws == [ws[0]] + ws[1..];
      assert RemoveEntry(ws, id) == head + RemoveEntry(ws[1..], id);
      assert multiset(head)[w] == multiset([ws[0]])[w];
    }
  }

  /** Deleting from a concatenation deletes from each part in place, so the
      entries that stay keep their relative order. */
  lemma {:induction false} RemoveEntryDistributes(a: seq<WishEntry>, b: seq<WishEntry>, id: int)
    ensures RemoveEntry(a + b, id) == RemoveEntry(a, id) + RemoveEntry(b, id)
    decreases |a|
  {
    if a == [] {
      assert a + b == b;
    } else {
      var head := if a[0].wishListId == id then [] else [a[0]];
      assert (a + b)[0] == a[0] && (a + b)[1..] == a[1..] + b;
      RemoveEntryDistributes(a[1..], b, id);
      calc {
        RemoveEntry(a + b, id);
        head + RemoveEntry(a[1..] + b, id);
        head + (RemoveEntry(a[1..], id) + RemoveEntry(b, id));
        (head + RemoveEntry(a[1..], id)) + RemoveEntry(b, id);
        RemoveEntry(a, id) + RemoveEntry(b, id);
      }
    }
  }

  /** Deleting the same id twice is the same as deleting it once. */
  lemma {:induction false} RemoveEntryIdempotent(ws: seq<WishEntry>, id: int)
    ensures RemoveEntry(RemoveEntry(ws, id), id) == RemoveEntry(ws, id)
  {
  }

  /** The badge naming the target kind. */
  function KindBadge(t: TargetType): (s: string)
    ensures s == PriceBadge <==> t == Price
    ensures s == DiscountBadge <==> t == Discount
  {
    match t
    case Price => PriceBadge
    case Discount => DiscountBadge
  }

  /** The target text: a price is locale-formatted (`grouped`) and ends in "원",
      a discount is printed as is and ends in "%". */
  datatype TargetLabel = TargetLabel(value: int, grouped: bool, unit: string)

  function TargetText(w: WishEntry): (l: TargetLabel)
    ensures l.value == w.targetValue
    ensures l.unit == WonUnit <==> w.targetType == Price
    ensures l.unit == PercentUnit <==> w.targetType == Discount
    ensures l.grouped <==> w.targetType == Price
  {
    match w.targetType
    case Price => TargetLabel(w.targetValue, true, WonUnit)
    case Discount => TargetLabel(w.targetValue, false, PercentUnit)
  }

  /** The status badge. */
  function StatusBadge(w: WishEntry): (s: string)
    ensures s == AchievedLabel <==> w.inTargetRange
    ensures s == WaitingLabel <==> !w.inTargetRange
  {
    if w.inTargetRange then AchievedLabel else WaitingLabel
  }

  class WishListPage {
    var wishList: seq<WishEntry>

    constructor ()
      ensures wishList == []
    {
      wishList := [];
    }

    /** `fetchWishList` once `getWishList` settled with `res`: replaced wholesale. */
    method FetchWishList(res: Response<seq<WishEntry>>)
      modifies this`wishList
      ensures wishList == if res.Ok? then res.data else old(wishList)
    {
      if res.Ok? {
        wishList := res.data;
      }
    }

    /** `handleDelete(id)` once `deleteWishList(id)` settled with `res`. */
    method HandleDelete(id: int, res: Response<()>)
      modifies this`wishList
      ensures wishList == if res.Ok? then RemoveEntry(old(wishList), id) else old(wishList)
    {
      if res.Ok? {
        wishList := RemoveEntry(wishList, id);
      }
    }
  }
}
