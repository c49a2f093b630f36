/** The paged-list controller that the price-history, index-history and game-list
    pages each implement: an accumulated list, a page cursor and a "has more" flag.
    These functions are the specification the page classes are proved against. */
module Paging {
  import opened Types

  /** Where a later page goes: time series put older pages in front, the game list at the end. */
  datatype Direction = Prepend | Append

  datatype Paged<T> = Paged(items: seq<T>, page: nat, hasMore: bool)

  /** The list after merging a page fetched with p > 0. */
  function Merge<T>(prev: seq<T>, batch: seq<T>, dir: Direction): (r: seq<T>)
    ensures |r| == |prev| + |batch|
    ensures dir == Prepend ==> r[..|batch|] == batch && r[|batch|..] == prev
    ensures dir == Append ==> r[..|prev|] == prev && r[|prev|..] == batch
  {
    match dir
    case Prepend => batch + prev
    case Append => prev + batch
  }

  /** The state after the fetch of page `p` completes with `res`; the cursor is not touched. */
  function Load<T>(s: Paged<T>, p: nat, res: Response<seq<T>>, size: nat, dir: Direction): (r: Paged<T>)
    ensures r.page == s.page
    ensures res.Err? ==> r == s
    ensures res.Ok? ==> (r.hasMore <==> s.hasMore && |res.data| >= size)
    ensures res.Ok? && p == 0 ==> r.items == res.data
    ensures res.Ok? && p > 0 ==> r.items == Merge(s.items, res.data, dir)
  {
    match res
    case Err(_) => s
    case Ok(batch) =>
      var hasMore := if |batch| < size then false else s.hasMore;
      var items := if p == 0 then batch else Merge(s.items, batch, dir);
      Paged(items, s.page, hasMore)
  }

  /** "Load more": advance the cursor by one, then fetch that page. */
  function LoadMore<T>(s: Paged<T>, res: Response<seq<T>>, size: nat, dir: Direction): (r: Paged<T>)
    ensures r.page == s.page + 1
    ensures res.Err? ==> r.items == s.items && r.hasMore == s.hasMore
    ensures res.Ok? ==> r.items == Merge(s.items, res.data, dir)
    ensures !s.hasMore ==> !r.hasMore
  {
    var next := s.page + 1;
    Load(s.(page := next), next, res, size, dir)
  }

  /** A filter change: cursor back to 0, "has more" back to true, then fetch page 0. */
  function Reset<T>(s: Paged<T>, res: Response<seq<T>>, size: nat, dir: Direction): (r: Paged<T>)
    ensures r.page == 0
    ensures res.Err? ==> r.items == s.items && r.hasMore
    ensures res.Ok? ==> r.items == res.data && (r.hasMore <==> |res.data| >= size)
  {
    Load(Paged(s.items, 0, true), 0, res, size, dir)
  }

  /** The state after one "load more" per response, in order, with no filter change. */
  function LoadMoreRun<T>(s: Paged<T>, rs: seq<Response<seq<T>>>, size: nat, dir: Direction): Paged<T>
    decreases |rs|
  {
    if rs == [] then s else LoadMoreRun(LoadMore(s, rs[0], size, dir), rs[1..], size, dir)
  }

  /** Every successful batch of the run is a full page. */
  ghost predicate AllFull<T>(rs: seq<Response<seq<T>>>, size: nat) {
    forall i :: 0 <= i < |rs| && rs[i].Ok? ==> |rs[i].data| >= size
  }

  /** The successful batches of a run, in the order they were fetched. */
  function Batches<T>(rs: seq<Response<seq<T>>>): seq<T>
    decreases |rs|
  {
    if rs == [] then []
    else (if rs[0].Ok? then rs[0].data else []) + Batches(rs[1..])
  }

  /** The successful batches of a run, the most recently fetched first. */
  function NewestFirst<T>(rs: seq<Response<seq<T>>>): seq<T>
    decreases |rs|
  {
    if rs == [] then []
    else NewestFirst(rs[1..]) + (if rs[0].Ok? then rs[0].data else [])
  }

  /** The cursor advances once per click, whether or not the fetch succeeded. */
  lemma {:induction false} RunAdvancesPage<T>(s: Paged<T>, rs: seq<Response<seq<T>>>, size: nat, dir: Direction)
    ensures LoadMoreRun(s, rs, size, dir).page == s.page + |rs|
    decreases |rs|
  {
    if rs != [] {
      RunAdvancesPage(LoadMore(s, rs[0], size, dir), rs[1..], size, dir);
    }
  }

  /** After a run, more pages are offered exactly when they were before and no
      successful batch was short; in particular a cleared flag never comes back. */
  lemma {:induction false} RunHasMore<T>(s: Paged<T>, rs: seq<Response<seq<T>>>, size: nat, dir: Direction)
    ensures LoadMoreRun(s, rs, size, dir).hasMore <==> s.hasMore && AllFull(rs, size)
    decreases |rs|
  {
    if rs != [] {
      var s' := LoadMore(s, rs[0], size, dir);
      RunHasMore(s', rs[1..], size, dir);
      if AllFull(rs[1..], size) && (rs[0].Ok? ==> |rs[0].data| >= size) {
        forall i | 0 <= i < |rs| && rs[i].Ok?
          ensures |rs[i].data| >= size
        {
          if i > 0 {
            assert rs[i] == rs[1..][i - 1];
          }
        }
      }
      if AllFull(rs, size) {
        forall i | 0 <= i < |rs[1..]| && rs[1..][i].Ok?
          ensures |rs[1..][i].data| >= size
        {
          assert rs[1..][i] == rs[i + 1];
        }
      }
    }
  }

  /** On a time series, a run puts every fetched batch in front of the old list,
      the most recently fetched page first; the old items keep their place at the end. */
  lemma {:induction false} PrependRunItems<T>(s: Paged<T>, rs: seq<Response<seq<T>>>, size: nat)
    ensures LoadMoreRun(s, rs, size, Prepend).items == NewestFirst(rs) + s.items
    decreases |rs|
  {
    if rs != [] {
      var s' := LoadMore(s, rs[0], size, Prepend);
      PrependRunItems(s', rs[1..], size);
      var b := if rs[0].Ok? then rs[0].data else [];
      assert s'.items == b + s.items;
      assert NewestFirst(rs[1..]) + (b + s.items) == (NewestFirst(rs[1..]) + b) + s.items;
    }
  }

  /** On the game list, a run appends every fetched batch, in fetch order, after the old list. */
  lemma {:induction false} AppendRunItems<T>(s: Paged<T>, rs: seq<Response<seq<T>>>, size: nat)
    ensures LoadMoreRun(s, rs, size, Append).items == s.items + Batches(rs)
    decreases |rs|
  {
    if rs != [] {
      var s' := LoadMore(s, rs[0], size, Append);
      AppendRunItems(s', rs[1..], size);
      var b := if rs[0].Ok? then rs[0].data else [];
      assert s'.items == s.items + b;
      assert (s.items + b) + Batches(rs[1..]) == s.items + (b + Batches(rs[1..]));
    }
  }
}
