/** The game list page: twenty games per page appended at the end, a genre filter
    whose every change restarts the list from page 0, and the price labels of a card. */
module GameList {
  import opened Types
  import Paging

  const PageSize: nat := 20

  /** `ids.filter(id => id !== x)`. */
  function RemoveAll(ids: seq<int>, x: int): (r: seq<int>)
    ensures multiset(r) == multiset(ids)[x := 0]
    ensures x !in r
    ensures x !in ids ==> r == ids
    decreases |ids|
  {
    if ids == [] then []
    else
      var head := if ids[0] == x then [] else [ids[0]];
      var rest := RemoveAll(ids[1..], x);
      assert ids == [ids[0]] + ids[1..];
      assert multiset(ids) == multiset{ids[0]} + multiset(ids[1..]);
      head + rest
  }

  /** Filtering a concatenation filters each part in place, so the ids that stay
      keep their relative order. */
  lemma {:induction false} RemoveAllDistributes(a: seq<int>, b: seq<int>, x: int)
    ensures RemoveAll(a + b, x) == RemoveAll(a, x) + RemoveAll(b, x)
    decreases |a|
  {
    if a == [] {
      assert a + b == b;
    } else {
      var head := if a[0] == x then [] else [a[0]];
      assert (a + b)[0] == a[0] && (a + b)[1..] == a[1..] + b;
      RemoveAllDistributes(a[1..], b, x);
      calc {
        RemoveAll(a + b, x);
        head + RemoveAll(a[1..] + b, x);
        head + (RemoveAll(a[1..], x) + RemoveAll(b, x));
        (head + RemoveAll(a[1..], x)) + RemoveAll(b, x);
        RemoveAll(a, x) + RemoveAll(b, x);
      }
    }
  }

  /** `toggleGenre`'s new selection: drop the id if it is selected, else add it last. */
  function Toggle(selected: seq<int>, id: int): (r: seq<int>)
    ensures id in r <==> id !in selected
    ensures forall g :: g != id ==> multiset(r)[g] == multiset(selected)[g]
    ensures id !in selected ==> r == selected + [id]
  {
    if id in selected then RemoveAll(selected, id) else selected + [id]
  }

  /** No id is selected twice. */
  ghost predicate Distinct(ids: seq<int>) {
    forall g :: multiset(ids)[g] <= 1
  }

  /** Toggling never selects an id twice, so a selection built by clicks stays distinct. */
  lemma ToggleKeepsDistinct(selected: seq<int>, id: int)
    requires Distinct(selected)
    ensures Distinct(Toggle(selected, id))
  {
    var r := Toggle(selected, id);
    forall g
      ensures multiset(r)[g] <= 1
    {
      if g == id && id !in selected {
        assert multiset(r) == multiset(selected) + multiset{id};
      }
    }
  }

  /** Selecting a genre and deselecting it again restores the selection exactly. */
  lemma ToggleTwice(selected: seq<int>, id: int)
    requires id !in selected
    ensures Toggle(Toggle(selected, id), id) == selected
  {
    RemoveAllDistributes(selected, [id], id);
    assert RemoveAll([id], id) == [];
  }

  /** Which endpoint `fetchGames` calls and with what parameters. */
  datatype GameRequest = AllGames(page: nat, size: nat) | ByGenres(genreIds: seq<int>, page: nat, size: nat)

  function GamesRequest(p: nat, genreIds: seq<int>): (q: GameRequest)
    ensures q.AllGames? <==> |genreIds| == 0
    ensures q.ByGenres? ==> q.genreIds == genreIds
    ensures q.page == p && q.size == PageSize
  {
    if |genreIds| == 0 then AllGames(p, PageSize) else ByGenres(genreIds, p, PageSize)
  }

  /** The price line of a card; `Free` is rendered as "무료", `Won` with the
      locale-formatted amount. */
  datatype PriceLabel = Free | Won(amount: int)

  datatype GameCard = GameCard(discountBadge: Option<int>, price: PriceLabel, struckPrice: Option<int>)

  function Card(g: Game): (c: GameCard)
    ensures c.price == Free <==> g.currentPrice == 0
    ensures c.price.Won? ==> c.price.amount == g.currentPrice
    ensures c.discountBadge.Some? <==> g.discountPercent > 0
    ensures c.struckPrice.Some? <==> g.discountPercent > 0
    ensures c.discountBadge.Some? ==> c.discountBadge.value == g.discountPercent
    ensures c.struckPrice.Some? ==> c.struckPrice.value == g.originalPrice
  {
    var onSale := g.discountPercent > 0;
    GameCard(
      if onSale then Some(g.discountPercent) else None,
      if g.currentPrice == 0 then Free else Won(g.currentPrice),
      if onSale then Some(g.originalPrice) else None)
  }

  class GameListPage {
    var games: seq<Game>
    var genres: seq<Genre>
    var selectedGenreIds: seq<int>
    var page: nat
    var hasMore: bool

    function State(): Paging.Paged<Game>
      reads this
    {
      Paging.Paged(games, page, hasMore)
    }

    /** The "more" button: more pages to fetch and a non-empty list. */
    predicate ShowsLoadMore()
      reads this
    {
      hasMore && |games| > 0
    }

    /** A genre badge is highlighted when its id is selected. */
    predicate IsSelected(genreId: int)
      reads this
    {
      genreId in selectedGenreIds
    }

    constructor ()
      ensures genres == [] && selectedGenreIds == []
      ensures State() == Paging.Paged([], 0, true)
    {
      games, genres, selectedGenreIds := [], [], [];
      page, hasMore := 0, true;
    }

    /** `fetchGenres` once `getGenres` settled with `res`. */
    method FetchGenres(res: Response<seq<Genre>>)
      modifies this`genres
      ensures genres == if res.Ok? then res.data else old(genres)
    {
      if res.Ok? {
        genres := res.data;
      }
    }

    /** `fetchGames(p, genreIds)`: `q` is the request sent, `res` how it settled. */
    method FetchGames(p: nat, genreIds: seq<int>, res: Response<seq<Game>>) returns (q: GameRequest)
      modifies this`games, this`hasMore
      ensures q == GamesRequest(p, genreIds)
      ensures State() == Paging.Load(old(State()), p, res, PageSize, Paging.Append)
    {
      if |genreIds| == 0 {
        q := AllGames(p, PageSize);
      } else {
        q := ByGenres(genreIds, p, PageSize);
      }
      if res.Ok? {
        var newData := res.data;
        if |newData| < PageSize {
          hasMore := false;
        }
        if p == 0 {
          games := newData;
        } else {
          games := games + newData;
        }
      }
    }

    /** The mount effect: the genres, and page 0 of the unfiltered list. */
    method Mount(genresRes: Response<seq<Genre>>, gamesRes: Response<seq<Game>>) returns (q: GameRequest)
      modifies this`genres, this`games, this`hasMore
      ensures genres == if genresRes.Ok? then genresRes.data else old(genres)
      ensures q == AllGames(0, PageSize)
      ensures State() == Paging.Load(old(State()), 0, gamesRes, PageSize, Paging.Append)
    {
      FetchGenres(genresRes);
      q := FetchGames(0, [], gamesRes);
    }

    /** A click on a genre badge. */
    method ToggleGenre(genreId: int, res: Response<seq<Game>>) returns (q: GameRequest)
      modifies this`selectedGenreIds, this`page, this`hasMore, this`games
      ensures selectedGenreIds == Toggle(old(selectedGenreIds), genreId)
      ensures q == GamesRequest(0, selectedGenreIds)
      ensures State() == Paging.Reset(old(State()), res, PageSize, Paging.Append)
    {
      var updated := if genreId in selectedGenreIds
        then RemoveAll(selectedGenreIds, genreId)
        else selectedGenreIds + [genreId];
      selectedGenreIds := updated;
      page := 0;
      hasMore := true;
      q := FetchGames(0, updated, res);
    }

    method HandleLoadMore(res: Response<seq<Game>>) returns (q: GameRequest)
      modifies this`page, this`games, this`hasMore
      ensures q == GamesRequest(old(page) + 1, selectedGenreIds)
      ensures State() == Paging.LoadMore(old(State()), res, PageSize, Paging.Append)
    {
      var nextPage := page + 1;
      page := nextPage;
      q := FetchGames(nextPage, selectedGenreIds, res);
    }
  }
}
