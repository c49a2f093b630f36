# Steam price tracker: client-side page state

This project models the state handling of the page components of a browser
dashboard that tracks Steam game prices. The dashboard is a thin front end over a
REST API; what it decides on its own is:

- a **paged list controller**, written three times: the price history of one game
  and the Steam price index history (30 points per page, older pages put in
  front), and the game list (20 games per page, later pages appended, restarted
  from page 0 whenever the genre filter changes);
- the **latest price point** of the loaded history (a `reduce` comparing date
  strings, the first of equal dates winning) and the **wishlist target check**
  against it (a price target must be below the latest price, a discount target
  above the latest discount);
- the **genre toggle** (remove the id if selected, else append it);
- **wishlist deletion** (a filter by id, applied only after the server deleted the
  entry) and the account page's "both requests or go to /login" rule;
- the session flag read from `localStorage` and the logout that clears it.

Every API call is one atomic step whose outcome is a parameter: `Response<T>` is
either `Ok(data)` or `Err(message)`. Each page is a class whose fields are the
page's React state; its methods are proved against pure functions of module
`Paging` (the shared state machine: `Load`, `LoadMore`, `Reset`) or of the page's
own module, and the lemmas are about those functions.

Modules: `Types` (the payload records of `src/types/index.ts`, `Response`,
`JsNumber`), `DateOrder` (JavaScript's `<` on strings), `Paging`, `Storage`
(`localStorage`), `GameDetail`, `GameList`, `Home` (the main page), `WishLists`
(the wishlist page and the deletion and label rules it shares with the account
page), `Account` (the account page).

Render conditions are predicates without contracts: `GameDetailPage.ShowsLoadMore`
and `Home.MainPage.ShowsLoadMore` (a non-empty chart and `hasMore`, GameDetailPage.tsx
lines 111-130, MainPage.tsx lines 94-113), `GameListPage.ShowsLoadMore` (`hasMore`
and a non-empty list, GameListPage.tsx line 128), `GameListPage.IsSelected`
(badge highlight, line 79), `GameDetailPage.ShowsWishListForm` (a stored session,
line 137) and `Account.MyPage.ShowsAccountCard` (MyPage.tsx line 54).

Behaviour of the code worth knowing:

- only the empty string is rejected as a target, and `Number('abc')` is NaN,
  which fails both `>=` and `<=`, so it passes the check and is submitted
  (`JsNumber.NaN`, `AtLeast`, `AtMost`, `GameDetail.NaNPassesCheck`);
- `!!` makes an empty stored token count as logged out (`Storage.HasSession`);
- when only the route's game id changes, the detail page fetches page 0 again but
  keeps `page` and `hasMore` (`GameDetailPage.ShowGame`). If `page` was n, the next
  "load more" fetches page n+1 of the new game, so its pages 1 to n are never shown;
  if `hasMore` was already false, the new game's chart has no "load more" button.

## Model

| member | source | states |
|---|---|---|
| `Paging.Merge` | src/pages/GameDetailPage.tsx:38 | a merged page is the batch followed by the old list (prepend) or the old list followed by the batch (append), nothing lost or reordered |
| `Paging.Load` | src/pages/GameListPage.tsx:26-41 | one settled fetch of page p: a failure changes nothing; a batch shorter than the page size clears `hasMore`, a full one leaves it; page 0 replaces the list, p > 0 merges; the cursor is untouched |
| `Paging.LoadMore` | src/pages/GameDetailPage.tsx:49-53 | "load more" advances the cursor by exactly one even when the fetch fails, merges a successful batch, and never sets `hasMore` back to true |
| `Paging.Reset` | src/pages/GameListPage.tsx:53-55 | a filter change sets the cursor to 0 and `hasMore` to true before fetching page 0, so a successful batch replaces the list and `hasMore` is exactly "the batch was full"; a failure leaves the old list |
| `Paging.RunAdvancesPage` | src/pages/MainPage.tsx:46-50 | after any run of n "load more" clicks the cursor is n pages further |
| `Paging.RunHasMore` | src/pages/GameDetailPage.tsx:15-34 | after a run, `hasMore` holds iff it held before and every successful batch was full; once cleared it never returns without a reset |
| `Paging.PrependRunItems` | src/pages/MainPage.tsx:22-26 | on a time series, a run of pages p > 0 yields all fetched batches, most recent first, followed by the old list unchanged |
| `Paging.AppendRunItems` | src/pages/GameListPage.tsx:33-37 | on the game list, a run yields the old list followed by all fetched batches in fetch order |
| `DateOrder.DateLess` | src/pages/GameDetailPage.tsx:24 | JavaScript's string `>` on snapshot dates: lexicographic, a proper prefix comes first, and no string is before itself; with the next three lemmas it is a strict total order |
| `DateOrder.LessIrreflexive` | src/pages/GameDetailPage.tsx:24 | no date is later than itself, a direct consequence of `DateLess`'s contract |
| `DateOrder.LessTransitive` | src/pages/GameDetailPage.tsx:24 | "later than" is transitive |
| `DateOrder.LessTotal` | src/pages/GameDetailPage.tsx:24 | of two different dates one is always later than the other |
| `DateOrder.PrependKeepsChronological` | src/pages/GameDetailPage.tsx:38 | if the server sends each older page in ascending order and not after the current first point, prepending keeps the chart in ascending date order |
| `GameDetail.LatestIndex` | src/pages/GameDetailPage.tsx:23-25 | the reduce over the first n points lands on a point no other point is strictly later than, and every earlier point is strictly earlier (first of equal dates wins) |
| `GameDetail.LatestData` | src/pages/GameDetailPage.tsx:22-26 | null exactly for an empty history; otherwise an element of the list with no strictly later date, at the first position holding the maximum date |
| `GameDetail.LatestIsFirstLatest` | src/pages/GameDetailPage.tsx:22-26 | the first maximal position is unique, and `latestData` is the point at that position |
| `GameDetail.LatestOfChronological` | src/pages/GameDetailPage.tsx:22-28 | on a history in ascending date order, the latest point has the last point's date |
| `GameDetail.CheckTarget` | src/pages/GameDetailPage.tsx:60-70 | a PRICE target is rejected iff a latest price exists and the value is at least it; a DISCOUNT target iff a latest discount exists and the value is at most it; no history means no check; the error names the latest value |
| `Types.AtLeast` | src/pages/GameDetailPage.tsx:61 | `val >= latestPrice`: false for NaN, the integer comparison otherwise |
| `Types.AtMost` | src/pages/GameDetailPage.tsx:66 | `val <= latestDiscount`: false for NaN, the integer comparison otherwise |
| `GameDetail.NaNPassesCheck` | src/pages/GameDetailPage.tsx:58-70 | a target that is not a number is never rejected, whatever the type and the history |
| `GameDetail.SubmitNotice` | src/pages/GameDetailPage.tsx:72-77 | success shows the confirmation; failure shows the server message, or the fallback when there is none or it is empty |
| `GameDetail.GameDetailPage.constructor` | src/pages/GameDetailPage.tsx:13-19 | empty history, page 0, `hasMore` true, PRICE target, empty value, no messages |
| `GameDetail.GameDetailPage.FetchPriceHistory` | src/pages/GameDetailPage.tsx:30-43 | the new history, cursor and flag are `Paging.Load` with page size 30, prepending |
| `GameDetail.GameDetailPage.ShowGame` | src/pages/GameDetailPage.tsx:45-47 | on mount or a new game id, page 0 is fetched (replacing the history on success) while cursor and `hasMore` are kept |
| `GameDetail.GameDetailPage.HandleLoadMore` | src/pages/GameDetailPage.tsx:49-53 | the cursor becomes page+1 and that page is fetched, as `Paging.LoadMore` |
| `GameDetail.GameDetailPage.HandleAddWishList` | src/pages/GameDetailPage.tsx:55-78 | the error is cleared first; an empty value returns with no request and no error; otherwise the error is `CheckTarget` against `LatestData`, and a request (app id, type, value) is sent iff there is no error; the message changes only when a request was sent |
| `GameDetail.GameDetailPage.SelectTargetType` | src/pages/GameDetailPage.tsx:153-159 | switching the target type clears the error |
| `GameDetail.GameDetailPage.EditTargetValue` | src/pages/GameDetailPage.tsx:169 | editing the value clears the error |
| `GameList.RemoveAll` | src/pages/GameListPage.tsx:50 | removing an id removes every occurrence and keeps every other id as often as it occurred; an absent id changes nothing |
| `GameList.RemoveAllDistributes` | src/pages/GameListPage.tsx:50 | the filter works element by element over a concatenation, so remaining ids keep their order |
| `GameList.Toggle` | src/pages/GameListPage.tsx:49-51 | membership of the toggled id flips, other ids keep their counts, and a new id is appended at the end |
| `GameList.ToggleKeepsDistinct` | src/pages/GameListPage.tsx:49-51 | toggling never selects an id twice |
| `GameList.ToggleTwice` | src/pages/GameListPage.tsx:49-51 | selecting an unselected genre and deselecting it restores the selection exactly |
| `GameList.GamesRequest` | src/pages/GameListPage.tsx:28-30 | an empty selection uses the unfiltered endpoint; a non-empty one the genre endpoint with exactly that selection; page size 20 |
| `GameList.Card` | src/pages/GameListPage.tsx:108-119 | the price reads "무료" exactly when the current price is 0; the discount badge and the struck-through original price appear exactly when the discount is positive |
| `GameList.GameListPage.constructor` | src/pages/GameListPage.tsx:11-15 | empty games, genres and selection, page 0, `hasMore` true |
| `GameList.GameListPage.FetchGenres` | src/pages/GameListPage.tsx:17-24 | a successful genre fetch replaces the genres; a failure keeps them |
| `GameList.GameListPage.FetchGames` | src/pages/GameListPage.tsx:26-41 | the request is `GamesRequest(p, ids)` and the new list and flag are `Paging.Load` with page size 20, appending |
| `GameList.GameListPage.Mount` | src/pages/GameListPage.tsx:43-46 | the mount loads genres and page 0 of the unfiltered list |
| `GameList.GameListPage.ToggleGenre` | src/pages/GameListPage.tsx:48-56 | the selection becomes `Toggle`, the cursor 0 and `hasMore` true, and page 0 is fetched with the new selection, as `Paging.Reset` |
| `GameList.GameListPage.HandleLoadMore` | src/pages/GameListPage.tsx:58-62 | the cursor becomes page+1 and that page is fetched with the current selection |
| `Home.MainPage.constructor` | src/pages/MainPage.tsx:11-14 | empty index data, page 0, `hasMore` true, empty nickname |
| `Home.MainPage.FetchIndex` | src/pages/MainPage.tsx:17-30 | the new index data and flag are `Paging.Load` with page size 30, prepending; a failure changes nothing |
| `Home.MainPage.FetchNickname` | src/pages/MainPage.tsx:32-39 | a successful account fetch sets the nickname; a failure keeps it |
| `Home.MainPage.Mount` | src/pages/MainPage.tsx:41-44 | page 0 of the index is fetched, and the nickname is requested exactly when a session is stored |
| `Home.MainPage.HandleLoadMore` | src/pages/MainPage.tsx:46-50 | the cursor becomes page+1 and that page is fetched, as `Paging.LoadMore` |
| `Home.MainPage.HandleLogout` | src/pages/MainPage.tsx:52-55 | only the token key is removed from storage, the next render is logged out, and the route is "/" |
| `Storage.LocalStorage.GetItem` | src/pages/MainPage.tsx:15 | a stored key yields its value, a missing key yields nothing |
| `Storage.HasSession` | src/pages/MainPage.tsx:15 | logged in exactly when `getItem` finds the token key and the stored token is not empty |
| `Storage.LocalStorage.SetItem` | src/pages/LoginPage.tsx:18 | storing a key changes that key only |
| `Storage.LocalStorage.RemoveItem` | src/pages/MainPage.tsx:53 | removing a key removes that key only |
| `WishLists.RemoveEntry` | src/pages/WishListPage.tsx:29 | no remaining entry has the deleted id, the list never grows, and deleting an absent id changes nothing |
| `WishLists.RemoveEntryKeepsOthers` | src/pages/WishListPage.tsx:29 | every entry with another id stays, as often as it occurred |
| `WishLists.RemoveEntryDistributes` | src/pages/WishListPage.tsx:29 | deletion works element by element over a concatenation, so remaining entries keep their relative order |
| `WishLists.RemoveEntryIdempotent` | src/pages/MyPage.tsx:35 | deleting the same id again changes nothing |
| `WishLists.KindBadge` | src/pages/WishListPage.tsx:69 | the kind badge reads "가격" exactly for PRICE and "할인율" exactly for DISCOUNT |
| `WishLists.TargetText` | src/pages/WishListPage.tsx:72-74 | the target shows the entry's value, ending in "원" (locale-grouped) exactly for PRICE and in "%" exactly for DISCOUNT |
| `WishLists.StatusBadge` | src/pages/WishListPage.tsx:76-77 | the status reads "목표 달성" exactly when the entry is in its target range, "대기중" otherwise |
| `WishLists.WishListPage.constructor` | src/pages/WishListPage.tsx:11 | the list starts empty |
| `WishLists.WishListPage.FetchWishList` | src/pages/WishListPage.tsx:13-20 | a successful fetch replaces the list wholesale; a failure keeps it |
| `WishLists.WishListPage.HandleDelete` | src/pages/WishListPage.tsx:26-33 | the entries with the id are removed only after the server delete succeeded; a failed delete leaves the list unchanged |
| `Account.MyPage.constructor` | src/pages/MyPage.tsx:11-12 | no account, empty list |
| `Account.MyPage.FetchData` | src/pages/MyPage.tsx:14-26 | when both requests succeed the account and the list are set from them and nothing navigates; when either fails neither is set and the page navigates to /login |
| `Account.MyPage.HandleDelete` | src/pages/MyPage.tsx:32-39 | the entries with the id are removed only after the server delete succeeded; a failed delete leaves the list unchanged |

## Left out

- HTTP: the axios client, the bearer header attached when a token is stored, the
  comma join of genre ids and the JSON envelope (src/api/index.ts) are outside the
  model; each call's outcome is a `Response` parameter. Requests the page computes
  are returned: the game-list request of the four `GameListPage` fetching methods,
  the wishlist request of `HandleAddWishList`, the page number of both
  `HandleLoadMore` methods of the charts, and whether `Home.MainPage.Mount` asks for
  the nickname. The other methods return nothing, because their inputs already fix
  the request.
- Concurrency: overlapping "load more" clicks and last-response-wins ordering are
  not modelled; each fetch is one atomic step, applied when it settles.
- Routing (src/App.tsx) and navigation, beyond returning the route a handler
  navigates to.
- The login and signup pages, except that login stores the token (`Storage.LocalStorage.SetItem`).
- Rendering: charts, images and their error fallbacks, CSS classes, the empty-list
  placeholders, the "n% 할인중" hint in the wishlist form.
- `toLocaleString`: formatting is locale-dependent; messages carry the number
  (`FormError`, `PriceLabel.Won`, `TargetLabel.grouped`) instead of the text.
- `Number(targetValue)`: the conversion is a JavaScript builtin; the handler takes
  its result as the parameter `val`. Prices, discounts and targets are integers, so
  fractional inputs are not modelled.
- `DateOrder.DateLess`: JavaScript compares strings by UTF-16 code units; the
  model compares Unicode scalar values, which agree on the ASCII date strings the
  server sends and differ only for characters outside the Basic Multilingual Plane.
- Console logging of failed fetches.
- The server's own guarantees are not checked by the client. That a discounted
  game's current price is below its original price is not modelled. That pages come
  in date order is a hypothesis of `DateOrder.PrependKeepsChronological`.
