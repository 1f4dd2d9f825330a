/**
 * The `do … while` loop of `Main` that lists a playlist page by page, as a sequence
 * of states: the state after `n` requests is `WalkAfter(fetch, n)`, where `fetch`
 * answers a request sent with a page token.
 */
module Listing {
  import opened Wrappers
  import opened Runtime
  import opened Api

  /** What one request for a page returns, given the page token it is sent with; `None` is a null page. */
  type PageSource = Option<string> -> Option<PlaylistPage>

  /** Where the page loop stands after some number of requests. */
  datatype Walk =
    | Paging(pageToken: Option<string>, items: seq<PlaylistItem>)  // another request is due, with this token
    | Listed(items: seq<PlaylistItem>)                               // the last page had no next token
    | ListingFailed                                                  // a page came back null

  /**
   * One pass of the loop body and its condition. A finished state stays as it is; a
   * paging state fails exactly on a null page, otherwise keeps its items in front of
   * the page's, and pages on only with a token that is neither null nor empty.
   */
  function Step(fetch: PageSource, w: Walk): (r: Walk)
    ensures !w.Paging? ==> r == w
    ensures w.Paging? ==> (r.ListingFailed? <==> fetch(w.pageToken).None?)
    ensures w.Paging? && !r.ListingFailed? ==> w.items <= r.items
    ensures r.Paging? ==> !IsNullOrEmpty(r.pageToken)
    ensures w.Paging? && fetch(w.pageToken).Some? ==> r.items == w.items + fetch(w.pageToken).value.items
    ensures w.Paging? && fetch(w.pageToken).Some? ==> (r.Listed? <==> IsNullOrEmpty(fetch(w.pageToken).value.nextPageToken))
    ensures r.Paging? ==> w.Paging? && r.pageToken == fetch(w.pageToken).value.nextPageToken
  {
    match w
    case Paging(pageToken, acc) =>
      (match fetch(pageToken)
       case None => ListingFailed
       case Some(m) =>
         if IsNullOrEmpty(m.nextPageToken) then Listed(acc + m.items)
         else Paging(m.nextPageToken, acc + m.items))
    case _ => w
  }

  /**
   * The loop's state after `n` requests, starting from a null token and an empty list:
   * only the first request goes out without a token.
   */
  function WalkAfter(fetch: PageSource, n: nat): (w: Walk)
    ensures n == 0 ==> w == Paging(None, [])
    ensures n > 0 && w.Paging? ==> !IsNullOrEmpty(w.pageToken)
    decreases n
  {
    if n == 0 then Paging(None, []) else Step(fetch, WalkAfter(fetch, n - 1))
  }

  /** After `n` requests the loop still goes on. */
  predicate StillPaging(fetch: PageSource, n: nat) {
    WalkAfter(fetch, n).Paging?
  }

  /** The token request `n` is sent with, while the loop goes on. */
  function TokenAt(fetch: PageSource, n: nat): Option<string> {
    var w := WalkAfter(fetch, n);
    if w.Paging? then w.pageToken else None
  }

  /** The loop leaves after exactly `n` requests. */
  predicate StopsFirstAt(fetch: PageSource, n: nat) {
    !StillPaging(fetch, n) && forall j :: 0 <= j < n ==> StillPaging(fetch, j)
  }

  /**
   * The endpoint stops handing out tokens (or fails) after finitely many pages; the
   * program trusts it to and loops forever otherwise.
   */
  ghost predicate ListingEnds(fetch: PageSource) {
    exists n: nat :: !StillPaging(fetch, n)
  }

  /** What the page loop hands on: the accumulated items, or nothing after a failure. */
  function ListedItems(w: Walk): Option<seq<PlaylistItem>> {
    if w.Listed? then Some(w.items) else None
  }

  /** Once the loop has left, further steps change nothing. */
  lemma {:induction false} FinishedStaysFinished(fetch: PageSource, n: nat, m: nat)
    requires n <= m && !StillPaging(fetch, n)
    ensures WalkAfter(fetch, m) == WalkAfter(fetch, n)
    decreases m - n
  {
    if n < m {
      FinishedStaysFinished(fetch, n, m - 1);
    }
  }

  /** A loop still going on after `n` requests went on after every smaller number too. */
  lemma PagingBefore(fetch: PageSource, n: nat)
    requires StillPaging(fetch, n)
    ensures forall j :: 0 <= j <= n ==> StillPaging(fetch, j)
  {
    forall j | 0 <= j <= n
      ensures StillPaging(fetch, j)
    {
      if !StillPaging(fetch, j) {
        FinishedStaysFinished(fetch, j, n);
      }
    }
  }

  /** A loop that goes on after `n` requests and has left after `n + 1` leaves there. */
  lemma StopsAfter(fetch: PageSource, n: nat)
    requires StillPaging(fetch, n) && !StillPaging(fetch, n + 1)
    ensures StopsFirstAt(fetch, n + 1)
  {
    PagingBefore(fetch, n);
  }

  /** The loop leaves at one request count only. */
  lemma StopIndexUnique(fetch: PageSource, n: nat, m: nat)
    requires StopsFirstAt(fetch, n) && StopsFirstAt(fetch, m)
    ensures n == m
  {
  }

  /** The state the loop finishes in. */
  ghost function FinalWalk(fetch: PageSource): (w: Walk)
    requires ListingEnds(fetch)
    ensures !w.Paging?
    ensures exists n: nat :: w == WalkAfter(fetch, n)
  {
    var n: nat :| !StillPaging(fetch, n);
    WalkAfter(fetch, n)
  }

  /** Every finished state of the loop is the same one. */
  lemma FinalWalkIs(fetch: PageSource, n: nat)
    requires !StillPaging(fetch, n)
    ensures ListingEnds(fetch)
    ensures FinalWalk(fetch) == WalkAfter(fetch, n)
  {
    var w := FinalWalk(fetch);
    var m: nat :| w == WalkAfter(fetch, m);
    assert !StillPaging(fetch, m);
    if m <= n {
      FinishedStaysFinished(fetch, m, n);
    } else {
      FinishedStaysFinished(fetch, n, m);
    }
  }

  /**
   * The `do … while` loop of `Main`: request a page with the current token, give up
   * on a null page, append its items, take its next token, and repeat while that
   * token is neither null nor empty. `fetch` is `GetPlaylistPage` for the run's key
   * and playlist; `tokens` lists the page token each request was sent with, in
   * order: one entry per request.
   */
  method CollectPlaylist(fetch: PageSource) returns (playlist: Option<seq<PlaylistItem>>, tokens: seq<Option<string>>)
    requires ListingEnds(fetch)
    ensures StopsFirstAt(fetch, |tokens|)
    ensures forall j :: 0 <= j < |tokens| ==> tokens[j] == TokenAt(fetch, j)
    ensures playlist == ListedItems(WalkAfter(fetch, |tokens|))
  {
    ghost var bound: nat :| !StillPaging(fetch, bound);
    var allVideos: seq<PlaylistItem> := [];
    var pageToken: Option<string> := None;
    tokens := [];
    while true
      invariant WalkAfter(fetch, |tokens|) == Paging(pageToken, allVideos)
      invariant forall j :: 0 <= j < |tokens| ==> tokens[j] == TokenAt(fetch, j)
      invariant |tokens| < bound
      decreases bound - |tokens|
    {
      ghost var n := |tokens|;
      assert TokenAt(fetch, n) == pageToken;
      tokens := tokens + [pageToken];
      var m := fetch(pageToken);
      if m.None? {
        StopsAfter(fetch, n);
        return None, tokens;
      }
      allVideos := allVideos + m.value.items;
      pageToken := m.value.nextPageToken;
      if IsNullOrEmpty(pageToken) {
        StopsAfter(fetch, n);
        return Some(allVideos), tokens;
      }
      PagingBefore(fetch, n + 1);
    }
  }

  /**
   * Each request after the first carries the token that the previous request's page
   * returned, and that token was neither null nor empty.
   */
  lemma NextRequestCarriesReturnedToken(fetch: PageSource, j: nat)
    requires StillPaging(fetch, j + 1)
    ensures StillPaging(fetch, j)
    ensures fetch(TokenAt(fetch, j)).Some?
    ensures TokenAt(fetch, j + 1) == fetch(TokenAt(fetch, j)).value.nextPageToken
    ensures !IsNullOrEmpty(TokenAt(fetch, j + 1))
  {
  }

  /** The token sent with request `j`, for a walk that follows `pages`: null first, then each page's next token. */
  function TokenBefore(pages: seq<PlaylistPage>, j: nat): Option<string>
    requires j <= |pages|
  {
    if j == 0 then None else pages[j - 1].nextPageToken
  }

  /** The endpoint serves `pages` in order, each requested with the token its predecessor returned. */
  predicate Serves(fetch: PageSource, pages: seq<PlaylistPage>) {
    forall j :: 0 <= j < |pages| ==> fetch(TokenBefore(pages, j)) == Some(pages[j])
  }

  /** Each of the first `n` pages hands out a next token. */
  predicate TokensUpTo(pages: seq<PlaylistPage>, n: nat) {
    forall j :: 0 <= j < |pages| && j < n ==> !IsNullOrEmpty(pages[j].nextPageToken)
  }

  /** The items of all pages, page by page, each page's items in their own order. */
  function Flatten(pages: seq<PlaylistPage>): seq<PlaylistItem>
    decreases |pages|
  {
    if pages == [] then [] else Flatten(pages[..|pages| - 1]) + pages[|pages| - 1].items
  }

  /** Serving some pages means serving every prefix of them. */
  lemma ServesPrefix(fetch: PageSource, pages: seq<PlaylistPage>, k: nat)
    requires k <= |pages| && Serves(fetch, pages)
    ensures Serves(fetch, pages[..k])
    ensures TokenBefore(pages[..k], k) == TokenBefore(pages, k)
  {
    forall j | 0 <= j < k
      ensures fetch(TokenBefore(pages[..k], j)) == Some(pages[..k][j])
    {
      assert TokenBefore(pages[..k], j) == TokenBefore(pages, j);
    }
  }

  /** While every page returned so far carries a token, the loop keeps requesting, and has all their items. */
  lemma {:induction false} WalkFollowsPages(fetch: PageSource, pages: seq<PlaylistPage>)
    requires Serves(fetch, pages) && TokensUpTo(pages, |pages|)
    ensures WalkAfter(fetch, |pages|) == Paging(TokenBefore(pages, |pages|), Flatten(pages))
    decreases |pages|
  {
    if pages != [] {
      var k := |pages| - 1;
      ServesPrefix(fetch, pages, k);
      WalkFollowsPages(fetch, pages[..k]);
      assert fetch(TokenBefore(pages, k)) == Some(pages[k]);
    }
  }

  /**
   * Pagination completeness: when the endpoint serves `front` with a token on every
   * page and then a `last` page without one, the loop makes exactly one request per
   * page and returns all their items in page order.
   */
  lemma ListingComplete(fetch: PageSource, front: seq<PlaylistPage>, last: PlaylistPage)
    requires Serves(fetch, front) && TokensUpTo(front, |front|)
    requires fetch(TokenBefore(front, |front|)) == Some(last) && IsNullOrEmpty(last.nextPageToken)
    ensures StopsFirstAt(fetch, |front| + 1)
    ensures WalkAfter(fetch, |front| + 1) == Listed(Flatten(front + [last]))
  {
    WalkFollowsPages(fetch, front);
    StopsAfter(fetch, |front|);
    assert (front + [last])[..|front|] == front;
  }

  /**
   * Fail-fast pagination: when the page after `pages` comes back null, the loop ends
   * with nothing, however many pages had already been collected.
   */
  lemma ListingFailsFast(fetch: PageSource, pages: seq<PlaylistPage>)
    requires Serves(fetch, pages) && TokensUpTo(pages, |pages|)
    requires fetch(TokenBefore(pages, |pages|)).None?
    ensures StopsFirstAt(fetch, |pages| + 1)
    ensures ListedItems(WalkAfter(fetch, |pages| + 1)) == None
  {
    WalkFollowsPages(fetch, pages);
    StopsAfter(fetch, |pages|);
  }
}
