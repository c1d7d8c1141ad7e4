/** Following a remote server's cursors, with the two guards that bound the loop. */
module Pagination {
  import opened MarketQueries
  import opened Sequences
  import opened Wrappers

  datatype Page<M> = Page(markets: seq<M>, cursor: Bytes)

  /** What one request can end in. */
  datatype RequestError = Rest | Parse

  datatype QueryError = Request(error: RequestError) | CursorNotAdvancing | PageLimitReached

  type Response<M> = Result<Page<M>, RequestError>

  /** What there is at each cursor; the empty one stands for the first page. */
  type Pages<!M> = Bytes -> Response<M>

  /** A server whose answer depends only on the request's query text. */
  type Server<!M> = string -> Response<M>

  function PagesOf<M>(server: Server<M>, query: MarketQuery): Pages<M> {
    (cursor: Bytes) => server(QueryText(Parameters(query, cursor)))
  }

  /** The loop: `left` pages may still be fetched, `markets` were collected before. */
  function Follow<M>(pages: Pages<M>, cursor: Bytes, markets: seq<M>, left: nat): Result<seq<M>, QueryError>
    decreases left
  {
    if left == 0 then Failure(PageLimitReached)
    else match pages(cursor)
      case Failure(e) => Failure(Request(e))
      case Success(page) =>
        if page.cursor == "" then Success(markets + page.markets)
        else if page.cursor == cursor then Failure(CursorNotAdvancing)
        else Follow(pages, page.cursor, markets + page.markets, left - 1)
  }

  method FetchAllMarkets<M>(server: Server<M>, query: MarketQuery, maxPages: nat) returns (r: Result<seq<M>, QueryError>)
    ensures r == Follow(PagesOf(server, query), "", [], maxPages)
  {
    var markets: seq<M> := [];
    var cursor: Bytes := "";
    ghost var pages := PagesOf(server, query);
    for number := 0 to maxPages
      invariant Follow(pages, "", [], maxPages) == Follow(pages, cursor, markets, maxPages - number)
    {
      var request := BuildMarketQuery(query, cursor);
      var page := server(request);
      assert page == pages(cursor);
      if page.Failure? {
        return Failure(Request(page.error));
      }
      markets := markets + page.value.markets;
      if page.value.cursor == "" {
        return Success(markets);
      }
      if page.value.cursor == cursor {
        return Failure(CursorNotAdvancing);
      }
      cursor := page.value.cursor;
    }
    r := Failure(PageLimitReached);
  }

  // ---- the chain of cursors ----

  function Next<M>(pages: Pages<M>, cursor: Bytes): Option<Bytes> {
    match pages(cursor)
    case Failure(_) => None
    case Success(page) => Some(page.cursor)
  }

  /** The cursor k pages after `cursor`, if the server gives one. */
  function After<M>(pages: Pages<M>, cursor: Bytes, k: nat): Option<Bytes>
    decreases k
  {
    if k == 0 then Some(cursor)
    else match Next(pages, cursor)
      case None => None
      case Some(next) => After(pages, next, k - 1)
  }

  /** The chain from `cursor` reaches the empty cursor with page n, and not before. */
  ghost predicate EndsWith<M>(pages: Pages<M>, cursor: Bytes, n: nat) {
    && After(pages, cursor, n + 1) == Some("")
    && forall k :: 1 <= k <= n ==> After(pages, cursor, k) != Some("")
  }

  /** The markets on pages 0 to n. */
  function Collected<M>(pages: Pages<M>, cursor: Bytes, n: nat): seq<M>
    decreases n
  {
    match pages(cursor)
    case Failure(_) => []
    case Success(page) => page.markets + if n == 0 then [] else Collected(pages, page.cursor, n - 1)
  }

  lemma AfterShift<M>(pages: Pages<M>, cursor: Bytes, next: Bytes, k: nat)
    requires Next(pages, cursor) == Some(next)
    ensures After(pages, cursor, k + 1) == After(pages, next, k)
  {}

  lemma {:induction false} AfterSum<M>(pages: Pages<M>, cursor: Bytes, j: nat, k: nat)
    requires After(pages, cursor, j).Some?
    ensures After(pages, cursor, j + k) == After(pages, After(pages, cursor, j).value, k)
    decreases j
  {
    if j > 0 {
      var next := Next(pages, cursor).value;
      AfterShift(pages, cursor, next, j - 1);
      AfterShift(pages, cursor, next, j - 1 + k);
      AfterSum(pages, next, j - 1, k);
    }
  }

  lemma {:induction false} AfterPrefix<M>(pages: Pages<M>, cursor: Bytes, j: nat, k: nat)
    requires j <= k && After(pages, cursor, k).Some?
    ensures After(pages, cursor, j).Some?
    decreases j
  {
    if j > 0 {
      AfterPrefix(pages, Next(pages, cursor).value, j - 1, k - 1);
    }
  }

  /** From a cursor met twice the chain never ends. */
  lemma CursorsDistinct<M>(pages: Pages<M>, cursor: Bytes, n: nat, i: nat, j: nat)
    requires EndsWith(pages, cursor, n) && i < j <= n
    ensures After(pages, cursor, i).Some? && After(pages, cursor, j).Some?
    ensures After(pages, cursor, i) != After(pages, cursor, j)
  {
    AfterPrefix(pages, cursor, i, n + 1);
    AfterPrefix(pages, cursor, j, n + 1);
    var k := n + 1 - j;
    AfterSum(pages, cursor, i, k);
    AfterSum(pages, cursor, j, k);
    assert j + k == n + 1 && 1 <= i + k <= n;
    assert After(pages, cursor, i + k) != After(pages, cursor, n + 1);
  }

  lemma EndsAtOnce<M>(pages: Pages<M>, cursor: Bytes)
    ensures EndsWith(pages, cursor, 0) <==> Next(pages, cursor) == Some("")
  {
    if Next(pages, cursor).Some? {
      assert After(pages, cursor, 1) == After(pages, Next(pages, cursor).value, 0);
    }
  }

  lemma EndsLater<M>(pages: Pages<M>, cursor: Bytes, next: Bytes, n: nat)
    requires Next(pages, cursor) == Some(next) && next != ""
    ensures EndsWith(pages, cursor, n + 1) <==> EndsWith(pages, next, n)
  {
    AfterShift(pages, cursor, next, n + 1);
    AfterShift(pages, cursor, next, 0);
    if EndsWith(pages, cursor, n + 1) {
      forall k | 1 <= k <= n ensures After(pages, next, k) != Some("") {
        AfterShift(pages, cursor, next, k);
      }
    }
    if EndsWith(pages, next, n) {
      forall k | 1 <= k <= n + 1 ensures After(pages, cursor, k) != Some("") {
        AfterShift(pages, cursor, next, k - 1);
      }
    }
  }

  /** If the chain ends in time, the loop succeeds with everything on the way. */
  lemma {:induction false} EndingFollowed<M>(pages: Pages<M>, cursor: Bytes, markets: seq<M>, left: nat, n: nat)
    requires EndsWith(pages, cursor, n) && n < left
    ensures Follow(pages, cursor, markets, left) == Success(markets + Collected(pages, cursor, n))
    decreases n
  {
    AfterPrefix(pages, cursor, 1, n + 1);
    var page := pages(cursor).value;
    if n == 0 {
      EndsAtOnce(pages, cursor);
      assert page.markets + [] == page.markets;
    } else {
      AfterShift(pages, cursor, page.cursor, 0);
      CursorsDistinct(pages, cursor, n, 0, 1);
      EndsLater(pages, cursor, page.cursor, n - 1);
      EndingFollowed(pages, page.cursor, markets + page.markets, left - 1, n - 1);
      Associative(markets, page.markets, Collected(pages, page.cursor, n - 1));
    }
  }

  /** If the loop succeeds, the chain ends in time. */
  lemma {:induction false} FollowedEnds<M>(pages: Pages<M>, cursor: Bytes, markets: seq<M>, left: nat) returns (n: nat)
    requires Follow(pages, cursor, markets, left).Success?
    ensures n < left && EndsWith(pages, cursor, n)
    decreases left
  {
    var page := pages(cursor).value;
    if page.cursor == "" {
      n := 0;
      EndsAtOnce(pages, cursor);
    } else {
      var m := FollowedEnds(pages, page.cursor, markets + page.markets, left - 1);
      EndsLater(pages, cursor, page.cursor, m);
      n := m + 1;
    }
  }

  /** Fetching succeeds exactly when the cursor chain reaches the empty cursor within the page limit. */
  lemma SucceedsExactly<M>(pages: Pages<M>, maxPages: nat)
    ensures Follow(pages, "", [], maxPages).Success? <==>
            exists n: nat :: n < maxPages && EndsWith(pages, "", n)
  {
    if Follow(pages, "", [], maxPages).Success? {
      var n := FollowedEnds(pages, "", [], maxPages);
    }
    if n: nat :| n < maxPages && EndsWith(pages, "", n) {
      EndingFollowed(pages, "", [], maxPages, n);
    }
  }

  /** The request for the page k pages after the first. */
  function RequestText<M>(server: Server<M>, query: MarketQuery, k: nat): string
    requires After(PagesOf(server, query), "", k).Some?
  {
    QueryText(Parameters(query, After(PagesOf(server, query), "", k).value))
  }

  /** A fetch whose chain ends with page n returns what pages 0 to n hold, in order. */
  lemma SuccessCollects<M>(pages: Pages<M>, maxPages: nat, n: nat)
    requires n < maxPages && EndsWith(pages, "", n)
    ensures Follow(pages, "", [], maxPages) == Success(Collected(pages, "", n))
  {
    EndingFollowed(pages, "", [], maxPages, n);
    assert [] + Collected(pages, "", n) == Collected(pages, "", n);
  }

  /** And no two of its requests are alike. */
  lemma NoPageTwice<M>(server: Server<M>, query: MarketQuery, n: nat, i: nat, j: nat)
    requires EndsWith(PagesOf(server, query), "", n) && i < j <= n
    ensures After(PagesOf(server, query), "", i).Some? && After(PagesOf(server, query), "", j).Some?
    ensures RequestText(server, query, i) != RequestText(server, query, j)
  {
    var pages := PagesOf(server, query);
    CursorsDistinct(pages, "", n, i, j);
    if RequestText(server, query, i) == RequestText(server, query, j) {
      RequestsDiffer(query, After(pages, "", i).value, After(pages, "", j).value);
    }
  }

  /** A repeated cursor is reported only when no page limit would have been enough. */
  lemma {:induction false} StuckForever<M>(pages: Pages<M>, cursor: Bytes, markets: seq<M>, left: nat, n: nat)
    requires Follow(pages, cursor, markets, left) == Failure(CursorNotAdvancing)
    ensures !EndsWith(pages, cursor, n)
    decreases n
  {
    var page := pages(cursor).value;
    if n == 0 {
      EndsAtOnce(pages, cursor);
    } else {
      EndsLater(pages, cursor, page.cursor, n - 1);
      if page.cursor == cursor {
        StuckLoop(pages, cursor, n);
      } else {
        StuckForever(pages, page.cursor, markets + page.markets, left - 1, n - 1);
      }
    }
  }

  lemma {:induction false} StuckLoop<M>(pages: Pages<M>, cursor: Bytes, k: nat)
    requires Next(pages, cursor) == Some(cursor) && cursor != ""
    ensures After(pages, cursor, k + 1) == Some(cursor) && !EndsWith(pages, cursor, k)
    decreases k
  {
    AfterShift(pages, cursor, cursor, k);
    if k > 0 {
      StuckLoop(pages, cursor, k - 1);
    }
  }

  /** The first `left` pages are there, none is the last, and the cursor moves with each. */
  ghost predicate Unfinished<M>(pages: Pages<M>, cursor: Bytes, left: nat) {
    forall k :: 1 <= k <= left ==>
      After(pages, cursor, k).Some? && After(pages, cursor, k) != Some("") && After(pages, cursor, k) != After(pages, cursor, k - 1)
  }

  lemma UnfinishedLater<M>(pages: Pages<M>, cursor: Bytes, next: Bytes, left: nat)
    requires Next(pages, cursor) == Some(next)
    ensures Unfinished(pages, cursor, left + 1) <==> next != "" && next != cursor && Unfinished(pages, next, left)
  {
    AfterShift(pages, cursor, next, 0);
    if Unfinished(pages, cursor, left + 1) {
      assert After(pages, cursor, 1) != After(pages, cursor, 0);
      forall k | 1 <= k <= left
        ensures After(pages, next, k).Some? && After(pages, next, k) != Some("") && After(pages, next, k) != After(pages, next, k - 1)
      {
        AfterShift(pages, cursor, next, k);
        AfterShift(pages, cursor, next, k - 1);
        assert After(pages, cursor, k + 1) != After(pages, cursor, k + 1 - 1);
      }
    }
    if next != "" && next != cursor && Unfinished(pages, next, left) {
      forall k | 1 <= k <= left + 1
        ensures After(pages, cursor, k).Some? && After(pages, cursor, k) != Some("") && After(pages, cursor, k) != After(pages, cursor, k - 1)
      {
        AfterShift(pages, cursor, next, k - 1);
        if k > 1 {
          AfterShift(pages, cursor, next, k - 2);
          assert After(pages, next, k - 1) != After(pages, next, k - 1 - 1);
        }
      }
    }
  }

  /** The page limit is reported exactly when that many pages were fetched and there was more to come. */
  lemma {:induction false} LimitReachedExactly<M>(pages: Pages<M>, cursor: Bytes, markets: seq<M>, left: nat)
    ensures Follow(pages, cursor, markets, left) == Failure(PageLimitReached) <==> Unfinished(pages, cursor, left)
    decreases left
  {
    if left > 0 {
      if Next(pages, cursor).Some? {
        var page := pages(cursor).value;
        UnfinishedLater(pages, cursor, page.cursor, left - 1);
        LimitReachedExactly(pages, page.cursor, markets + page.markets, left - 1);
      } else {
        assert After(pages, cursor, 1) == None;
      }
    }
  }

  /** Page k is there and its cursor is the non-empty one it was asked for with; all before it moved on. */
  ghost predicate StuckAt<M>(pages: Pages<M>, cursor: Bytes, k: nat) {
    Unfinished(pages, cursor, k) && After(pages, cursor, k + 1).Some? && After(pages, cursor, k + 1) != Some("")
    && After(pages, cursor, k + 1) == After(pages, cursor, k)
  }

  lemma StuckNow<M>(pages: Pages<M>, cursor: Bytes)
    ensures StuckAt(pages, cursor, 0) <==> Next(pages, cursor) == Some(cursor) && cursor != ""
  {
    if Next(pages, cursor).Some? {
      AfterShift(pages, cursor, Next(pages, cursor).value, 0);
    }
  }

  lemma StuckLater<M>(pages: Pages<M>, cursor: Bytes, next: Bytes, k: nat)
    requires Next(pages, cursor) == Some(next)
    ensures StuckAt(pages, cursor, k + 1) <==> next != "" && next != cursor && StuckAt(pages, next, k)
  {
    UnfinishedLater(pages, cursor, next, k);
    AfterShift(pages, cursor, next, k);
    AfterShift(pages, cursor, next, k + 1);
  }

  /** A repeated cursor is reported exactly when some page within the limit is stuck. */
  lemma {:induction false} NotAdvancingExactly<M>(pages: Pages<M>, cursor: Bytes, markets: seq<M>, left: nat)
    ensures Follow(pages, cursor, markets, left) == Failure(CursorNotAdvancing) <==>
            exists k: nat :: k < left && StuckAt(pages, cursor, k)
    decreases left
  {
    if left > 0 {
      StuckNow(pages, cursor);
      if Next(pages, cursor).Some? {
        NotAdvancingOn(pages, cursor, markets, left);
      } else {
        forall k: nat ensures !StuckAt(pages, cursor, k) {
          NothingStuck(pages, cursor, k);
        }
      }
    }
  }

  lemma NothingStuck<M>(pages: Pages<M>, cursor: Bytes, k: nat)
    requires Next(pages, cursor) == None
    ensures !StuckAt(pages, cursor, k)
  {
    assert After(pages, cursor, k + 1) == None;
  }

  lemma NotAdvancingOn<M>(pages: Pages<M>, cursor: Bytes, markets: seq<M>, left: nat)
    requires left > 0 && Next(pages, cursor).Some?
    ensures Follow(pages, cursor, markets, left) == Failure(CursorNotAdvancing) <==>
            exists k: nat :: k < left && StuckAt(pages, cursor, k)
    decreases left, 0
  {
    var page := pages(cursor).value;
    StuckNow(pages, cursor);
    NotAdvancingExactly(pages, page.cursor, markets + page.markets, left - 1);
    forall k: nat ensures StuckAt(pages, cursor, k + 1) <==> page.cursor != "" && page.cursor != cursor && StuckAt(pages, page.cursor, k) {
      StuckLater(pages, cursor, page.cursor, k);
    }
    if k: nat :| k < left && StuckAt(pages, cursor, k) {
      if k > 0 {
        assert StuckAt(pages, cursor, k - 1 + 1);
        assert StuckAt(pages, page.cursor, k - 1);
      }
    }
    if page.cursor != "" && page.cursor != cursor {
      if k: nat :| k < left - 1 && StuckAt(pages, page.cursor, k) {
        assert StuckAt(pages, cursor, k + 1);
      }
    }
  }

  /** The request for page k fails; all pages before it are there and moved on. */
  ghost predicate FailsAt<M>(pages: Pages<M>, cursor: Bytes, k: nat, e: RequestError) {
    Unfinished(pages, cursor, k) && After(pages, cursor, k).Some? && pages(After(pages, cursor, k).value) == Failure(e)
  }

  lemma FailsLater<M>(pages: Pages<M>, cursor: Bytes, next: Bytes, k: nat, e: RequestError)
    requires Next(pages, cursor) == Some(next)
    ensures FailsAt(pages, cursor, k + 1, e) <==> next != "" && next != cursor && FailsAt(pages, next, k, e)
  {
    UnfinishedLater(pages, cursor, next, k);
    AfterShift(pages, cursor, next, k);
  }

  /** A failed request is reported exactly when the chain runs into it within the limit. */
  lemma {:induction false} RequestFailsExactly<M>(pages: Pages<M>, cursor: Bytes, markets: seq<M>, left: nat, e: RequestError)
    ensures Follow(pages, cursor, markets, left) == Failure(Request(e)) <==> exists k: nat :: k < left && FailsAt(pages, cursor, k, e)
    decreases left
  {
    if left > 0 {
      assert FailsAt(pages, cursor, 0, e) <==> pages(cursor) == Failure(e);
      if Next(pages, cursor).Some? {
        RequestFailsOn(pages, cursor, markets, left, e);
      } else {
        forall k: nat | k > 0 ensures !FailsAt(pages, cursor, k, e) {
          assert After(pages, cursor, k) == None;
        }
      }
    }
  }

  lemma RequestFailsOn<M>(pages: Pages<M>, cursor: Bytes, markets: seq<M>, left: nat, e: RequestError)
    requires left > 0 && Next(pages, cursor).Some?
    ensures Follow(pages, cursor, markets, left) == Failure(Request(e)) <==> exists k: nat :: k < left && FailsAt(pages, cursor, k, e)
    decreases left, 0
  {
    var page := pages(cursor).value;
    RequestFailsExactly(pages, page.cursor, markets + page.markets, left - 1, e);
    forall k: nat
      ensures FailsAt(pages, cursor, k + 1, e) <==> page.cursor != "" && page.cursor != cursor && FailsAt(pages, page.cursor, k, e)
    {
      FailsLater(pages, cursor, page.cursor, k, e);
    }
    if k: nat :| k < left && FailsAt(pages, cursor, k, e) {
      assert k > 0;
      assert FailsAt(pages, cursor, k - 1 + 1, e);
      assert FailsAt(pages, page.cursor, k - 1, e);
    }
    if page.cursor != "" && page.cursor != cursor {
      if k: nat :| k < left - 1 && FailsAt(pages, page.cursor, k, e) {
        assert FailsAt(pages, cursor, k + 1, e);
      }
    }
  }
}
