/**
 * The paginated loader shared by the characters and episodes lists: a page
 * cursor that starts at 1 and advances by one, and a list that only grows by
 * appending the pages that arrive.
 */
module Paging {
  import opened Options

  /** The cursor `handleLoadMore` leaves: one more only when idle and below the last page. */
  function NextPage(page: int, loading: bool, lastPage: int): int {
    if !loading && page < lastPage then page + 1 else page
  }

  /** The cursor after `handleLoadMore` is called once per entry of `loadingAtCalls`. */
  function PageAfter(page: int, loadingAtCalls: seq<bool>, lastPage: int): int
    decreases |loadingAtCalls|
  {
    if loadingAtCalls == [] then page
    else PageAfter(NextPage(page, loadingAtCalls[0], lastPage), loadingAtCalls[1..], lastPage)
  }

  /**
   * Calls made while idle do move the cursor: `k` of them from a page in range
   * advance it by `k`, stopping at the last page.
   */
  lemma {:induction false} PageAfterWhileIdle(page: int, k: nat, lastPage: int)
    requires 1 <= page <= lastPage
    ensures PageAfter(page, seq(k, _ => false), lastPage) ==
      if page + k <= lastPage then page + k else lastPage
    decreases k
  {
    if k > 0 {
      var calls := seq(k, _ => false);
      assert calls[0] == false;
      assert calls[1..] == seq(k - 1, _ => false);
      PageAfterWhileIdle(NextPage(page, false, lastPage), k - 1, lastPage);
    }
  }

  /**
   * Over any sequence of calls from a cursor in range, the cursor never
   * decreases, never passes the last page, and gains at most one per call.
   */
  lemma {:induction false} PageAfterBounds(page: int, loadingAtCalls: seq<bool>, lastPage: int)
    requires 1 <= page <= lastPage
    ensures page <= PageAfter(page, loadingAtCalls, lastPage) <= lastPage
    ensures PageAfter(page, loadingAtCalls, lastPage) <= page + |loadingAtCalls|
    decreases |loadingAtCalls|
  {
    if loadingAtCalls != [] {
      PageAfterBounds(NextPage(page, loadingAtCalls[0], lastPage), loadingAtCalls[1..], lastPage);
    }
  }

  /** A call made while a fetch is in flight never moves the cursor. */
  lemma {:induction false} PageAfterWhileLoading(page: int, loadingAtCalls: seq<bool>, lastPage: int)
    requires forall i :: 0 <= i < |loadingAtCalls| ==> loadingAtCalls[i]
    ensures PageAfter(page, loadingAtCalls, lastPage) == page
    decreases |loadingAtCalls|
  {
    if loadingAtCalls != [] {
      PageAfterWhileLoading(page, loadingAtCalls[1..], lastPage);
    }
  }

  /** The pages laid end to end. */
  function Concat<T>(pages: seq<seq<T>>): seq<T>
    decreases |pages|
  {
    if pages == [] then [] else pages[0] + Concat(pages[1..])
  }

  /** The sum of the page sizes. */
  function TotalSize<T>(pages: seq<seq<T>>): nat
    decreases |pages|
  {
    if pages == [] then 0 else |pages[0]| + TotalSize(pages[1..])
  }

  /** The pages among `responses` that arrived, in arrival order. */
  function Arrived<T>(responses: seq<Option<seq<T>>>): seq<seq<T>>
    decreases |responses|
  {
    if responses == [] then []
    else if responses[0].Some? then [responses[0].value] + Arrived(responses[1..])
    else Arrived(responses[1..])
  }

  /** One fetch's effect on the list: a page is appended, a failure appends nothing. */
  function Receive<T>(items: seq<T>, response: Option<seq<T>>): seq<T> {
    if response.Some? then items + response.value else items
  }

  /** The list after a run of fetches, each applied with `Receive`. */
  function Accumulate<T>(items: seq<T>, responses: seq<Option<seq<T>>>): seq<T>
    decreases |responses|
  {
    if responses == [] then items
    else Accumulate(Receive(items, responses[0]), responses[1..])
  }

  /**
   * After any run of fetches, the list is the old list followed by every page
   * that arrived, in fetch order, with nothing deduplicated.
   */
  lemma {:induction false} AccumulateIsConcat<T>(items: seq<T>, responses: seq<Option<seq<T>>>)
    ensures Accumulate(items, responses) == items + Concat(Arrived(responses))
    decreases |responses|
  {
    if responses == [] {
      assert items + [] == items;
    } else {
      AccumulateIsConcat(Receive(items, responses[0]), responses[1..]);
      if responses[0].Some? {
        var p := responses[0].value;
        assert Arrived(responses) == [p] + Arrived(responses[1..]);
        assert Concat([p] + Arrived(responses[1..])) == p + Concat(Arrived(responses[1..]));
        assert (items + p) + Concat(Arrived(responses[1..])) == items + (p + Concat(Arrived(responses[1..])));
      }
    }
  }

  /** The concatenated pages have as many records as the pages together. */
  lemma {:induction false} ConcatSize<T>(pages: seq<seq<T>>)
    ensures |Concat(pages)| == TotalSize(pages)
    decreases |pages|
  {
    if pages != [] {
      ConcatSize(pages[1..]);
    }
  }

  /**
   * After any run of fetches the list has grown by exactly the total size of
   * the pages that arrived.
   */
  lemma AccumulateLength<T>(items: seq<T>, responses: seq<Option<seq<T>>>)
    ensures |Accumulate(items, responses)| == |items| + TotalSize(Arrived(responses))
  {
    AccumulateIsConcat(items, responses);
    ConcatSize(Arrived(responses));
  }
}
