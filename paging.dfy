/** Cursor-driven page aggregation (src/name.cxx:145-168, 205-228).

    The aggregating list operations start at page 0, fetch a page, remember its
    `lastPage` and `nextPage`, append its data, and stop right after fetching
    the page whose index equals the `lastPage` that page reported. The C++ loop
    has no guard against a cursor that never reaches `lastPage`; with a server
    that answers each page index the same way every time, such a run returns
    to a page index it has already fetched and then cycles forever. `Aggregate`
    stops with a `ProtocolError` at exactly that point, which also makes it
    terminate: page indices are 32-bit, so there are at most 2^32 distinct ones. */
module Paging {
  import opened Errors
  import opened Json

  /** PagedResponse<T>: one page's data and the cursors the server reported.
      A default-constructed one has no data and both cursors 0. */
  datatype Page<T> = Page(data: seq<T>, nextPage: Int32, lastPage: Int32)

  /** How the aggregator obtains the page with a given index. */
  type Fetch<T> = Int32 -> Result<Page<T>>

  const PageIndexCount: int := 0x1_0000_0000

  /** The page data of the walk that starts at `next`, `visited` being the
      page indices fetched before. */
  function Aggregate<T>(fetch: Fetch<T>, next: Int32, visited: set<Int32>): Result<seq<T>>
    decreases PageIndexCount - |visited|
  {
    if next in visited then Err(ProtocolError(next))
    else
      var page :- fetch(next);
      if next == page.lastPage then Ok(page.data)
      else
        VisitedBound(visited, next);
        Prepend(page.data, Aggregate(fetch, page.nextPage, visited + {next}))
  }

  /** The page indices that `Aggregate` fetches, in order (the last one is the
      page whose fetch failed, if one did). */
  ghost function Requested<T>(fetch: Fetch<T>, next: Int32, visited: set<Int32>): seq<Int32>
    decreases PageIndexCount - |visited|
  {
    if next in visited then []
    else
      match fetch(next)
      case Err(_) => [next]
      case Ok(page) =>
        if next == page.lastPage then [next]
        else
          VisitedBound(visited, next);
          [next] + Requested(fetch, page.nextPage, visited + {next})
  }

  // ---------------------------------------------------------------------
  // One step of the walk, as the C++ loop takes it: `result` holds the data
  // and `requested` the page indices of the pages fetched so far
  // ---------------------------------------------------------------------

  /** The cursor leads back to a page already fetched: nothing more is requested. */
  lemma WalkRepeat<T>(fetch: Fetch<T>, next: Int32, visited: set<Int32>, result: seq<T>, requested: seq<Int32>)
    requires next in visited
    ensures Prepend(result, Aggregate(fetch, next, visited)) == Err(ProtocolError(next))
    ensures requested + Requested(fetch, next, visited) == requested
  {
    assert requested + [] == requested;
  }

  /** The fetch of a new page fails: that page was the last one requested. */
  lemma WalkFails<T>(fetch: Fetch<T>, next: Int32, visited: set<Int32>, result: seq<T>, requested: seq<Int32>)
    requires next !in visited && fetch(next).Err?
    ensures Prepend(result, Aggregate(fetch, next, visited)) == Err(fetch(next).error)
    ensures requested + Requested(fetch, next, visited) == requested + [next]
  {
  }

  /** A new page is its own `lastPage`: its data ends the result. */
  lemma WalkLast<T>(fetch: Fetch<T>, next: Int32, visited: set<Int32>, result: seq<T>, requested: seq<Int32>)
    requires next !in visited && fetch(next).Ok? && next == fetch(next).value.lastPage
    ensures Prepend(result, Aggregate(fetch, next, visited)) == Ok(result + fetch(next).value.data)
    ensures requested + Requested(fetch, next, visited) == requested + [next]
  {
  }

  /** A new page that is not its own `lastPage`: its data is appended and the
      walk goes on from its `nextPage`. */
  lemma WalkStep<T>(fetch: Fetch<T>, next: Int32, visited: set<Int32>, result: seq<T>, requested: seq<Int32>)
    requires next !in visited && fetch(next).Ok? && next != fetch(next).value.lastPage
    ensures Prepend(result, Aggregate(fetch, next, visited)) ==
            Prepend(result + fetch(next).value.data, Aggregate(fetch, fetch(next).value.nextPage, visited + {next}))
    ensures requested + Requested(fetch, next, visited) ==
            (requested + [next]) + Requested(fetch, fetch(next).value.nextPage, visited + {next})
  {
    var page := fetch(next).value;
    PrependAssoc(result, page.data, Aggregate(fetch, page.nextPage, visited + {next}));
    var rest := Requested(fetch, page.nextPage, visited + {next});
    assert requested + ([next] + rest) == (requested + [next]) + rest;
  }

  // ---------------------------------------------------------------------
  // Walks
  // ---------------------------------------------------------------------

  /** `pages` is a walk of the cursor: every fetch succeeds, each page after the
      first is the previous page's `nextPage`, no page but the last is its own
      `lastPage`, and the last one is. */
  ghost predicate Chain<T>(fetch: Fetch<T>, pages: seq<Int32>)
  {
    |pages| > 0 &&
    (forall i :: 0 <= i < |pages| ==> fetch(pages[i]).Ok?) &&
    (forall i :: 0 <= i < |pages| - 1 ==>
       pages[i] != fetch(pages[i]).value.lastPage && pages[i + 1] == fetch(pages[i]).value.nextPage) &&
    pages[|pages| - 1] == fetch(pages[|pages| - 1]).value.lastPage
  }

  ghost predicate Distinct<T>(s: seq<T>)
  {
    forall i, j :: 0 <= i < j < |s| ==> s[i] != s[j]
  }

  /** The concatenation of the data of the given pages, in order. */
  ghost function DataOf<T>(fetch: Fetch<T>, pages: seq<Int32>): seq<T>
    requires forall i :: 0 <= i < |pages| ==> fetch(pages[i]).Ok?
  {
    if pages == [] then []
    else fetch(pages[0]).value.data + DataOf(fetch, pages[1..])
  }

  /** Soundness: a successful aggregation fetched a walk of distinct pages that
      starts at the first requested index, and returns the concatenation of
      their data in fetch order. */
  lemma {:induction false} AggregateSound<T>(fetch: Fetch<T>, next: Int32, visited: set<Int32>, r: seq<T>)
    requires Aggregate(fetch, next, visited) == Ok(r)
    ensures var pages := Requested(fetch, next, visited);
      Chain(fetch, pages) && pages[0] == next && Distinct(pages) &&
      (forall i :: 0 <= i < |pages| ==> pages[i] !in visited) &&
      r == DataOf(fetch, pages)
    decreases PageIndexCount - |visited|
  {
    var pages := Requested(fetch, next, visited);
    var page := fetch(next).value;
    if next == page.lastPage {
      assert pages == [next];
      assert DataOf(fetch, pages) == page.data + DataOf(fetch, []);
    } else {
      VisitedBound(visited, next);
      var visited' := visited + {next};
      var rest := Aggregate(fetch, page.nextPage, visited');
      AggregateSound(fetch, page.nextPage, visited', rest.value);
      var tail := Requested(fetch, page.nextPage, visited');
      assert pages == [next] + tail;
      ChainCons(fetch, next, tail);
      DistinctCons(next, tail);
      forall i | 0 <= i < |pages| ensures pages[i] !in visited {
        if i > 0 {
          assert pages[i] == tail[i - 1];
        }
      }
    }
  }

  /** A page that is not its own `lastPage` and whose `nextPage` starts a walk
      starts a walk one longer. */
  lemma ChainCons<T>(fetch: Fetch<T>, next: Int32, tail: seq<Int32>)
    requires fetch(next).Ok? && next != fetch(next).value.lastPage
    requires Chain(fetch, tail) && tail[0] == fetch(next).value.nextPage
    ensures Chain(fetch, [next] + tail)
    ensures DataOf(fetch, [next] + tail) == fetch(next).value.data + DataOf(fetch, tail)
  {
    var pages := [next] + tail;
    assert pages[1..] == tail;
    forall i | 0 <= i < |pages| ensures fetch(pages[i]).Ok? {
      if i > 0 {
        assert pages[i] == tail[i - 1];
      }
    }
    forall i | 0 <= i < |pages| - 1
      ensures pages[i] != fetch(pages[i]).value.lastPage && pages[i + 1] == fetch(pages[i]).value.nextPage
    {
      if i > 0 {
        assert pages[i] == tail[i - 1] && pages[i + 1] == tail[i];
      }
    }
  }

  lemma DistinctCons<T>(x: T, tail: seq<T>)
    requires Distinct(tail) && x !in tail
    ensures Distinct([x] + tail)
  {
    var s := [x] + tail;
    forall i, j | 0 <= i < j < |s| ensures s[i] != s[j] {
      assert s[j] == tail[j - 1];
      if i > 0 {
        assert s[i] == tail[i - 1];
      }
    }
  }

  /** Completeness: for any walk of distinct pages, none of them fetched
      before, the aggregation fetches exactly those pages (so exactly |pages|
      fetches) and returns the concatenation of their data. */
  lemma {:induction false} AggregateComplete<T>(fetch: Fetch<T>, pages: seq<Int32>, visited: set<Int32>)
    requires Chain(fetch, pages) && Distinct(pages)
    requires forall i :: 0 <= i < |pages| ==> pages[i] !in visited
    ensures Aggregate(fetch, pages[0], visited) == Ok(DataOf(fetch, pages))
    ensures Requested(fetch, pages[0], visited) == pages
    decreases |pages|
  {
    var next := pages[0];
    var page := fetch(next).value;
    assert next !in visited;
    if next == page.lastPage {
      assert pages == [next];
      assert DataOf(fetch, pages) == page.data + DataOf(fetch, []);
      assert page.data + [] == page.data;
    } else {
      assert |pages| > 1;
      VisitedBound(visited, next);
      var visited' := visited + {next};
      var tail := pages[1..];
      assert tail[0] == page.nextPage;
      forall i | 0 <= i < |tail| - 1
        ensures tail[i] != fetch(tail[i]).value.lastPage && tail[i + 1] == fetch(tail[i]).value.nextPage
      {
        assert tail[i] == pages[i + 1] && tail[i + 1] == pages[i + 2];
      }
      assert Chain(fetch, tail);
      forall i | 0 <= i < |tail| ensures tail[i] !in visited' {
        assert tail[i] == pages[i + 1];
        assert pages[0] != pages[i + 1];
      }
      AggregateComplete(fetch, tail, visited');
      assert pages == [next] + tail;
    }
  }

  /** Failure: every fetch before the last one requested succeeded without
      reaching its `lastPage` and led to the next; the error is either that of
      the last fetch, or a ProtocolError naming the page index that the cursor
      led back to, one already fetched. */
  lemma {:induction false} AggregateFailure<T>(fetch: Fetch<T>, next: Int32, visited: set<Int32>, e: Error)
    requires Aggregate(fetch, next, visited) == Err(e)
    ensures var pages := Requested(fetch, next, visited);
      (pages != [] ==> pages[0] == next) &&
      (forall i :: 0 <= i < |pages| - 1 ==>
         fetch(pages[i]).Ok? && pages[i] != fetch(pages[i]).value.lastPage &&
         pages[i + 1] == fetch(pages[i]).value.nextPage) &&
      ((pages != [] && fetch(pages[|pages| - 1]) == Err(e)) ||
       (e.ProtocolError? &&
        (pages == [] ==> e.page == next && next in visited) &&
        (pages != [] ==>
           fetch(pages[|pages| - 1]).Ok? &&
           pages[|pages| - 1] != fetch(pages[|pages| - 1]).value.lastPage &&
           e.page == fetch(pages[|pages| - 1]).value.nextPage &&
           (e.page in visited || e.page in pages))))
    decreases PageIndexCount - |visited|
  {
    if next !in visited && fetch(next).Ok? {
      var page := fetch(next).value;
      VisitedBound(visited, next);
      var visited' := visited + {next};
      AggregateFailure(fetch, page.nextPage, visited', e);
      var tail := Requested(fetch, page.nextPage, visited');
      var pages := Requested(fetch, next, visited);
      assert pages == [next] + tail;
      forall i | 0 <= i < |pages| - 1
        ensures fetch(pages[i]).Ok? && pages[i] != fetch(pages[i]).value.lastPage &&
                pages[i + 1] == fetch(pages[i]).value.nextPage
      {
        if i > 0 {
          assert pages[i] == tail[i - 1] && pages[i + 1] == tail[i];
        }
      }
      if tail != [] {
        assert pages[|pages| - 1] == tail[|tail| - 1];
        if e.ProtocolError? && e.page in tail {
          var k :| 0 <= k < |tail| && tail[k] == e.page;
          assert pages[k + 1] == e.page;
        }
      }
    }
  }

  /** From page 0 with nothing fetched yet, the ProtocolError guard fires only
      when the cursor leads back to a page already fetched without any page
      having been its own `lastPage`: the case in which the unguarded loop
      repeats forever. */
  lemma GuardFiresOnlyOnCycle<T>(fetch: Fetch<T>, p: int)
    requires Aggregate(fetch, 0, {}) == Err(ProtocolError(p))
    requires forall i: Int32 :: fetch(i).Err? ==> !fetch(i).error.ProtocolError?
    ensures var pages := Requested(fetch, 0, {});
      pages != [] && pages[0] == 0 &&
      (forall i :: 0 <= i < |pages| ==> fetch(pages[i]).Ok? && pages[i] != fetch(pages[i]).value.lastPage) &&
      p == fetch(pages[|pages| - 1]).value.nextPage && p in pages
  {
    AggregateFailure(fetch, 0, {}, ProtocolError(p));
  }

  // ---------------------------------------------------------------------
  // There are 2^32 page indices
  // ---------------------------------------------------------------------

  /** The integers in [lo, hi). */
  function Range(lo: int, hi: int): (r: set<int>)
    ensures forall x :: x in r <==> lo <= x < hi
    ensures |r| == if lo <= hi then hi - lo else 0
    decreases hi - lo
  {
    if lo >= hi then {} else {lo} + Range(lo + 1, hi)
  }

  lemma {:induction false} SubsetCard<T>(a: set<T>, b: set<T>)
    requires a <= b
    ensures |a| <= |b|
    decreases |a|
  {
    if a != {} {
      var x :| x in a;
      SubsetCard(a - {x}, b - {x});
    }
  }

  /** A page index not yet fetched leaves room for one more fetch. */
  lemma VisitedBound(visited: set<Int32>, next: Int32)
    requires next !in visited
    ensures |visited| < PageIndexCount
  {
    var all := Range(INT32_MIN, INT32_MAX + 1);
    var seen: set<int> := visited + {next};
    assert seen <= all;
    SubsetCard(seen, all);
  }
}
