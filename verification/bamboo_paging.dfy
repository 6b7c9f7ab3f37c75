/** The paging rules of the Bamboo client (atlassian/bamboo.py).

    The server is an oracle `server: Call -> Page<T>`: given the request for a
    page it returns the part of the listing response the paging code reads.
    The paging functions see it through `Pages(server, base)`, which maps a
    `start-index` to the response to the base request sent with that
    `start-index`.
    A run is recorded as a `Trace`: the `start-index` of every request in
    order, the elements handed to the consumer in order, and whether the run
    ended by itself.

    - `GetGenerator` is `_get_generator` as written: one request, one page.
    - `OffsetLoop` is the loop of `deployment_environment_results` and
      `search_branches`. That loop has no termination guard, so it is given a
      `fuel` bound on the number of requests; a trace cut off by the bound is
      marked unfinished.
    - `WalkPages` is the walker `_get_generator` was meant to be: it keeps
      requesting pages, advances by each page's `max-result`, never yields
      more than the first page's `size` or the caller's cap, and stops when a
      page makes no progress. */
module BambooPaging {
  import opened Wrappers
  import opened RestClient

  /** What the paging code reads from one listing response: the reported
      total `size`, the page size `max-result`, and the page's elements. */
  datatype Page<T> = Page(size: int, maxResult: int, items: seq<T>)

  /** The requests issued (as `start-index` values) and the elements yielded,
      both in order; `finished` is false when the run was cut off. */
  datatype Trace<T> = Trace(offsets: seq<int>, items: seq<T>, finished: bool)

  /** The request for the page at `offset`: the base call with its
      `start-index` parameter set, everything else unchanged. */
  function At(base: Call, offset: int): (call: Call)
    ensures call.verb == base.verb && call.path == base.path
    ensures call.flags == base.flags && call.headers == base.headers
    ensures "start-index" in call.params && call.params["start-index"] == Int(offset)
    ensures forall k :: k in base.params && k != "start-index" ==> k in call.params && call.params[k] == base.params[k]
    ensures call.params.Keys == base.params.Keys + {"start-index"}
  {
    base.(params := base.params["start-index" := Int(offset)])
  }

  /** The responses to the base request, by `start-index`. */
  function Pages<T>(server: Call -> Page<T>, base: Call): (fetch: int -> Page<T>)
    ensures forall o :: fetch(o) == server(At(base, o))
  {
    o => server(At(base, o))
  }

  /** The elements of the pages at `offsets`, concatenated in order. */
  function ItemsAt<T>(fetch: int -> Page<T>, offsets: seq<int>): seq<T>
    decreases |offsets|
  {
    if |offsets| == 0 then []
    else fetch(offsets[0]).items + ItemsAt(fetch, offsets[1..])
  }

  /** Consecutive requests of the offset loop: each `start-index` is the
      previous one plus the previous page's `max-result`, and was still below
      the `size` that page reported. */
  ghost predicate Advances<T>(fetch: int -> Page<T>, offsets: seq<int>)
    decreases |offsets|
  {
    |offsets| <= 1 ||
      (&& offsets[1] == offsets[0] + fetch(offsets[0]).maxResult
       && offsets[1] < fetch(offsets[0]).size
       && Advances(fetch, offsets[1..]))
  }

  /** A server that honestly lists the collection `xs` in pages of `m`:
      every page reports the full size and holds the next `m` elements. */
  ghost predicate Serves<T>(fetch: int -> Page<T>, xs: seq<T>, m: int) {
    && m > 0
    && forall o :: 0 <= o <= |xs| ==>
      fetch(o) == Page(|xs|, m, xs[o..if o + m <= |xs| then o + m else |xs|])
  }

  /** The page an honest server returns at `o`. */
  lemma ServedPage<T>(fetch: int -> Page<T>, xs: seq<T>, m: int, o: int)
    requires Serves(fetch, xs, m) && 0 <= o <= |xs|
    ensures fetch(o).size == |xs| && fetch(o).maxResult == m
    ensures o + m <= |xs| ==> fetch(o).items == xs[o..o + m]
    ensures o + m > |xs| ==> fetch(o).items == xs[o..]
  {
  }

  // ---------------------------------------------------------------------------
  // _get_generator, as written
  // ---------------------------------------------------------------------------

  /** `_get_generator(path, ..., max_results)`: sets `start-index` to 0,
      issues one request and yields that page's elements, unless the page
      reports `size` 0 or the running count (still 0) exceeds `max_results`.
      The advance of `start_index` after the loop is never used: no second
      request is ever made. */
  function GetGenerator<T>(fetch: int -> Page<T>, maxResults: int): (t: Trace<T>)
    ensures t.offsets == [0] && t.finished
    ensures maxResults < 0 || fetch(0).size == 0 ==> t.items == []
    ensures maxResults >= 0 && fetch(0).size != 0 ==> t.items == fetch(0).items
  {
    var results := fetch(0);
    var yielded := 0;
    if yielded > maxResults || results.size == 0 then Trace([0], [], true)
    else Trace([0], results.items, true)
  }

  /** Against a server that lists more than one page, `_get_generator`
      yields the first page only: a strict prefix of the collection. */
  lemma GetGeneratorStopsAfterOnePage<T>(fetch: int -> Page<T>, xs: seq<T>, m: int, maxResults: int)
    requires Serves(fetch, xs, m)
    requires 0 < m < |xs| && maxResults >= 0
    ensures GetGenerator(fetch, maxResults).items == xs[..m]
    ensures GetGenerator(fetch, maxResults).items != xs
  {
    assert fetch(0) == Page(|xs|, m, xs[0..m]);
  }

  // ---------------------------------------------------------------------------
  // The offset loop of deployment_environment_results and search_branches
  // ---------------------------------------------------------------------------

  /** `while params['start-index'] < size`: request the page at `start`,
      yield its elements, take the new `size` from it and advance by its
      `max-result`; at most `fuel` requests are made. */
  function OffsetLoop<T>(fetch: int -> Page<T>, start: int, size: int, fuel: nat): (t: Trace<T>)
    ensures |t.offsets| <= fuel
    ensures !t.finished ==> |t.offsets| == fuel
    ensures |t.offsets| > 0 ==> start < size && t.offsets[0] == start
    ensures start < size && fuel > 0 ==> |t.offsets| > 0
    ensures start >= size ==> t.offsets == [] && t.items == [] && t.finished
    decreases fuel
  {
    if start >= size then Trace([], [], true)
    else if fuel == 0 then Trace([], [], false)
    else
      var results := fetch(start);
      var rest := OffsetLoop(fetch, start + results.maxResult, results.size, fuel - 1);
      Trace([start] + rest.offsets, results.items + rest.items, rest.finished)
  }

  /** One turn of the loop: below `size` and with requests left, the trace
      is the page at `start` followed by the loop from the next offset. */
  lemma OffsetLoopStep<T>(fetch: int -> Page<T>, start: int, size: int, fuel: nat)
    requires start < size && fuel > 0
    ensures var results := fetch(start);
      var rest := OffsetLoop(fetch, start + results.maxResult, results.size, fuel - 1);
      && OffsetLoop(fetch, start, size, fuel).finished == rest.finished
      && OffsetLoop(fetch, start, size, fuel).items == results.items + rest.items
      && OffsetLoop(fetch, start, size, fuel).offsets == [start] + rest.offsets
  {
  }

  /** Every request after the first starts where the previous page said the
      next one begins, and was below the size that page reported. */
  lemma {:induction false} OffsetLoopAdvances<T>(fetch: int -> Page<T>, start: int, size: int, fuel: nat)
    ensures Advances(fetch, OffsetLoop(fetch, start, size, fuel).offsets)
    decreases fuel
  {
    if start < size && fuel > 0 {
      var results := fetch(start);
      var rest := OffsetLoop(fetch, start + results.maxResult, results.size, fuel - 1);
      OffsetLoopStep(fetch, start, size, fuel);
      OffsetLoopAdvances(fetch, start + results.maxResult, results.size, fuel - 1);
      assert ([start] + rest.offsets)[1..] == rest.offsets;
    }
  }

  /** The elements yielded are the requested pages' elements, in order. */
  lemma {:induction false} OffsetLoopItems<T>(fetch: int -> Page<T>, start: int, size: int, fuel: nat)
    ensures OffsetLoop(fetch, start, size, fuel).items == ItemsAt(fetch, OffsetLoop(fetch, start, size, fuel).offsets)
    decreases fuel
  {
    if start < size && fuel > 0 {
      var results := fetch(start);
      var rest := OffsetLoop(fetch, start + results.maxResult, results.size, fuel - 1);
      OffsetLoopStep(fetch, start, size, fuel);
      OffsetLoopItems(fetch, start + results.maxResult, results.size, fuel - 1);
      assert ([start] + rest.offsets)[1..] == rest.offsets;
    }
  }

  /** A run that ended did so because its last page pointed at or past the
      size it reported. */
  lemma {:induction false} OffsetLoopEnds<T>(fetch: int -> Page<T>, start: int, size: int, fuel: nat)
    ensures var t := OffsetLoop(fetch, start, size, fuel);
      t.finished && |t.offsets| > 0 ==>
        var last := fetch(t.offsets[|t.offsets| - 1]);
        t.offsets[|t.offsets| - 1] + last.maxResult >= last.size
    decreases fuel
  {
    if start < size && fuel > 0 {
      var results := fetch(start);
      var rest := OffsetLoop(fetch, start + results.maxResult, results.size, fuel - 1);
      OffsetLoopStep(fetch, start, size, fuel);
      OffsetLoopEnds(fetch, start + results.maxResult, results.size, fuel - 1);
      var offsets := [start] + rest.offsets;
      if |rest.offsets| > 0 {
        assert offsets[|offsets| - 1] == rest.offsets[|rest.offsets| - 1];
      }
    }
  }

  /** With a server whose `size` is fixed at `n` and whose `max-result` is
      always positive, the loop ends within `n - start + 1` requests. */
  lemma {:induction false} OffsetLoopTerminates<T>(fetch: int -> Page<T>, start: int, size: int, fuel: nat, n: int)
    requires forall o :: fetch(o).size == n && fetch(o).maxResult >= 1
    requires fuel >= 1 && fuel >= n - start + 1
    ensures OffsetLoop(fetch, start, size, fuel).finished
    decreases fuel
  {
    if start < size {
      var results := fetch(start);
      var next := start + results.maxResult;
      OffsetLoopStep(fetch, start, size, fuel);
      if next < n {
        OffsetLoopTerminates(fetch, next, results.size, fuel - 1, n);
      }
    }
  }

  /** A page that reports a `max-result` of 0 below its `size` makes the loop
      request the same page forever: no bound on requests is ever enough. */
  lemma {:induction false} OffsetLoopStalls<T>(fetch: int -> Page<T>, start: int, size: int, fuel: nat)
    requires start < size
    requires fetch(start).maxResult == 0
    requires start < fetch(start).size
    ensures !OffsetLoop(fetch, start, size, fuel).finished
    ensures forall k :: 0 <= k < |OffsetLoop(fetch, start, size, fuel).offsets| ==>
      OffsetLoop(fetch, start, size, fuel).offsets[k] == start
    decreases fuel
  {
    if fuel > 0 {
      OffsetLoopStep(fetch, start, size, fuel);
      OffsetLoopStalls(fetch, start, fetch(start).size, fuel - 1);
    }
  }

  /** Against an honest server the loop yields exactly the rest of the
      collection from `start` on, in order, and ends. */
  lemma {:induction false} OffsetLoopListsAll<T>(fetch: int -> Page<T>, xs: seq<T>, m: int, start: int, size: int, fuel: nat)
    requires Serves(fetch, xs, m) && m > 0
    requires 0 <= start <= |xs| && start < size
    requires fuel >= |xs| - start + 1
    ensures OffsetLoop(fetch, start, size, fuel).finished
    ensures OffsetLoop(fetch, start, size, fuel).items == xs[start..]
    decreases fuel
  {
    var next := start + m;
    ServedPage(fetch, xs, m, start);
    OffsetLoopStep(fetch, start, size, fuel);
    if next < |xs| {
      OffsetLoopListsAll(fetch, xs, m, next, |xs|, fuel - 1);
      SliceConcat(xs, start, next, |xs|);
    }
  }

  // ---------------------------------------------------------------------------
  // The walker _get_generator was meant to be
  // ---------------------------------------------------------------------------

  /** How many elements the walker may yield: the first page's `size`, capped
      by the caller's limit when there is one. */
  function Limit(size: int, cap: Option<nat>): (n: nat)
    ensures n <= (if size > 0 then size else 0)
    ensures cap.Some? ==> n <= cap.value
    ensures size > 0 && (cap.None? || cap.value >= size) ==> n == size
    ensures size > 0 && cap.Some? && cap.value < size ==> n == cap.value
  {
    if size <= 0 then 0
    else match cap
      case None => size
      case Some(c) => if c < size then c else size
  }

  /** Request the page at `offset` and yield up to `remaining` of its
      elements; go on at `offset + max-result` only while elements are still
      wanted, the page held some, and its `max-result` moves forward. */
  function WalkFrom<T>(fetch: int -> Page<T>, offset: int, remaining: nat): (t: Trace<T>)
    requires remaining > 0
    ensures t.finished && |t.offsets| >= 1 && t.offsets[0] == offset
    ensures |t.items| <= remaining
    decreases remaining
  {
    var results := fetch(offset);
    var got := if |results.items| <= remaining then results.items else results.items[..remaining];
    if |got| == 0 || |got| == remaining || results.maxResult <= 0 then
      Trace([offset], got, true)
    else
      var rest := WalkFrom(fetch, offset + results.maxResult, remaining - |got|);
      Trace([offset] + rest.offsets, got + rest.items, true)
  }

  /** One turn of the walker: when the page at `offset` is non-empty, fits in
      what is still wanted and moves forward, the trace is that page followed
      by the walk from the next offset. */
  lemma WalkFromStep<T>(fetch: int -> Page<T>, offset: int, remaining: nat)
    requires remaining > 0
    requires 0 < |fetch(offset).items| < remaining
    requires fetch(offset).maxResult > 0
    ensures var results := fetch(offset);
      var rest := WalkFrom(fetch, offset + results.maxResult, remaining - |results.items|);
      && WalkFrom(fetch, offset, remaining).items == results.items + rest.items
      && WalkFrom(fetch, offset, remaining).offsets == [offset] + rest.offsets
  {
  }

  /** Consecutive requests of the walker: each `start-index` is the previous
      one plus the previous page's positive `max-result`. */
  ghost predicate MovesForward<T>(fetch: int -> Page<T>, offsets: seq<int>)
    decreases |offsets|
  {
    |offsets| <= 1 ||
      (&& fetch(offsets[0]).maxResult > 0
       && offsets[1] == offsets[0] + fetch(offsets[0]).maxResult
       && MovesForward(fetch, offsets[1..]))
  }

  /** The walker only moves forward, and what it yields is a prefix of the
      elements of the pages it requested, in order. */
  lemma {:induction false} WalkFromShape<T>(fetch: int -> Page<T>, offset: int, remaining: nat)
    requires remaining > 0
    ensures MovesForward(fetch, WalkFrom(fetch, offset, remaining).offsets)
    ensures WalkFrom(fetch, offset, remaining).items <= ItemsAt(fetch, WalkFrom(fetch, offset, remaining).offsets)
    decreases remaining
  {
    var results := fetch(offset);
    if 0 < |results.items| < remaining && results.maxResult > 0 {
      WalkFromShape(fetch, offset + results.maxResult, remaining - |results.items|);
      WalkFromShapeStep(fetch, offset, remaining);
    } else {
      WalkFromShapeLast(fetch, offset, remaining);
    }
  }

  lemma WalkFromShapeLast<T>(fetch: int -> Page<T>, offset: int, remaining: nat)
    requires remaining > 0
    requires !(0 < |fetch(offset).items| < remaining && fetch(offset).maxResult > 0)
    ensures WalkFrom(fetch, offset, remaining).offsets == [offset]
    ensures MovesForward(fetch, WalkFrom(fetch, offset, remaining).offsets)
    ensures WalkFrom(fetch, offset, remaining).items <= ItemsAt(fetch, WalkFrom(fetch, offset, remaining).offsets)
  {
    var items := fetch(offset).items;
    assert ItemsAt(fetch, [offset]) == items + ItemsAt(fetch, []);
    assert items + [] == items;
  }

  lemma WalkFromShapeStep<T>(fetch: int -> Page<T>, offset: int, remaining: nat)
    requires remaining > 0
    requires 0 < |fetch(offset).items| < remaining && fetch(offset).maxResult > 0
    requires var rest := WalkFrom(fetch, offset + fetch(offset).maxResult, remaining - |fetch(offset).items|);
      MovesForward(fetch, rest.offsets) && rest.items <= ItemsAt(fetch, rest.offsets)
    ensures MovesForward(fetch, WalkFrom(fetch, offset, remaining).offsets)
    ensures WalkFrom(fetch, offset, remaining).items <= ItemsAt(fetch, WalkFrom(fetch, offset, remaining).offsets)
  {
    var rest := WalkFrom(fetch, offset + fetch(offset).maxResult, remaining - |fetch(offset).items|);
    WalkFromStep(fetch, offset, remaining);
    assert ([offset] + rest.offsets)[1..] == rest.offsets;
  }

  /** The paginated list walker: start at `start-index` 0; yield nothing (and
      request nothing more) when the first page reports `size` 0; otherwise
      yield pages until the first page's `size` or the cap is reached. */
  function WalkPages<T>(fetch: int -> Page<T>, cap: Option<nat>): (t: Trace<T>)
    ensures t.finished && |t.offsets| >= 1 && t.offsets[0] == 0
    ensures fetch(0).size <= 0 ==> t.offsets == [0] && t.items == []
    ensures |t.items| <= fetch(0).size || t.items == []
    ensures cap.Some? ==> |t.items| <= cap.value
  {
    var first := fetch(0);
    var limit := Limit(first.size, cap);
    if limit == 0 then Trace([0], [], true) else WalkFrom(fetch, 0, limit)
  }

  /** The last turn of the walker: a page holding at least what is still
      wanted ends the walk with that many of its elements. */
  lemma WalkFromLast<T>(fetch: int -> Page<T>, offset: int, remaining: nat)
    requires 0 < remaining <= |fetch(offset).items|
    ensures WalkFrom(fetch, offset, remaining).items == fetch(offset).items[..remaining]
  {
  }

  lemma SliceConcat<T>(xs: seq<T>, a: int, b: int, c: int)
    requires 0 <= a <= b <= c <= |xs|
    ensures xs[a..c] == xs[a..b] + xs[b..c]
  {
  }

  lemma SlicePrefix<T>(xs: seq<T>, a: int, b: int, n: int)
    requires 0 <= a && 0 <= n <= b - a && b <= |xs|
    ensures xs[a..b][..n] == xs[a..a + n]
  {
  }

  lemma {:induction false} WalkFromListsAll<T>(fetch: int -> Page<T>, xs: seq<T>, m: int, offset: int, remaining: nat)
    requires Serves(fetch, xs, m) && m > 0
    requires 0 <= offset && 0 < remaining <= |xs| - offset
    ensures WalkFrom(fetch, offset, remaining).items == xs[offset..offset + remaining]
    decreases remaining
  {
    if |fetch(offset).items| < remaining {
      ServedFullPage(fetch, xs, m, offset, remaining);
      WalkFromListsAll(fetch, xs, m, offset + m, remaining - m);
      WalkFromListsStep(fetch, xs, m, offset, remaining);
    } else {
      WalkFromListsLast(fetch, xs, m, offset, remaining);
    }
  }

  /** A page of an honest server that holds less than is still wanted
      holds the next `m` elements. */
  lemma ServedFullPage<T>(fetch: int -> Page<T>, xs: seq<T>, m: int, offset: int, remaining: nat)
    requires Serves(fetch, xs, m)
    requires 0 <= offset && 0 < remaining <= |xs| - offset
    requires |fetch(offset).items| < remaining
    ensures m < remaining
    ensures fetch(offset).items == xs[offset..offset + m] && fetch(offset).maxResult == m
  {
    ServedPage(fetch, xs, m, offset);
  }

  /** A full page holding the next `m` elements, followed by the rest of
      the collection, is the collection from that page on. */
  lemma WalkFromListsStep<T>(fetch: int -> Page<T>, xs: seq<T>, m: int, offset: int, remaining: nat)
    requires 0 < m < remaining && 0 <= offset && offset + remaining <= |xs|
    requires fetch(offset).items == xs[offset..offset + m] && fetch(offset).maxResult == m
    requires WalkFrom(fetch, offset + m, remaining - m).items == xs[offset + m..offset + m + (remaining - m)]
    ensures WalkFrom(fetch, offset, remaining).items == xs[offset..offset + remaining]
  {
    WalkFromStep(fetch, offset, remaining);
    SliceConcat(xs, offset, offset + m, offset + remaining);
  }

  /** The page of an honest server that covers what is still wanted ends
      the walk with exactly that part of the collection. */
  lemma WalkFromListsLast<T>(fetch: int -> Page<T>, xs: seq<T>, m: int, offset: int, remaining: nat)
    requires Serves(fetch, xs, m) && m > 0
    requires 0 <= offset && 0 < remaining <= |xs| - offset
    requires |fetch(offset).items| >= remaining
    ensures WalkFrom(fetch, offset, remaining).items == xs[offset..offset + remaining]
  {
    ServedPage(fetch, xs, m, offset);
    var end := if offset + m <= |xs| then offset + m else |xs|;
    WalkFromLast(fetch, offset, remaining);
    SlicePrefix(xs, offset, end, remaining);
  }

  /** Against an honest server the walker yields the collection, in order,
      cut at the cap when one is given. */
  lemma WalkPagesListsAll<T>(fetch: int -> Page<T>, xs: seq<T>, m: int, cap: Option<nat>)
    requires Serves(fetch, xs, m) && m > 0
    ensures cap.None? ==> WalkPages(fetch, cap).items == xs
    ensures cap.Some? ==> WalkPages(fetch, cap).items == xs[..if cap.value < |xs| then cap.value else |xs|]
  {
    assert fetch(0).size == |xs|;
    var limit := Limit(|xs|, cap);
    if limit > 0 {
      WalkFromListsAll(fetch, xs, m, 0, limit);
    }
  }

  /** When the first page already holds everything it reports, the one-page
      `_get_generator` and the walker do the same thing. */
  lemma SinglePageAgrees<T>(fetch: int -> Page<T>, maxResults: int)
    requires maxResults >= 0
    requires fetch(0).size == |fetch(0).items|
    ensures WalkPages(fetch, None) == GetGenerator(fetch, maxResults)
  {
  }

  // ---------------------------------------------------------------------------
  // The two-page scenario
  // ---------------------------------------------------------------------------

  /** A server holding three elements in pages of two. */
  function TwoPageServer(call: Call): Page<int> {
    var start := if "start-index" in call.params then call.params["start-index"] else Null;
    if start == Int(0) then Page(3, 2, [10, 20])
    else if start == Int(2) then Page(3, 2, [30])
    else Page(3, 2, [])
  }

  /** Page 1 reports `size` 3, `max-result` 2 and holds two elements; page 2
      holds the last one. The walker makes two requests and yields all three
      elements in order; `_get_generator` makes one request and yields two;
      the offset loop, like the walker, yields all three. */
  lemma TwoPageScenario(base: Call)
    ensures WalkPages(Pages(TwoPageServer, base), None) == Trace([0, 2], [10, 20, 30], true)
    ensures GetGenerator(Pages(TwoPageServer, base), 25) == Trace([0], [10, 20], true)
    ensures OffsetLoop(Pages(TwoPageServer, base), 0, 1, 5) == Trace([0, 2], [10, 20, 30], true)
  {
    var fetch := Pages(TwoPageServer, base);
    assert fetch(0) == Page(3, 2, [10, 20]);
    assert fetch(2) == Page(3, 2, [30]);
  }
}
