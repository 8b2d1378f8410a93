/**
 The resumable sweep over the library. The catalog does not change during a
 sweep, and a row is named by its place in key order. A cycle reads one page
 behind the persisted cursor, looks up which rows are cached, fetches the rest,
 and persists the cursor as it goes.
 */
module AudioDbSweep {
  import opened Wrappers

  /** A row whose stored metadata does not decode is skipped by the query, after its limit was applied. */
  datatype Row = WellFormed | Malformed

  /** What happens when the cycle comes to an item: it goes on, it has to stop, or it dies. */
  datatype Turn = GoOn | Stop | Die

  const MAX_ITEMS: nat := 5_000
  const PERSIST_INTERVAL: nat := 50

  // ----- Pages -----

  /** The first row behind the cursor. */
  function Behind(cursor: Option<nat>): nat {
    if cursor.None? then 0 else cursor.value + 1
  }

  /** Where the page that starts at `start` ends. */
  function PageEnd(rows: seq<Row>, start: nat): (r: nat)
    ensures r <= |rows| && (start <= |rows| ==> start <= r <= start + MAX_ITEMS)
    ensures start <= |rows| && r < |rows| ==> r == start + MAX_ITEMS
  {
    if start + MAX_ITEMS <= |rows| then start + MAX_ITEMS else |rows|
  }

  /** The well-formed rows from `start` to `end`, in order. */
  function Decoded(rows: seq<Row>, start: nat, end: nat): (r: seq<nat>)
    requires start <= end <= |rows|
    ensures |r| <= end - start
    ensures forall i :: i in r <==> start <= i < end && rows[i].WellFormed?
    ensures Ascending(r)
    decreases end - start
  {
    if start == end then []
    else if rows[start].Malformed? then Decoded(rows, start + 1, end)
    else
      var rest := Decoded(rows, start + 1, end);
      assert forall i :: 0 <= i < |rest| ==> rest[i] in rest;
      [start] + rest
  }

  predicate Ascending(items: seq<nat>) {
    forall i, j :: 0 <= i < j < |items| ==> items[i] < items[j]
  }

  /** `get_enrichment_candidates`: one page behind the cursor. */
  function Candidates(rows: seq<Row>, cursor: Option<nat>): seq<nat>
    requires Behind(cursor) <= |rows|
  {
    Decoded(rows, Behind(cursor), PageEnd(rows, Behind(cursor)))
  }

  /** As many well-formed rows as places means that every row is well-formed. */
  lemma {:induction false} FullPage(rows: seq<Row>, start: nat, end: nat, i: nat)
    requires start <= i < end <= |rows|
    ensures rows[i].Malformed? ==> |Decoded(rows, start, end)| < end - start
    decreases end - start
  {
    if start < i {
      FullPage(rows, start + 1, end, i);
    }
  }

  lemma {:induction false} CleanPage(rows: seq<Row>, start: nat, end: nat)
    requires start <= end <= |rows| && forall i :: start <= i < end ==> rows[i].WellFormed?
    ensures |Decoded(rows, start, end)| == end - start
    decreases end - start
  {
    hide Ascending;
    if start < end {
      assert rows[start].WellFormed?;
      CleanPage(rows, start + 1, end);
    }
  }

  // ----- Coverage -----

  /** Every well-formed row before `end` was found cached or had a fetch attempted. */
  predicate CoveredTo(rows: seq<Row>, covered: set<nat>, end: nat) {
    forall i :: 0 <= i < |rows| && i < end && rows[i].WellFormed? ==> i in covered
  }

  /** No well-formed row lies behind the page that follows the cursor. */
  predicate NothingBehindPage(rows: seq<Row>, cursor: Option<nat>)
    requires Behind(cursor) <= |rows|
  {
    forall i :: PageEnd(rows, Behind(cursor)) <= i < |rows| ==> rows[i].Malformed?
  }

  /** The page's items up to the `n`-th are covered, or wait in `needing`. */
  predicate Inspected(page: seq<nat>, n: nat, needing: seq<nat>, covered: set<nat>) {
    && n <= |page| && Ascending(needing) && |needing| <= n
    && (forall i :: 0 <= i < |needing| ==> needing[i] in page[..n])
    && (forall i :: 0 <= i < n ==> page[i] in covered || page[i] in needing)
  }

  lemma InspectedMore(page: seq<nat>, n: nat, needing: seq<nat>, covered: set<nat>, cached: bool)
    requires Ascending(page) && n < |page| && Inspected(page, n, needing, covered)
    ensures cached ==> Inspected(page, n + 1, needing, covered + {page[n]})
    ensures !cached ==> Inspected(page, n + 1, needing + [page[n]], covered)
  {
    assert page[..n + 1] == page[..n] + [page[n]];
    forall i | 0 <= i < |needing|
      ensures needing[i] < page[n]
    {
      assert needing[i] in page[..n];
    }
    assert (needing + [page[n]])[|needing|] == page[n];
    assert forall i :: 0 <= i < |needing| ==> (needing + [page[n]])[i] == needing[i];
    assert forall i :: i in needing ==> i in needing + [page[n]];
  }

  /** An item of the page at or before a fetched one is covered. */
  lemma InspectedBefore(page: seq<nat>, n: nat, needing: seq<nat>, covered: set<nat>, k: nat, p: nat)
    requires Ascending(page) && Inspected(page, n, needing, covered) && 0 < k <= |needing|
    requires forall j :: 0 <= j < k ==> needing[j] in covered
    requires p < |page| && page[p] <= needing[k - 1]
    ensures page[p] in covered
  {
    assert needing[k - 1] in page[..n];
    var q :| 0 <= q < n && page[..n][q] == needing[k - 1];
    assert p <= q;
    if page[p] in needing {
      var j :| 0 <= j < |needing| && needing[j] == page[p];
      assert j < k;
    }
  }

  /** Once all that was needed is fetched, all that was inspected is covered. */
  lemma InspectedAll(page: seq<nat>, n: nat, needing: seq<nat>, covered: set<nat>, p: nat)
    requires Inspected(page, n, needing, covered) && forall j :: 0 <= j < |needing| ==> needing[j] in covered
    requires p < n
    ensures page[p] in covered
  {
    if page[p] in needing {
      var j :| 0 <= j < |needing| && needing[j] == page[p];
    }
  }

  /** Covering the items of the page before `end` covers the rows before `end`. */
  lemma PageCovers(rows: seq<Row>, cursor: Option<nat>, covered: set<nat>, end: nat)
    requires Behind(cursor) <= |rows| && CoveredTo(rows, covered, Behind(cursor)) &&
               end <= PageEnd(rows, Behind(cursor))
    requires var page := Candidates(rows, cursor); forall p :: 0 <= p < |page| && page[p] < end ==> page[p] in covered
    ensures CoveredTo(rows, covered, end)
  {
    var page := Candidates(rows, cursor);
    forall i | Behind(cursor) <= i < end && rows[i].WellFormed?
      ensures i in covered
    {
      assert i in page;
      var p :| 0 <= p < |page| && page[p] == i;
    }
  }

  /** Up to the last fetched item everything is covered. */
  lemma FetchedCovers(rows: seq<Row>, cursor: Option<nat>, page: seq<nat>, n: nat, needing: seq<nat>,
      covered: set<nat>, k: nat)
    requires Behind(cursor) <= |rows| && page == Candidates(rows, cursor)
    requires CoveredTo(rows, covered, Behind(cursor)) && Inspected(page, n, needing, covered) && 0 < k <= |needing|
    requires forall j :: 0 <= j < k ==> needing[j] in covered
    ensures needing[k - 1] in page[..n] && CoveredTo(rows, covered, needing[k - 1] + 1)
  {
    hide CoveredTo, Candidates;
    assert needing[k - 1] in page[..n];
    InPage(rows, cursor, needing[k - 1]);
    forall p | 0 <= p < |page| && page[p] < needing[k - 1] + 1
      ensures page[p] in covered
    {
      InPage(rows, cursor, page[p]);
      InspectedBefore(page, n, needing, covered, k, p);
    }
    PageCovers(rows, cursor, covered, needing[k - 1] + 1);
  }

  lemma InPage(rows: seq<Row>, cursor: Option<nat>, i: nat)
    requires Behind(cursor) <= |rows| && i in Candidates(rows, cursor)
    ensures Behind(cursor) <= i < PageEnd(rows, Behind(cursor)) && Ascending(Candidates(rows, cursor))
  {
  }

  /** When all that was needed is fetched, everything up to the inspected end is covered. */
  lemma InspectionCovers(rows: seq<Row>, cursor: Option<nat>, page: seq<nat>, n: nat, needing: seq<nat>,
      covered: set<nat>)
    requires Behind(cursor) <= |rows| && page == Candidates(rows, cursor)
    requires CoveredTo(rows, covered, Behind(cursor)) && Inspected(page, n, needing, covered)
    requires forall j :: 0 <= j < |needing| ==> needing[j] in covered
    ensures n > 0 ==> CoveredTo(rows, covered, page[n - 1] + 1)
    ensures n == |page| ==> CoveredTo(rows, covered, PageEnd(rows, Behind(cursor)))
  {
    hide CoveredTo, Candidates, PageEnd;
    forall p | 0 <= p < n
      ensures page[p] in covered
    {
      InspectedAll(page, n, needing, covered, p);
    }
    if n > 0 {
      InPage(rows, cursor, page[n - 1]);
      PageCovers(rows, cursor, covered, page[n - 1] + 1);
    }
    if n == |page| {
      PageCovers(rows, cursor, covered, PageEnd(rows, Behind(cursor)));
    }
  }

  // ----- When the query drops rows -----

  /** A catalog in which every row decodes is covered by every sweep that completes. */
  lemma DecodableIsCovered(rows: seq<Row>, cursor: Option<nat>)
    requires Behind(cursor) <= |rows| && |Candidates(rows, cursor)| < MAX_ITEMS
    requires forall i :: 0 <= i < |rows| ==> rows[i].WellFormed?
    ensures NothingBehindPage(rows, cursor)
  {
    CleanPage(rows, Behind(cursor), PageEnd(rows, Behind(cursor)));
  }

  /** One row that does not decode makes a full page look like the last one. */
  lemma MalformedRowEndsSweep(rows: seq<Row>, bad: nat, good: nat)
    requires bad < MAX_ITEMS <= good < |rows| && rows[bad].Malformed? && rows[good].WellFormed?
    ensures |Candidates(rows, None)| < MAX_ITEMS && !NothingBehindPage(rows, None)
  {
    hide Decoded;
    FullPage(rows, 0, MAX_ITEMS, bad);
    assert good >= PageEnd(rows, 0);
  }

  // ----- What a cycle does -----

  /** The items that were looked up and found. */
  function Cached(items: seq<nat>, cached: nat -> bool): set<nat> {
    set item | item in items && cached(item)
  }

  /** The items that were looked up and not found, in order. */
  function Uncached(items: seq<nat>, cached: nat -> bool): seq<nat> {
    if items == [] then []
    else
      var last := items[|items| - 1];
      Uncached(items[..|items| - 1], cached) + if cached(last) then [] else [last]
  }

  function Elements(items: seq<nat>): set<nat> {
    set item | item in items
  }

  /** The cursor saved while items are fetched: behind the last full interval. */
  function Persisted(start: Option<nat>, needing: seq<nat>, processed: nat): Option<nat>
    requires processed <= |needing|
  {
    if processed < PERSIST_INTERVAL then start else Some(needing[processed - processed % PERSIST_INTERVAL - 1])
  }

  /**
   The cursor a cycle leaves that neither dies nor completes the sweep: behind
   what was inspected when all of that was cached or the whole page was worked
   off, and else behind the last item whose fetch was attempted.
   */
  function Reached(start: Option<nat>, page: seq<nat>, inspected: nat, needing: seq<nat>, processed: nat): Option<nat>
    requires inspected <= |page| && processed <= |needing|
  {
    if needing == [] || (processed == |needing| && inspected == |page|)
    then (if inspected == 0 then start else Some(page[inspected - 1]))
    else if processed == 0 then start
    else Some(needing[processed - 1])
  }

  lemma PersistedAt(start: Option<nat>, needing: seq<nat>, processed: nat)
    requires processed <= |needing|
    ensures processed == 0 ==> Persisted(start, needing, processed) == start
    ensures processed > 0 && processed % PERSIST_INTERVAL == 0 ==>
              Persisted(start, needing, processed) == Some(needing[processed - 1])
    ensures processed > 0 && processed % PERSIST_INTERVAL > 0 ==>
              Persisted(start, needing, processed) == Persisted(start, needing, processed - 1)
  {
  }

  lemma OneMoreItem(items: seq<nat>, k: nat, cached: nat -> bool)
    requires k < |items|
    ensures var some, more := items[..k], items[..k + 1];
            && more == some + [items[k]] && Elements(more) == Elements(some) + {items[k]}
            && Cached(more, cached) == Cached(some, cached) + (if cached(items[k]) then {items[k]} else {})
            && Uncached(more, cached) == Uncached(some, cached) + (if cached(items[k]) then [] else [items[k]])
  {
    assert items[..k + 1][..k] == items[..k] && items[..k + 1] == items[..k] + [items[k]];
  }

  // ----- A cycle -----

  /** What is known while a cycle works on the page behind `start`. */
  predicate Sweeping(rows: seq<Row>, start: Option<nat>, covered: set<nat>) {
    && Behind(start) <= |rows| && CoveredTo(rows, covered, Behind(start))
    && forall i :: i in covered ==> i < PageEnd(rows, Behind(start))
  }

  /** A cursor the cycle may leave behind at any moment. */
  predicate Resumable(rows: seq<Row>, start: Option<nat>, covered: set<nat>, cursor: Option<nat>)
    requires Behind(start) <= |rows|
  {
    cursor == start ||
        (cursor.Some? && cursor.value in Candidates(rows, start) && CoveredTo(rows, covered, cursor.value + 1))
  }

  lemma ResumableSweeps(rows: seq<Row>, start: Option<nat>, covered: set<nat>, cursor: Option<nat>)
    requires Sweeping(rows, start, covered) && Resumable(rows, start, covered, cursor)
    ensures Sweeping(rows, cursor, covered)
    ensures cursor == start || (cursor.Some? && cursor.value in Candidates(rows, start))
  {
    if cursor != start {
      InPage(rows, start, cursor.value);
    }
  }

  lemma CoversMore(rows: seq<Row>, start: Option<nat>, covered: set<nat>, item: nat, cursor: Option<nat>)
    requires Sweeping(rows, start, covered) && item in Candidates(rows, start) &&
               Resumable(rows, start, covered, cursor)
    ensures Sweeping(rows, start, covered + {item}) && Resumable(rows, start, covered + {item}, cursor)
  {
    InPage(rows, start, item);
  }

  /** A finished page ends the sweep with full coverage exactly when nothing well-formed lies behind it. */
  lemma CompletionCovers(rows: seq<Row>, start: Option<nat>, covered: set<nat>)
    requires Sweeping(rows, start, covered) && CoveredTo(rows, covered, PageEnd(rows, Behind(start)))
    ensures CoveredTo(rows, covered, |rows|) <==> NothingBehindPage(rows, start)
  {
    if CoveredTo(rows, covered, |rows|) {
      forall i | PageEnd(rows, Behind(start)) <= i < |rows|
        ensures rows[i].Malformed?
      {
        assert rows[i].WellFormed? ==> i in covered;
      }
    }
  }

  class AudioDbSweep {
    const rows: seq<Row>
    var cursor: Option<nat>
    /** How often the sweep recorded completion. */
    var completions: nat
    /** The calls of the image service: the items looked up and the items whose fetch was attempted. */
    var lookups: seq<nat>
    var fetches: seq<nat>
    /** What was found cached or had a fetch attempted since the cursor was last empty. */
    ghost var covered: set<nat>

    ghost predicate Valid()
      reads this
    {
      cursor.Some? ==> Sweeping(rows, cursor, covered)
    }

    constructor (rows: seq<Row>)
      ensures Valid() && this.rows == rows && cursor == None && completions == 0
    {
      this.rows := rows;
      cursor, completions, lookups, fetches, covered := None, 0, [], [], {};
    }

    /** `get_cached_artist_images` or `get_cached_album_images`. */
    method LookUp(item: nat, cached: nat -> bool) returns (hit: bool)
      modifies this`lookups
      ensures lookups == old(lookups) + [item] && hit == cached(item)
    {
      lookups := lookups + [item];
      hit := cached(item);
    }

    /** `fetch_and_cache_artist_images` or `fetch_and_cache_album_images`; an error counts as an attempt. */
    method AttemptFetch(item: nat)
      modifies this`fetches
      ensures fetches == old(fetches) + [item]
    {
      fetches := fetches + [item];
    }

    /**
     One cycle. The arguments say whether the service is enabled, which rows are
     cached, and what happens at each item while it is inspected and while it is
     fetched; a cycle can also die after its last fetch. The results say whether
     the sweep is complete, and how many items were looked up and fetched.
     */
    method Cycle(enabled: bool, cached: nat -> bool, inspect: nat -> Turn, fetch: nat -> Turn, dies: bool)
      returns (completed: bool, inspected: nat, processed: nat)
      requires Valid()
      modifies this
      ensures Valid() && Behind(old(cursor)) <= |rows|
      ensures completed ==> cursor == None && completions == old(completions) + 1
      ensures !completed ==>
                && completions == old(completions)
                && (cursor == old(cursor) || (cursor.Some? && cursor.value in Candidates(rows, old(cursor))))
      ensures completed ==> (CoveredTo(rows, covered, |rows|) <==> NothingBehindPage(rows, old(cursor)))
      ensures !enabled ==>
                cursor == old(cursor) && covered == old(covered) && lookups == old(lookups) && fetches == old(fetches)
      ensures enabled ==>
                var page := Candidates(rows, old(cursor));
                inspected <= |page| && processed <= |Uncached(page[..inspected], cached)|
      ensures enabled ==>
                var looked := Candidates(rows, old(cursor))[..inspected];
                var fetched := Uncached(looked, cached)[..processed];
                && lookups == old(lookups) + looked && fetches == old(fetches) + fetched
                && covered == (if old(cursor).None? then {} else old(covered))
                              + Cached(looked, cached) + Elements(fetched)
                && (forall item :: item in looked ==> inspect(item).GoOn?)
                && (forall item :: item in fetched ==> fetch(item).GoOn?)
      ensures enabled && !completed ==>
                var page := Candidates(rows, old(cursor));
                var needing := Uncached(page[..inspected], cached);
                cursor ==
                  if inspected < |page| && inspect(page[inspected]).Die? then old(cursor)
                  else if needing != [] && (dies || (processed < |needing| && fetch(needing[processed]).Die?))
                  then Persisted(old(cursor), needing, processed)
                  else Reached(old(cursor), page, inspected, needing, processed)
      ensures var page := Candidates(rows, old(cursor));
              enabled && !dies && (forall i :: i in page ==> inspect(i).GoOn? && fetch(i).GoOn?) ==>
                && (completed <==> |page| < MAX_ITEMS)
                && cursor == if |page| < MAX_ITEMS then None else Some(page[|page| - 1])
    {
      hide Candidates, CoveredTo, Inspected, Ascending, PageEnd, NothingBehindPage, Sweeping, Resumable,
        Cached, Uncached, Elements, Persisted;
      completed, inspected, processed := false, 0, 0;
      var start := cursor;
      StartsSweeping(rows, start, covered);
      if !enabled {
        return;
      }
      if start.None? {
        covered := {};
      }
      var page := Candidates(rows, start);
      PageFits(rows, start);
      NothingDone(page, cached);
      if page == [] {
        NothingInspected(page, covered);
        completed := Finish(start, page, 0, [], true);
        return;
      }
      var needing, died;
      inspected, needing, died := Inspect(page, cached, inspect);
      NothingDone(needing, cached);
      if died {
        return;
      }
      if needing == [] {
        completed := Finish(start, page, inspected, needing, inspected == |page| && |page| < MAX_ITEMS);
        return;
      }
      completed, processed := FetchPage(page, inspected, needing, fetch, dies);
    }

    /** The second half of a cycle: the fetches and the record at their end. */
    method FetchPage(page: seq<nat>, inspected: nat, needing: seq<nat>, fetch: nat -> Turn, dies: bool)
      returns (completed: bool, processed: nat)
      requires Behind(cursor) <= |rows| && Sweeping(rows, cursor, covered) && page == Candidates(rows, cursor)
      requires inspected <= |page| && Inspected(page, inspected, needing, covered)
      modifies this`covered, this`cursor, this`fetches, this`completions
      ensures Valid()
      ensures processed <= |needing| && fetches == old(fetches) + needing[..processed]
      ensures covered == old(covered) + Elements(needing[..processed])
      ensures forall item :: item in needing[..processed] ==> item in page && fetch(item).GoOn?
      ensures processed < |needing| ==> needing[processed] in page && !fetch(needing[processed]).GoOn?
      ensures completed <==> !dies && processed == |needing| && inspected == |page| < MAX_ITEMS
      ensures completions == old(completions) + if completed then 1 else 0
      ensures cursor.None? || cursor == old(cursor) || cursor.value in page
      ensures completed ==> cursor == None
      ensures completed ==> (CoveredTo(rows, covered, |rows|) <==> NothingBehindPage(rows, old(cursor)))
      ensures !completed ==> cursor == old(cursor) || cursor.Some?
      ensures !completed && needing != [] ==>
                cursor ==
                  if dies || (processed < |needing| && fetch(needing[processed]).Die?)
                  then Persisted(old(cursor), needing, processed)
                  else Reached(old(cursor), page, inspected, needing, processed)
    {
      hide Candidates, CoveredTo, Inspected, Ascending, PageEnd, NothingBehindPage, Sweeping, Resumable,
        Cached, Uncached, Elements, Persisted;
      var start := cursor;
      completed := false;
      var processedCursor, died;
      processed, processedCursor, died := Fetch(page, inspected, needing, fetch);
      if died || dies {
        ResumableSweeps(rows, start, covered, cursor);
        return;
      }
      if processed >= |needing| && inspected == |page| {
        completed := Finish(start, page, inspected, needing, |page| < MAX_ITEMS);
      } else {
        cursor := processedCursor;
        ResumableSweeps(rows, start, covered, cursor);
      }
    }

    /** Looks up the items of the page until it has to stop; what is not cached needs a fetch. */
    method Inspect(page: seq<nat>, cached: nat -> bool, inspect: nat -> Turn)
      returns (inspected: nat, needing: seq<nat>, died: bool)
      requires Behind(cursor) <= |rows| && Sweeping(rows, cursor, covered) && page == Candidates(rows, cursor)
      modifies this`covered, this`lookups
      ensures Sweeping(rows, cursor, covered) && inspected <= |page| && Inspected(page, inspected, needing, covered)
      ensures lookups == old(lookups) + page[..inspected]
      ensures covered == old(covered) + Cached(page[..inspected], cached)
      ensures needing == Uncached(page[..inspected], cached)
      ensures forall item :: item in page[..inspected] ==> inspect(item).GoOn?
      ensures inspected < |page| ==> !inspect(page[inspected]).GoOn?
      ensures died <==> inspected < |page| && inspect(page[inspected]).Die?
    {
      hide Candidates, CoveredTo, Inspected, PageEnd, Sweeping, Resumable, Cached, Uncached, Elements;
      inspected, needing, died := 0, [], false;
      NothingInspected(page, covered);
      NothingDone(page, cached);
      while inspected < |page|
        invariant inspected <= |page|
        invariant Sweeping(rows, cursor, covered) && Inspected(page, inspected, needing, covered)
        invariant lookups == old(lookups) + page[..inspected]
        invariant covered == old(covered) + Cached(page[..inspected], cached)
        invariant needing == Uncached(page[..inspected], cached)
        invariant forall item :: item in page[..inspected] ==> inspect(item).GoOn?
      {
        var item := page[inspected];
        if inspect(item) != GoOn {
          died := inspect(item).Die?;
          return;
        }
        InPage(rows, cursor, item);
        InspectedMore(page, inspected, needing, covered, cached(item));
        OneMoreItem(page, inspected, cached);
        var hit := LookUp(item, cached);
        if hit {
          CoversMore(rows, cursor, covered, item, cursor) by { StartsResumable(rows, cursor, covered); }
          covered := covered + {item};
        } else {
          needing := needing + [item];
        }
        inspected := inspected + 1;
      }
    }

    /** Fetches what is needed until it has to stop, and persists the cursor every so often. */
    method Fetch(page: seq<nat>, inspected: nat, needing: seq<nat>, fetch: nat -> Turn)
      returns (processed: nat, processedCursor: Option<nat>, died: bool)
      requires Behind(cursor) <= |rows| && Sweeping(rows, cursor, covered) && page == Candidates(rows, cursor)
      requires Inspected(page, inspected, needing, covered)
      modifies this`covered, this`cursor, this`fetches
      ensures Sweeping(rows, old(cursor), covered) && Inspected(page, inspected, needing, covered)
      ensures processed <= |needing| && fetches == old(fetches) + needing[..processed]
      ensures covered == old(covered) + Elements(needing[..processed])
      ensures forall j :: 0 <= j < processed ==> needing[j] in covered
      ensures forall item :: item in needing[..processed] ==> item in page && fetch(item).GoOn?
      ensures processed < |needing| ==> needing[processed] in page && !fetch(needing[processed]).GoOn?
      ensures died <==> processed < |needing| && fetch(needing[processed]).Die?
      ensures processedCursor == if processed == 0 then old(cursor) else Some(needing[processed - 1])
      ensures cursor == Persisted(old(cursor), needing, processed)
      ensures Resumable(rows, old(cursor), covered, processedCursor)
      ensures Resumable(rows, old(cursor), covered, cursor)
    {
      hide Candidates, CoveredTo, Inspected, Ascending, PageEnd, Sweeping, Resumable, Elements, Cached, Uncached,
          Persisted;
      var start := cursor;
      PersistedAt(start, needing, 0);
      processed, processedCursor, died := 0, start, false;
      StartsResumable(rows, start, covered);
      NothingDone(needing, _ => false);
      while processed < |needing|
        invariant processed <= |needing| && fetches == old(fetches) + needing[..processed]
        invariant covered == old(covered) + Elements(needing[..processed])
        invariant forall j :: 0 <= j < processed ==> needing[j] in covered
        invariant forall item :: item in needing[..processed] ==> item in page && fetch(item).GoOn?
        invariant processedCursor == if processed == 0 then start else Some(needing[processed - 1])
        invariant cursor == Persisted(start, needing, processed)
        invariant Sweeping(rows, start, covered) && Inspected(page, inspected, needing, covered)
        invariant Resumable(rows, start, covered, processedCursor) && Resumable(rows, start, covered, cursor)
      {
        var item := needing[processed];
        NeededIsInPage(page, inspected, needing, covered, processed);
        if fetch(item) != GoOn {
          died := fetch(item).Die?;
          return;
        }
        CoversMore(rows, start, covered, item, cursor);
        InspectedGrows(page, inspected, needing, covered, item);
        OneMoreItem(needing, processed, _ => false);
        AttemptFetch(item);
        covered := covered + {item};
        processed := processed + 1;
        processedCursor := Some(item);
        FetchedResumes(rows, start, page, inspected, needing, covered, processed);
        PersistedAt(start, needing, processed);
        if processed % PERSIST_INTERVAL == 0 {
          cursor := processedCursor;
        }
      }
    }

    /** The record at the end of a page: a completed sweep, or the cursor behind what was inspected. */
    method Finish(start: Option<nat>, page: seq<nat>, inspected: nat, needing: seq<nat>, pageComplete: bool)
      returns (completed: bool)
      requires Sweeping(rows, start, covered) && page == Candidates(rows, start)
      requires Inspected(page, inspected, needing, covered) && forall j :: 0 <= j < |needing| ==> needing[j] in covered
      requires pageComplete ==> inspected == |page|
      modifies this`cursor, this`completions
      ensures completed == pageComplete && Valid()
      ensures inspected <= |page| && (cursor.None? || cursor == start || cursor.value in page)
      ensures completions == old(completions) + if completed then 1 else 0
      ensures cursor == if completed then None else if inspected == 0 then start else Some(page[inspected - 1])
      ensures completed ==> (CoveredTo(rows, covered, |rows|) <==> NothingBehindPage(rows, start))
    {
      hide Candidates, CoveredTo, Inspected, Ascending, PageEnd, NothingBehindPage, Resumable;
      completed := pageComplete;
      InspectionCovers(rows, start, page, inspected, needing, covered);
      InspectedFits(page, inspected, needing, covered);
      if pageComplete {
        CompletionCovers(rows, start, covered);
        cursor, completions := None, completions + 1;
      } else {
        cursor := if inspected == 0 then start else Some(page[inspected - 1]);
        if inspected > 0 {
          InspectionResumes(rows, start, covered, page[inspected - 1]);
          ResumableSweeps(rows, start, covered, cursor);
        }
      }
    }
  }

  /**
   One row that does not decode among the first 5,000 lets the first cycle of a
   sweep record completion, with the well-formed rows behind them never looked
   up, although nothing interrupts it.
   */
  method SweepCompletesEarly(rows: seq<Row>, bad: nat, good: nat, cached: nat -> bool)
    returns (sweep: AudioDbSweep, completed: bool)
    requires bad < MAX_ITEMS <= good < |rows| && rows[bad].Malformed? && rows[good].WellFormed?
    ensures fresh(sweep) && sweep.Valid() && sweep.rows == rows
    ensures completed && sweep.completions == 1 && !CoveredTo(rows, sweep.covered, |rows|)
  {
    hide Candidates, CoveredTo, NothingBehindPage;
    sweep := new AudioDbSweep(rows);
    MalformedRowEndsSweep(rows, bad, good);
    var inspected, processed;
    completed, inspected, processed := sweep.Cycle(true, cached, _ => GoOn, _ => GoOn, false);
  }

  lemma NothingDone(items: seq<nat>, cached: nat -> bool)
    ensures items[..0] == [] && Elements([]) == {} && Cached([], cached) == {} && Uncached([], cached) == []
  {
  }

  lemma StartsSweeping(rows: seq<Row>, start: Option<nat>, covered: set<nat>)
    requires start.Some? ==> Sweeping(rows, start, covered)
    ensures Sweeping(rows, start, if start.None? then {} else covered) && Behind(start) <= |rows|
  {
  }

  lemma StartsResumable(rows: seq<Row>, start: Option<nat>, covered: set<nat>)
    requires Sweeping(rows, start, covered)
    ensures Resumable(rows, start, covered, start)
  {
  }

  lemma PageFits(rows: seq<Row>, start: Option<nat>)
    requires Behind(start) <= |rows|
    ensures |Candidates(rows, start)| <= MAX_ITEMS && Ascending(Candidates(rows, start))
  {
  }

  lemma NothingInspected(page: seq<nat>, covered: set<nat>)
    ensures Inspected(page, 0, [], covered)
  {
  }

  lemma InspectedFits(page: seq<nat>, n: nat, needing: seq<nat>, covered: set<nat>)
    requires Inspected(page, n, needing, covered)
    ensures n <= |page| && (forall i :: 0 <= i < n ==> page[i] in page)
  {
  }

  lemma InspectedGrows(page: seq<nat>, n: nat, needing: seq<nat>, covered: set<nat>, item: nat)
    requires Inspected(page, n, needing, covered)
    ensures Inspected(page, n, needing, covered + {item})
  {
  }

  lemma NeededIsInPage(page: seq<nat>, n: nat, needing: seq<nat>, covered: set<nat>, j: nat)
    requires Inspected(page, n, needing, covered) && j < |needing|
    ensures needing[j] in page
  {
    assert needing[j] in page[..n];
  }

  lemma FetchedResumes(rows: seq<Row>, start: Option<nat>, page: seq<nat>, n: nat, needing: seq<nat>,
      covered: set<nat>, k: nat)
    requires Sweeping(rows, start, covered) && page == Candidates(rows, start)
    requires Inspected(page, n, needing, covered) && 0 < k <= |needing|
    requires forall j :: 0 <= j < k ==> needing[j] in covered
    ensures Resumable(rows, start, covered, Some(needing[k - 1]))
  {
    FetchedCovers(rows, start, page, n, needing, covered, k);
  }

  lemma InspectionResumes(rows: seq<Row>, start: Option<nat>, covered: set<nat>, item: nat)
    requires Behind(start) <= |rows| && item in Candidates(rows, start) && CoveredTo(rows, covered, item + 1)
    ensures Resumable(rows, start, covered, Some(item))
  {
  }
}
