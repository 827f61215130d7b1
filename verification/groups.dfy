/** Page groups and batch-result merging (client-gas/src/c-12-group-processor.ts): the pure parts of
    `GroupProcessor`. `processGroup` itself, which talks to the server and the property store, is in
    module `Runner`. */
module Groups {
  import opened Wrappers
  import opened Seqs
  import opened Models
  import opened Batching

  /** A slice of the page list processed by one invocation step; `endIndex` is inclusive. */
  datatype PageGroup = PageGroup(groupIndex: int, pages: seq<Page>, startIndex: int, endIndex: int)

  /** The source's loop from `i = start`, numbering groups from `index`. */
  function GroupsFrom(pages: seq<Page>, size: nat, start: nat, index: nat): seq<PageGroup>
    requires size >= 1
    decreases |pages| - start
  {
    if start >= |pages| then []
    else
      var end := Min(start + size - 1, |pages| - 1);
      [PageGroup(index, pages[start..end + 1], start, end)] + GroupsFrom(pages, size, start + size, index + 1)
  }

  /** `splitIntoGroups(pages, groupSize)`; an empty list gives no groups. */
  function SplitIntoGroups(pages: seq<Page>, groupSize: nat): (r: seq<PageGroup>)
    requires groupSize >= 1
    ensures |pages| == 0 ==> r == []
  {
    if |pages| == 0 then [] else GroupsFrom(pages, groupSize, 0, 0)
  }

  lemma {:induction false} GroupsFromLength(pages: seq<Page>, size: nat, start: nat, index: nat)
    requires size >= 1 && start <= |pages|
    ensures |GroupsFrom(pages, size, start, index)| == |SplitIntoBatches(pages[start..], size)|
    decreases |pages| - start
  {
    if start < |pages| && start + size < |pages| {
      GroupsFromLength(pages, size, start + size, index + 1);
      assert pages[start..][size..] == pages[start + size..];
    }
  }

  lemma {:induction false} GroupsFromAt(pages: seq<Page>, size: nat, start: nat, index: nat, k: nat)
    requires size >= 1 && start <= |pages|
    requires k < |SplitIntoBatches(pages[start..], size)|
    ensures k < |GroupsFrom(pages, size, start, index)| && GroupsFrom(pages, size, start, index)[k]
         == PageGroup(index + k, SplitIntoBatches(pages[start..], size)[k], start + k * size,
                      Min(start + k * size + size - 1, |pages| - 1))
    decreases k
  {
    GroupsFromLength(pages, size, start, index);
    var tail := pages[start..];
    if k == 0 {
      if |tail| > size {
        assert tail[..size] == pages[start..start + size];
      }
    } else {
      SplitIntoBatchesStep(tail, size, k);
      assert tail[size..] == pages[start + size..];
      GroupsFromAt(pages, size, start + size, index + 1, k - 1);
      MulStep(k, size);
    }
  }

  /** Group `k` has `groupIndex = k`, starts at `k·groupSize`, ends at `min(start + groupSize − 1, n − 1)`,
      and its pages are batch `k` of `splitIntoBatches(pages, groupSize)`. */
  lemma SplitIntoGroupsAt(pages: seq<Page>, groupSize: nat, k: nat)
    requires groupSize >= 1 && k < |SplitIntoBatches(pages, groupSize)|
    ensures |SplitIntoGroups(pages, groupSize)| == |SplitIntoBatches(pages, groupSize)|
         && SplitIntoGroups(pages, groupSize)[k]
         == PageGroup(k, SplitIntoBatches(pages, groupSize)[k], k * groupSize,
                      Min(k * groupSize + groupSize - 1, |pages| - 1))
  {
    assert pages[0..] == pages;
    GroupsFromLength(pages, groupSize, 0, 0);
    GroupsFromAt(pages, groupSize, 0, 0, k);
  }

  /** The pages of the groups, read in order, are the input: every page is in exactly one group,
      every group is non-empty and holds at most `groupSize` pages, all but the last exactly that many,
      and there are ceil(n / groupSize) groups. */
  lemma SplitIntoGroupsPartition(pages: seq<Page>, groupSize: nat)
    requires groupSize >= 1
    ensures var gs := SplitIntoGroups(pages, groupSize);
      && Flatten(Map(gs, (g: PageGroup) => g.pages)) == pages
      && (forall k :: 0 <= k < |gs| ==> 1 <= |gs[k].pages| <= groupSize)
      && (forall k :: 0 <= k < |gs| - 1 ==> |gs[k].pages| == groupSize)
      && (|gs| - 1) * groupSize < |pages| <= |gs| * groupSize
  {
    var gs := SplitIntoGroups(pages, groupSize);
    var bs := SplitIntoBatches(pages, groupSize);
    assert pages[0..] == pages;
    if |pages| > 0 {
      GroupsFromLength(pages, groupSize, 0, 0);
    } else {
      SplitIntoBatchesFlatten(pages, groupSize);
    }
    forall k | 0 <= k < |bs|
      ensures gs[k].pages == bs[k]
    {
      SplitIntoGroupsAt(pages, groupSize, k);
    }
    assert Map(gs, (g: PageGroup) => g.pages) == bs;
    SplitIntoBatchesFlatten(pages, groupSize);
    SplitIntoBatchesCount(pages, groupSize);
  }

  /** `getCurrentGroup(groups, index)`: the group at `index`, or null outside `[0, |groups|)`. */
  function GetCurrentGroup(groups: seq<PageGroup>, index: int): (r: Option<PageGroup>)
    ensures r.None? <==> index < 0 || index >= |groups|
    ensures r.Some? ==> r.value == groups[index]
  {
    if index < 0 || index >= |groups| then None else Some(groups[index])
  }

  /** On a fresh partition of `n` pages, `getCurrentGroup` finds a group at index `i` exactly when
      `0 <= i` and `i·groupSize < n`, which is what makes a stored index resumable; the group found
      is numbered `i`, starts at page `i·groupSize` and holds the pages from there up to
      `min((i + 1)·groupSize, n)`. */
  lemma CurrentGroupIndex(pages: seq<Page>, groupSize: nat, i: int)
    requires groupSize >= 1
    ensures var r := GetCurrentGroup(SplitIntoGroups(pages, groupSize), i);
      && (r.Some? <==> 0 <= i && i * groupSize < |pages|)
      && (r.Some? ==> r.value.groupIndex == i && r.value.startIndex == i * groupSize
                      && r.value.pages == pages[i * groupSize .. Min(i * groupSize + groupSize, |pages|)])
  {
    var gs := SplitIntoGroups(pages, groupSize);
    var m := |SplitIntoBatches(pages, groupSize)|;
    assert pages[0..] == pages;
    SplitIntoBatchesCount(pages, groupSize);
    if |pages| > 0 {
      GroupsFromLength(pages, groupSize, 0, 0);
    } else {
      SplitIntoBatchesFlatten(pages, groupSize);
    }
    assert |gs| == m;
    if 0 <= i < m {
      MulMonotone(i, m - 1, groupSize);
      SplitIntoGroupsAt(pages, groupSize, i);
      SplitIntoBatchesSlice(pages, groupSize, i);
    } else if 0 <= i {
      MulMonotone(m, i, groupSize);
    }
  }

  lemma MulMonotone(a: int, b: int, c: nat)
    requires 0 <= a <= b
    ensures a * c <= b * c
  {
  }

  /** The minimum time `canProcessMoreGroups` demands for one more group. */
  const MinTimeForNextGroupMs := 60 * 1000

  /** `canProcessMoreGroups(startTime)` at clock `now`: strictly more than one minute of the budget left. */
  predicate CanProcessMoreGroups(startTime: int, now: int, maxExecutionMs: int) {
    maxExecutionMs - (now - startTime) > MinTimeForNextGroupMs
  }

  /** Time only runs forward: once the budget check fails it keeps failing, and exactly one minute
      left is already too little. */
  lemma CanProcessMoreGroupsMonotone(startTime: int, now: int, later: int, maxExecutionMs: int)
    requires now <= later
    ensures CanProcessMoreGroups(startTime, later, maxExecutionMs) ==> CanProcessMoreGroups(startTime, now, maxExecutionMs)
    ensures now - startTime == maxExecutionMs - MinTimeForNextGroupMs ==> !CanProcessMoreGroups(startTime, now, maxExecutionMs)
    ensures now - startTime == maxExecutionMs - MinTimeForNextGroupMs - 1 ==> CanProcessMoreGroups(startTime, now, maxExecutionMs)
  {
  }

  /** The running totals of `mergeBatchResults`' loop. */
  datatype Totals = Totals(processed: int, updated: int, added: int, duration: int,
                           errors: seq<string>, diffs: seq<DiffResult>)
  {
    function Add(b: BatchResult): Totals {
      Totals(processed + b.processedPages, updated + b.updatedPages, added + b.addedPdfs,
             duration + b.duration, errors + b.errors, diffs + b.diffResults.GetOr([]))
    }
    function Plus(o: Totals): Totals {
      Totals(processed + o.processed, updated + o.updated, added + o.added, duration + o.duration,
             errors + o.errors, diffs + o.diffs)
    }
  }

  const NoTotals := Totals(0, 0, 0, 0, [], [])

  /** The loop of `mergeBatchResults` over `results`, in order. */
  function Accumulate(results: seq<BatchResult>): Totals {
    if |results| == 0 then NoTotals
    else Accumulate(results[..|results| - 1]).Add(results[|results| - 1])
  }

  /** `mergeBatchResults(results)`. */
  function MergeBatchResults(results: seq<BatchResult>): (r: BatchResult)
    ensures r.execId == if |results| > 0 && results[0].execId != "" then results[0].execId else "merged"
    ensures r.diffResults.Some?
  {
    var t := Accumulate(results);
    var execId := if |results| > 0 && results[0].execId != "" then results[0].execId else "merged";
    BatchResult(execId, t.processed, t.updated, t.added, t.duration, t.errors, Some(t.diffs))
  }

  /** Merging is additive: the totals over `a + b` are the totals over `a` plus those over `b`, the
      errors and diff results of `a` come before those of `b`. */
  lemma {:induction false} AccumulateAppend(a: seq<BatchResult>, b: seq<BatchResult>)
    ensures Accumulate(a + b) == Accumulate(a).Plus(Accumulate(b))
    decreases |b|
  {
    if |b| == 0 {
      assert a + b == a;
    } else {
      var b', x := b[..|b| - 1], b[|b| - 1];
      assert (a + b)[..|a + b| - 1] == a + b';
      assert (a + b)[|a + b| - 1] == x;
      AccumulateAppend(a, b');
      var ta, tb := Accumulate(a), Accumulate(b');
      PlusAdd(ta, tb, x);
    }
  }

  lemma PlusAdd(ta: Totals, tb: Totals, x: BatchResult)
    ensures ta.Plus(tb).Add(x) == ta.Plus(tb.Add(x))
  {
    assert ta.errors + tb.errors + x.errors == ta.errors + (tb.errors + x.errors);
    assert ta.diffs + tb.diffs + x.diffResults.GetOr([]) == ta.diffs + (tb.diffs + x.diffResults.GetOr([]));
  }

  /** A single result merges to its own counts, errors and diff results. */
  lemma AccumulateOne(x: BatchResult)
    ensures Accumulate([x]) == Totals(x.processedPages, x.updatedPages, x.addedPdfs, x.duration,
                                      x.errors, x.diffResults.GetOr([]))
  {
    assert [x][..0] == [];
  }

  /** Merging concatenates every error and every diff result, in order, its counts and duration are the
      sums, and it carries the first result's id (`'merged'` when there is none). */
  lemma {:induction false} MergeBatchResultsSpec(results: seq<BatchResult>)
    ensures var r := MergeBatchResults(results);
      && r.execId == (if |results| > 0 && results[0].execId != "" then results[0].execId else "merged")
      && r.processedPages == SumOf(results, (x: BatchResult) => x.processedPages)
      && r.updatedPages == SumOf(results, (x: BatchResult) => x.updatedPages)
      && r.addedPdfs == SumOf(results, (x: BatchResult) => x.addedPdfs)
      && r.duration == SumOf(results, (x: BatchResult) => x.duration)
      && r.errors == Flatten(Map(results, (x: BatchResult) => x.errors))
      && r.diffResults == Some(Flatten(Map(results, (x: BatchResult) => x.diffResults.GetOr([]))))
    decreases |results|
  {
    if |results| > 0 {
      var tail := results[1..];
      assert results == [results[0]] + tail;
      AccumulateAppend([results[0]], tail);
      AccumulateOne(results[0]);
      MergeBatchResultsSpec(tail);
      assert Map(results, (x: BatchResult) => x.errors)[1..] == Map(tail, (x: BatchResult) => x.errors);
      assert Map(results, (x: BatchResult) => x.diffResults.GetOr([]))[1..]
          == Map(tail, (x: BatchResult) => x.diffResults.GetOr([]));
    }
  }

  /** Two results {5, 2, 3} and {5, 1, 0} merge to {10, 3, 3}, keeping the first result's id. */
  lemma MergeExample()
    ensures var r := MergeBatchResults([BatchResult("x", 5, 2, 3, 7, [], None), BatchResult("y", 5, 1, 0, 4, ["e"], None)]);
      r.execId == "x" && r.processedPages == 10 && r.updatedPages == 3 && r.addedPdfs == 3
      && r.duration == 11 && r.errors == ["e"]
  {
    var a := BatchResult("x", 5, 2, 3, 7, [], None);
    var b := BatchResult("y", 5, 1, 0, 4, ["e"], None);
    AccumulateAppend([a], [b]);
    AccumulateOne(a);
    AccumulateOne(b);
    assert [a] + [b] == [a, b];
  }
}
