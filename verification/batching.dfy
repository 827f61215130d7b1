/** Splitting a list into fixed-size batches and calling the server once per batch
    (client-gas/src/c-03-batch.ts and its older copy client-gas/src/batch.ts). */
module Batching {
  import opened Wrappers
  import opened Seqs
  import opened Models

  /** `splitIntoBatches(items, size)`: consecutive slices of `size` items, the last one possibly shorter. */
  function SplitIntoBatches<T>(items: seq<T>, size: nat): (r: seq<seq<T>>)
    requires size >= 1
    ensures forall k :: 0 <= k < |r| ==> 1 <= |r[k]| <= size
    ensures forall k :: 0 <= k < |r| - 1 ==> |r[k]| == size
    decreases |items|
  {
    if |items| == 0 then []
    else if |items| <= size then [items]
    else [items[..size]] + SplitIntoBatches(items[size..], size)
  }

  /** Concatenating the batches in order gives back the input. */
  lemma {:induction false} SplitIntoBatchesFlatten<T>(items: seq<T>, size: nat)
    requires size >= 1
    ensures Flatten(SplitIntoBatches(items, size)) == items
    ensures |items| == 0 <==> SplitIntoBatches(items, size) == []
    decreases |items|
  {
    if |items| > size {
      SplitIntoBatchesFlatten(items[size..], size);
      assert items == items[..size] + items[size..];
    }
  }

  /** There are ceil(n / size) batches: the least `m` with `m·size ≥ n`. */
  lemma {:induction false} SplitIntoBatchesCount<T>(items: seq<T>, size: nat)
    requires size >= 1
    ensures var m := |SplitIntoBatches(items, size)|; (m - 1) * size < |items| <= m * size
    decreases |items|
  {
    if |items| > size {
      SplitIntoBatchesCount(items[size..], size);
      var m := |SplitIntoBatches(items[size..], size)|;
      MulStep(m + 1, size);
      MulStep(m, size);
    }
  }

  lemma MulStep(j: int, k: int)
    ensures j * k == (j - 1) * k + k
  {
  }

  /** Batch `j` is exactly the slice `items[j·size .. min((j+1)·size, n)]`, the slice the source's loop takes
      at `i = j·size`. */
  lemma {:induction false} SplitIntoBatchesSlice<T>(items: seq<T>, size: nat, j: nat)
    requires size >= 1 && j < |SplitIntoBatches(items, size)|
    ensures j * size < |items|
    ensures SplitIntoBatches(items, size)[j] == items[j * size .. Min(j * size + size, |items|)]
    decreases j
  {
    if j > 0 {
      var rest := items[size..];
      SplitIntoBatchesStep(items, size, j);
      SplitIntoBatchesSlice(rest, size, j - 1);
      var lo := (j - 1) * size;
      MulStep(j, size);
      assert j * size == lo + size;
      var hi := Min(lo + size, |rest|);
      assert Min(j * size + size, |items|) == hi + size;
      assert rest[lo..hi] == items[lo + size..hi + size];
    }
  }

  lemma SplitIntoBatchesStep<T>(items: seq<T>, size: nat, j: nat)
    requires size >= 1 && 0 < j < |SplitIntoBatches(items, size)|
    ensures |items| > size
    ensures SplitIntoBatches(items, size)[j] == SplitIntoBatches(items[size..], size)[j - 1]
  {
  }

  /** The source's loop, `for (i = 0; i < n; i += size) batches.push(items.slice(i, i + size))`,
      computes the same partition as the recursive definition. */
  method SplitIntoBatchesLoop<T>(items: seq<T>, size: nat) returns (batches: seq<seq<T>>)
    requires size >= 1
    ensures batches == SplitIntoBatches(items, size)
  {
    batches := [];
    var i := 0;
    while i < |items|
      invariant 0 <= i
      invariant batches + SplitIntoBatches(items[Min(i, |items|)..], size) == SplitIntoBatches(items, size)
      decreases |items| - i
    {
      var tail := items[i..];
      var slice := items[i..Min(i + size, |items|)];
      if |tail| > size {
        assert tail[..size] == slice;
        assert tail[size..] == items[Min(i + size, |items|)..];
      } else {
        assert tail == slice;
        assert items[Min(i + size, |items|)..] == [];
      }
      assert SplitIntoBatches(tail, size) == [slice] + SplitIntoBatches(items[Min(i + size, |items|)..], size);
      batches := batches + [slice];
      i := i + size;
    }
    assert items[Min(i, |items|)..] == [];
  }

  /** `executeSingleBatch`: the server's result, or, when the call throws, a result with zero counts,
      zero duration and exactly one error carrying `String(error)`. The zero duration is the
      correction recorded for the error result of c-03-batch.ts; see `ExecuteSingleBatchAsWritten`. */
  function ExecuteSingleBatch(server: seq<Page> -> Reply, pages: seq<Page>): (r: BatchResult)
    ensures server(pages).Returned? ==> r == server(pages).result
    ensures server(pages).Threw? ==>
      r == BatchResult("error", 0, 0, 0, 0, [ErrorText(server(pages).error)], None)
  {
    match server(pages)
    case Returned(res) => res
    case Threw(e) => BatchResult("error", 0, 0, 0, 0, [ErrorText(e)], None)
  }

  /** `executeSingleBatch` of batch.ts: the same, except that the error entry is the thrown
      error itself, whose `message` is read later. */
  function ExecuteSingleBatchLegacy(server: seq<Page> -> Reply, pages: seq<Page>): (r: BatchResult)
    ensures server(pages).Returned? ==> r == server(pages).result
    ensures server(pages).Threw? ==>
      r == BatchResult("error", 0, 0, 0, 0, [server(pages).error.message], None)
  {
    match server(pages)
    case Returned(res) => res
    case Threw(e) => BatchResult("error", 0, 0, 0, 0, [e.message], None)
  }

  /** The batches of `cs`, each mapped through `run`. */
  function MapChunks<A, B>(cs: seq<seq<A>>, run: A -> B): (r: seq<seq<B>>)
    ensures |r| == |cs|
  {
    if |cs| == 0 then [] else [Map(cs[0], run)] + MapChunks(cs[1..], run)
  }

  lemma {:induction false} FlattenMapChunks<A, B>(cs: seq<seq<A>>, run: A -> B)
    ensures Flatten(MapChunks(cs, run)) == Map(Flatten(cs), run)
  {
    if |cs| > 0 {
      FlattenMapChunks(cs[1..], run);
      MapAppend(cs[0], Flatten(cs[1..]), run);
    }
  }

  /** `executeBatchesInParallel`: the batches go out in waves of `maxConcurrent`, each wave awaited as a
      whole; the results come back one per batch, in input order. Waves are modelled one after another. */
  function ExecuteBatchesInParallel(batches: seq<seq<Page>>, maxConcurrent: nat, run: seq<Page> -> BatchResult)
    : (r: seq<BatchResult>)
    requires maxConcurrent >= 1
    ensures |r| == |batches|
    ensures forall k :: 0 <= k < |batches| ==> r[k] == run(batches[k])
  {
    var waves := SplitIntoBatches(batches, maxConcurrent);
    SplitIntoBatchesFlatten(batches, maxConcurrent);
    FlattenMapChunks(waves, run);
    Flatten(MapChunks(waves, run))
  }

  /** A JavaScript number as far as `+=` on possibly-missing fields is concerned. */
  datatype Num = Finite(v: int) | NaN

  function AddNum(a: Num, b: Num): Num {
    if a.Finite? && b.Finite? then Finite(a.v + b.v) else NaN
  }

  /** A batch result as c-03-batch.ts builds it: the error result has no `duration` field. */
  datatype LooseResult = LooseResult(result: BatchResult, duration: Option<int>)

  /** `executeSingleBatch` of c-03-batch.ts as written: its error result omits `duration`. */
  function ExecuteSingleBatchAsWritten(server: seq<Page> -> Reply, pages: seq<Page>): (r: LooseResult)
    ensures server(pages).Threw? <==> r.duration.None?
    ensures server(pages).Returned? ==> r.duration == Some(server(pages).result.duration)
    ensures r.result.errors == ExecuteSingleBatch(server, pages).errors
  {
    match server(pages)
    case Returned(res) => LooseResult(res, Some(res.duration))
    case Threw(e) => LooseResult(BatchResult("error", 0, 0, 0, 0, [ErrorText(e)], None), None)
  }

  /** `duration += result.duration` over the results, starting from 0, reading a missing field as `undefined`. */
  function SumDurationAsWritten(rs: seq<LooseResult>): Num {
    if |rs| == 0 then Finite(0)
    else AddNum(SumDurationAsWritten(rs[..|rs| - 1]),
                match rs[|rs| - 1].duration case Some(d) => Finite(d) case None => NaN)
  }

  /** Once one call has thrown, the merged duration is `NaN`, whatever the other results say:
      the group total logged for the whole group is lost. */
  lemma {:induction false} ThrownBatchPoisonsDuration(server: seq<Page> -> Reply, batches: seq<seq<Page>>, k: nat)
    requires k < |batches| && server(batches[k]).Threw?
    ensures SumDurationAsWritten(Map(batches, p => ExecuteSingleBatchAsWritten(server, p))) == NaN
  {
    var rs := Map(batches, p => ExecuteSingleBatchAsWritten(server, p));
    SumNaNFrom(rs, k);
  }

  lemma {:induction false} SumNaNFrom(rs: seq<LooseResult>, k: nat)
    requires k < |rs| && rs[k].duration.None?
    ensures SumDurationAsWritten(rs) == NaN
    decreases |rs|
  {
    if k < |rs| - 1 {
      SumNaNFrom(rs[..|rs| - 1], k);
    }
  }

  /** The concrete case: one page, a server that throws. */
  lemma ThrownBatchExample()
    ensures SumDurationAsWritten([ExecuteSingleBatchAsWritten(_ => Threw(Plain("timeout")), [])]) == NaN
    ensures ExecuteSingleBatch(_ => Threw(Plain("timeout")), []).duration == 0
  {
  }
}
