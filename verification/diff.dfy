/** The server's diff of one page against the archive, and the totals over a batch of diffs. */
module Diff {
  import opened Seqs
  import opened Models
  import Archive

  function PdfUrlOf(rec: Archive.StoredPdf): string {
    rec.pdfUrl
  }

  /** `hasPageChanged`: not implemented in the source, where it answers true for every page. */
  predicate HasPageChanged(page: Page, archived: seq<Archive.StoredPdf>) {
    true
  }

  /** `calculateDiff`, given the page's archived records (`getPdfsByPage(page.url)`). The archived URLs
      form a set whatever their status, so a record marked removed still counts as known. Added URLs are
      the page's URLs outside that set and removed URLs the archived ones the page no longer lists; both
      lists are duplicate-free and disjoint. */
  function CalculateDiff(page: Page, archived: seq<Archive.StoredPdf>): (r: DiffResult)
    ensures r.pageUrl == page.url
    ensures forall u :: u in r.addedPdfUrls <==> u in page.pdfUrls && u !in Map(archived, PdfUrlOf)
    ensures forall u :: u in r.removedPdfUrls <==> u in Map(archived, PdfUrlOf) && u !in page.pdfUrls
    ensures NoDups(r.addedPdfUrls) && NoDups(r.removedPdfUrls)
    ensures forall u :: !(u in r.addedPdfUrls && u in r.removedPdfUrls)
    ensures r.pdfUpdated <==> |r.addedPdfUrls| > 0 || |r.removedPdfUrls| > 0
    ensures r.addedCount == |r.addedPdfUrls|
    ensures r.pageUpdated <==> page.hash != ""
  {
    var existing := Dedup(Map(archived, PdfUrlOf));
    var current := Dedup(page.pdfUrls);
    var added := Filter(current, (u: string) => u !in existing);
    var removed := Filter(existing, (u: string) => u !in current);
    FilterNoDups(current, (u: string) => u !in existing);
    FilterNoDups(existing, (u: string) => u !in current);
    DiffResult(page.url, page.hash != "" && HasPageChanged(page, archived), |added| > 0 || |removed| > 0,
               added, removed, |added|)
  }

  /** The added URLs keep the order in which they first occur on the page, and the removed URLs the order
      in which they first occur in the archive. */
  lemma DiffOrder(page: Page, archived: seq<Archive.StoredPdf>)
    ensures OrderedIn(CalculateDiff(page, archived).addedPdfUrls, page.pdfUrls)
    ensures OrderedIn(CalculateDiff(page, archived).removedPdfUrls, Map(archived, PdfUrlOf))
  {
    var existing := Dedup(Map(archived, PdfUrlOf));
    var current := Dedup(page.pdfUrls);
    DedupOrder(page.pdfUrls);
    DedupOrder(Map(archived, PdfUrlOf));
    FilterOrdered(current, page.pdfUrls, (u: string) => u !in existing);
    FilterOrdered(existing, Map(archived, PdfUrlOf), (u: string) => u !in current);
  }

  /** The PDF flag is down exactly when the page lists the same set of URLs as the archive. */
  lemma UnchangedIffSameSet(page: Page, archived: seq<Archive.StoredPdf>)
    ensures !CalculateDiff(page, archived).pdfUpdated
        <==> (forall u :: u in page.pdfUrls <==> u in Map(archived, PdfUrlOf))
  {
    var r := CalculateDiff(page, archived);
    SameSetWhenEmpty(page.pdfUrls, Map(archived, PdfUrlOf), r.addedPdfUrls, r.removedPdfUrls);
  }

  lemma SameSetWhenEmpty(current: seq<string>, known: seq<string>, added: seq<string>, removed: seq<string>)
    requires forall u :: u in added <==> u in current && u !in known
    requires forall u :: u in removed <==> u in known && u !in current
    ensures (|added| == 0 && |removed| == 0) <==> (forall u :: u in current <==> u in known)
  {
    if !(forall u :: u in current <==> u in known) {
      var u :| !(u in current <==> u in known);
      assert u in added || u in removed;
    }
    if |added| > 0 {
      assert added[0] in added;
    }
    if |removed| > 0 {
      assert removed[0] in removed;
    }
  }

  /** The totals `mergeDiffResults` returns. */
  datatype Stats = Stats(totalProcessed: int, totalUpdated: int, totalPdfsAdded: int)

  predicate Changed(r: DiffResult) {
    r.pageUpdated || r.pdfUpdated
  }

  function AddedCountOf(r: DiffResult): int {
    r.addedCount
  }

  /** `mergeDiffResults`: the number of results, the number with either flag up, and the sum of the
      added counts. */
  method MergeDiffResults(results: seq<DiffResult>) returns (s: Stats)
    ensures s.totalProcessed == |results|
    ensures s.totalUpdated == CountIf(results, Changed)
    ensures s.totalPdfsAdded == SumOf(results, AddedCountOf)
    ensures 0 <= s.totalUpdated <= s.totalProcessed
  {
    var totalUpdated := 0;
    var totalPdfsAdded := 0;
    var i := 0;
    while i < |results|
      invariant 0 <= i <= |results|
      invariant totalUpdated == CountIf(results[..i], Changed)
      invariant totalPdfsAdded == SumOf(results[..i], AddedCountOf)
    {
      var result := results[i];
      assert results[..i + 1] == results[..i] + [result];
      CountIfSnoc(results[..i], result, Changed);
      SumOfAppend(results[..i], [result], AddedCountOf);
      if result.pageUpdated || result.pdfUpdated {
        totalUpdated := totalUpdated + 1;
      }
      totalPdfsAdded := totalPdfsAdded + result.addedCount;
      i := i + 1;
    }
    assert results[..i] == results;
    s := Stats(|results|, totalUpdated, totalPdfsAdded);
  }

  /** For diffs `calculateDiff` produced, the added total is the number of added URLs over the batch. */
  lemma {:induction false} AddedTotalCountsUrls(results: seq<DiffResult>)
    requires forall k :: 0 <= k < |results| ==> results[k].addedCount == |results[k].addedPdfUrls|
    ensures SumOf(results, AddedCountOf) == |Flatten(Map(results, (r: DiffResult) => r.addedPdfUrls))|
  {
    if |results| > 0 {
      AddedTotalCountsUrls(results[1..]);
      assert Map(results, (r: DiffResult) => r.addedPdfUrls)[1..] == Map(results[1..], (r: DiffResult) => r.addedPdfUrls);
    }
  }
}
