/** The browser extension's serialisation of a page's PDF links as tab-separated lines, pasted into
    the client's `Current` sheet: one line per link, `url \t hash \t text \t pdfUrl`. */
module Formatter {
  import opened Seqs
  import opened Models

  /** The page record the formatter reads: URL, content hash and the PDF links with their texts. */
  datatype PageLinks = PageLinks(url: string, hash: string, pdfLinks: seq<PdfLink>)

  /** `.replace(/\t/g, ' ').replace(/\n/g, ' ').replace(/\r/g, ' ')` on one character. */
  function EscapeChar(c: char): char {
    if c == '\t' || c == '\n' || c == '\r' then ' ' else c
  }

  /** The link text with every tab, line feed and carriage return replaced by a space. */
  function EscapeText(text: string): (r: string)
    ensures |r| == |text|
    ensures forall k :: 0 <= k < |r| ==> r[k] == EscapeChar(text[k])
    ensures '\t' !in r && '\n' !in r && '\r' !in r
  {
    Map(text, EscapeChar)
  }

  /** The line of one link. */
  function FormatLine(url: string, hash: string, link: PdfLink): string {
    Join([url, hash, EscapeText(link.text), link.url], '\t')
  }

  /** `formatAsTsv`: a page without links is the single line `url \t hash \t \t`; otherwise one line
      per link, in order, joined by line feeds. */
  function FormatAsTsv(page: PageLinks): string {
    if |page.pdfLinks| == 0 then Join([page.url, page.hash, "", ""], '\t')
    else Join(Map(page.pdfLinks, (l: PdfLink) => FormatLine(page.url, page.hash, l)), '\n')
  }

  /** `formatMultipleAsTsv`: the pages' texts joined by line feeds. */
  function FormatMultipleAsTsv(pages: seq<PageLinks>): string {
    Join(Map(pages, FormatAsTsv), '\n')
  }

  /** Neither a tab nor a line break. */
  predicate Plain(s: string) {
    '\t' !in s && '\n' !in s && '\r' !in s
  }

  /** URL, hash and every PDF URL free of tabs and line breaks. */
  predicate PlainPage(page: PageLinks) {
    Plain(page.url) && Plain(page.hash) && forall k :: 0 <= k < |page.pdfLinks| ==> Plain(page.pdfLinks[k].url)
  }

  /** The four fields a line carries for a link. */
  function Fields(page: PageLinks, link: PdfLink): seq<string> {
    [page.url, page.hash, EscapeText(link.text), link.url]
  }

  /** A page without links is exactly `url \t hash \t \t`. */
  lemma NoLinksLine(page: PageLinks)
    requires |page.pdfLinks| == 0
    ensures FormatAsTsv(page) == page.url + "\t" + page.hash + "\t\t"
  {
    var parts := [page.url, page.hash, "", ""];
    assert Join(parts[2..], '\t') == "\t";
    assert Join(parts[1..], '\t') == page.hash + "\t\t";
  }

  /** A line of a plain page contains no line break, so splitting the text on line feeds recovers the
      lines. */
  lemma LineHasNoBreak(page: PageLinks, link: PdfLink)
    requires Plain(page.url) && Plain(page.hash) && Plain(link.url)
    ensures '\n' !in FormatLine(page.url, page.hash, link)
  {
    var parts := Fields(page, link);
    assert forall k :: 0 <= k < |parts| ==> '\n' !in parts[k];
    JoinAvoids(parts, '\t', '\n');
  }

  /** Round trip of the tab-separated form: for a page whose URL, hash and PDF URLs carry no tab or line
      break, splitting the text on line feeds gives one line per link (in order), and splitting line
      `i` on tabs gives exactly the four fields of link `i`. */
  lemma FormatAsTsvSplits(page: PageLinks)
    requires PlainPage(page)
    requires |page.pdfLinks| > 0
    ensures |Split(FormatAsTsv(page), '\n')| == |page.pdfLinks|
    ensures forall i :: 0 <= i < |page.pdfLinks| ==>
      Split(Split(FormatAsTsv(page), '\n')[i], '\t') == Fields(page, page.pdfLinks[i])
  {
    var lines := Map(page.pdfLinks, (l: PdfLink) => FormatLine(page.url, page.hash, l));
    forall k | 0 <= k < |lines|
      ensures '\n' !in lines[k]
    {
      LineHasNoBreak(page, page.pdfLinks[k]);
    }
    SplitJoin(lines, '\n');
    forall i | 0 <= i < |page.pdfLinks|
      ensures Split(lines[i], '\t') == Fields(page, page.pdfLinks[i])
    {
      SplitJoin(Fields(page, page.pdfLinks[i]), '\t');
    }
  }

  /** The same for a page without links: one line of four fields, the last two empty. */
  lemma NoLinksSplits(page: PageLinks)
    requires Plain(page.url) && Plain(page.hash)
    requires |page.pdfLinks| == 0
    ensures Split(FormatAsTsv(page), '\n') == [FormatAsTsv(page)]
    ensures Split(FormatAsTsv(page), '\t') == [page.url, page.hash, "", ""]
  {
    var parts := [page.url, page.hash, "", ""];
    SplitJoin(parts, '\t');
    assert forall k :: 0 <= k < |parts| ==> '\n' !in parts[k];
    JoinAvoids(parts, '\t', '\n');
    SplitPlain(FormatAsTsv(page), '\n');
  }

  /** The lines a page's text splits into. */
  function LinesOf(page: PageLinks): seq<string> {
    Split(FormatAsTsv(page), '\n')
  }

  /** Several pages: splitting on line feeds gives each page's lines, page after page. */
  lemma FormatMultipleSplits(pages: seq<PageLinks>)
    requires |pages| > 0
    ensures Split(FormatMultipleAsTsv(pages), '\n') == Flatten(Map(pages, LinesOf))
  {
    var texts := Map(pages, FormatAsTsv);
    SplitJoinFlatten(texts, '\n');
    assert Map(texts, (p: string) => Split(p, '\n')) == Map(pages, LinesOf);
  }
}
