/** The browser extension's page fingerprint and PDF link collection.
    The fingerprint is a 32-bit rolling hash of the page's text (its UTF-16 code units, as
    `charCodeAt` reads them) written as the absolute value in base 36. */
module Extractor {
  import opened Seqs

  /** A UTF-16 code unit. */
  newtype CodeUnit = x: int | 0 <= x < 0x1_0000

  const TwoTo31: int := 0x8000_0000
  const TwoTo32: int := 0x1_0000_0000

  predicate IsInt32(x: int) {
    -TwoTo31 <= x < TwoTo31
  }

  /** ECMAScript ToInt32: the 32-bit two's-complement value congruent to `x`, which is what `<<` and `&`
      produce from their operands. */
  function ToInt32(x: int): (r: int)
    ensures IsInt32(r)
    ensures (x - r) % TwoTo32 == 0
  {
    var m := x % TwoTo32;
    if m >= TwoTo31 then m - TwoTo32 else m
  }

  /** Congruent numbers have the same 32-bit value. */
  lemma ToInt32Congruent(a: int, b: int)
    requires (a - b) % TwoTo32 == 0
    ensures ToInt32(a) == ToInt32(b)
  {
    var q := (a - b) / TwoTo32;
    assert a == b + q * TwoTo32;
    ModMultiple(b, q);
  }

  lemma ModMultiple(b: int, q: int)
    ensures (b + q * TwoTo32) % TwoTo32 == b % TwoTo32
  {
  }

  /** One step of the loop as written: `hash = ((hash << 5) - hash) + char; hash = hash & hash;`.
      `hash << 5` is ToInt32(32·hash); the sum is an exact double, and `hash & hash` is its ToInt32. */
  function HashStepAsWritten(h: int, c: CodeUnit): int {
    ToInt32(ToInt32(h * 32) - h + c as int)
  }

  /** The rolling hash `h := ToInt32(31·h + c)` over the code units, from 0. */
  function Fold(text: seq<CodeUnit>): (h: int)
    ensures IsInt32(h)
  {
    if |text| == 0 then 0 else ToInt32(31 * Fold(text[..|text| - 1]) + text[|text| - 1] as int)
  }

  /** The shift-and-subtract step is the multiply-by-31 step reduced to 32 bits. */
  lemma HashStepIsTimes31(h: int, c: CodeUnit)
    ensures HashStepAsWritten(h, c) == ToInt32(31 * h + c as int)
  {
    var s := ToInt32(h * 32);
    assert (h * 32 - s) % TwoTo32 == 0;
    assert (s - h + c as int) - (31 * h + c as int) == s - h * 32;
    NegMod(h * 32 - s);
    ToInt32Congruent(s - h + c as int, 31 * h + c as int);
  }

  lemma NegMod(x: int)
    requires x % TwoTo32 == 0
    ensures (-x) % TwoTo32 == 0
  {
    var q := x / TwoTo32;
    assert x == q * TwoTo32;
    assert -x == (-q) * TwoTo32;
  }

  /** One base-36 digit. */
  function Digit36(d: nat): (c: char)
    requires d < 36
    ensures IsDigit36(c)
  {
    if d < 10 then ('0' as int + d) as char else ('a' as int + d - 10) as char
  }

  predicate IsDigit36(c: char) {
    '0' <= c <= '9' || 'a' <= c <= 'z'
  }

  function DigitValue(c: char): nat {
    if '0' <= c <= '9' then c as int - '0' as int
    else if 'a' <= c <= 'z' then c as int - 'a' as int + 10
    else 0
  }

  /** `n.toString(36)` for a natural number. */
  function ToBase36(n: nat): (r: string)
    ensures |r| >= 1
    ensures forall k :: 0 <= k < |r| ==> IsDigit36(r[k])
    ensures |r| > 1 ==> r[0] != '0'
    decreases n
  {
    if n < 36 then [Digit36(n)] else ToBase36(n / 36) + [Digit36(n % 36)]
  }

  /** Reading base-36 digits back. */
  function FromBase36(s: string): nat {
    if |s| == 0 then 0 else FromBase36(s[..|s| - 1]) * 36 + DigitValue(s[|s| - 1])
  }

  /** The base-36 text denotes the number it was made from. */
  lemma {:induction false} Base36RoundTrip(n: nat)
    ensures FromBase36(ToBase36(n)) == n
    decreases n
  {
    var r := ToBase36(n);
    if n >= 36 {
      Base36RoundTrip(n / 36);
      assert r[..|r| - 1] == ToBase36(n / 36);
    }
  }

  function Abs(x: int): nat {
    if x < 0 then -x else x
  }

  /** `simpleHash`, written as the loop of the source. The result is the base-36 form of the absolute
      value of the rolling hash; the accumulator stays within 32 bits throughout, and an empty text
      hashes to `"0"`. */
  method SimpleHash(text: seq<CodeUnit>) returns (r: string)
    ensures r == ToBase36(Abs(Fold(text)))
    ensures FromBase36(r) == Abs(Fold(text)) && Abs(Fold(text)) <= TwoTo31
    ensures forall k :: 0 <= k < |r| ==> IsDigit36(r[k])
    ensures |text| == 0 ==> r == "0"
  {
    var hash := 0;
    var i := 0;
    while i < |text|
      invariant 0 <= i <= |text|
      invariant hash == Fold(text[..i])
      invariant IsInt32(hash)
    {
      HashStepIsTimes31(hash, text[i]);
      assert text[..i + 1][..i] == text[..i];
      hash := HashStepAsWritten(hash, text[i]);
      i := i + 1;
    }
    assert text[..i] == text;
    Base36RoundTrip(Abs(hash));
    r := ToBase36(Abs(hash));
  }

  /** Appending a code unit advances the hash by one step: the hash of a text is determined by its
      code units read left to right. */
  lemma FoldAppend(a: seq<CodeUnit>, c: CodeUnit)
    ensures Fold(a + [c]) == ToInt32(31 * Fold(a) + c as int)
  {
    assert (a + [c])[..|a|] == a;
  }

  /** An embedded source counts when it is non-empty and a PDF target (`src && isPdfUrl(src)`). */
  function EmbedFilter(isPdf: string -> bool): string -> bool {
    (s: string) => s != "" && isPdf(s)
  }

  /** The resolved URLs of the PDF targets, in document order: links first, then embeds. */
  function Candidates(hrefs: seq<string>, srcs: seq<string>, isPdf: string -> bool, resolve: string -> string): seq<string> {
    Map(Filter(hrefs, isPdf), resolve) + Map(Filter(srcs, EmbedFilter(isPdf)), resolve)
  }

  /** The kept targets of `xs`, resolved, in order. */
  function Kept(xs: seq<string>, keep: string -> bool, resolve: string -> string): seq<string> {
    if |xs| == 0 then []
    else
      var x := xs[|xs| - 1];
      Kept(xs[..|xs| - 1], keep, resolve) + (if keep(x) then [resolve(x)] else [])
  }

  lemma {:induction false} KeptIsMapFilter(xs: seq<string>, keep: string -> bool, resolve: string -> string)
    ensures Kept(xs, keep, resolve) == Map(Filter(xs, keep), resolve)
  {
    if |xs| > 0 {
      var init := xs[..|xs| - 1];
      var x := xs[|xs| - 1];
      KeptIsMapFilter(init, keep, resolve);
      assert xs == init + [x];
      FilterAppend(init, [x], keep);
      MapAppend(Filter(init, keep), Filter([x], keep), resolve);
    }
  }

  /** `if (!acc.includes(u)) acc.push(u)` keeps `acc` the de-duplicated candidates. */
  lemma DedupPush(s: seq<string>, u: string)
    ensures Dedup(s + [u]) == if u in Dedup(s) then Dedup(s) else Dedup(s) + [u]
  {
    assert (s + [u])[..|s|] == s;
  }

  /** One push step keeps the accumulator the de-duplicated candidates seen so far. */
  lemma PushStep(acc: seq<string>, before: seq<string>, xs: seq<string>, i: nat,
                 keep: string -> bool, resolve: string -> string)
    requires i < |xs|
    requires acc == Dedup(before + Kept(xs[..i], keep, resolve))
    ensures (if keep(xs[i]) && resolve(xs[i]) !in acc then acc + [resolve(xs[i])] else acc)
         == Dedup(before + Kept(xs[..i + 1], keep, resolve))
  {
    var prefix, x := xs[..i], xs[i];
    assert xs[..i + 1] == prefix + [x];
    var done := Kept(prefix, keep, resolve);
    assert (prefix + [x])[..|prefix|] == prefix;
    assert Kept(prefix + [x], keep, resolve) == done + (if keep(x) then [resolve(x)] else []);
    if keep(x) {
      var u := resolve(x);
      DedupPush(before + done, u);
      assert before + Kept(prefix + [x], keep, resolve) == (before + done) + [u];
    } else {
      assert before + Kept(prefix + [x], keep, resolve) == before + done;
    }
  }

  /** One `forEach` of `extractPdfUrls`: every target `x` with `keep(x)` is resolved and pushed unless
      already present. Starting from the de-duplication of `before`, it ends with the de-duplication of
      `before` followed by the kept, resolved targets. */
  method PushAll(acc0: seq<string>, before: seq<string>, xs: seq<string>, keep: string -> bool, resolve: string -> string)
    returns (acc: seq<string>)
    requires acc0 == Dedup(before)
    ensures acc == Dedup(before + Kept(xs, keep, resolve))
  {
    acc := acc0;
    var i := 0;
    assert before + Kept(xs[..0], keep, resolve) == before;
    while i < |xs|
      invariant 0 <= i <= |xs|
      invariant acc == Dedup(before + Kept(xs[..i], keep, resolve))
    {
      var x := xs[i];
      PushStep(acc, before, xs, i, keep, resolve);
      if keep(x) {
        var u := resolve(x);
        if u !in acc {
          acc := acc + [u];
        }
      }
      i := i + 1;
    }
    assert xs[..i] == xs;
  }

  /** `extractPdfUrls`: link targets first, then embedded sources, each PDF target resolved to an
      absolute URL and pushed unless already present. Which targets are PDF links (`isPdfUrl`) and how a
      target is made absolute (`new URL`) are given. The result holds every candidate once, in
      first-occurrence order. */
  method ExtractPdfUrls(hrefs: seq<string>, srcs: seq<string>, isPdf: string -> bool, resolve: string -> string)
    returns (urls: seq<string>)
    ensures urls == Dedup(Candidates(hrefs, srcs, isPdf, resolve))
    ensures NoDups(urls)
    ensures forall u :: u in urls <==> u in Candidates(hrefs, srcs, isPdf, resolve)
  {
    assert Dedup<string>([]) == [];
    urls := PushAll([], [], hrefs, isPdf, resolve);
    var links := Kept(hrefs, isPdf, resolve);
    assert [] + links == links;
    urls := PushAll(urls, links, srcs, EmbedFilter(isPdf), resolve);
    KeptIsMapFilter(hrefs, isPdf, resolve);
    KeptIsMapFilter(srcs, EmbedFilter(isPdf), resolve);
  }
}
