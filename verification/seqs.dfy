/** Sequence helpers shared by the client, server and extension models:
    insertion-ordered de-duplication (JavaScript's `Set` / `includes`-guarded push),
    flattening, `join` / `split` on a one-character separator and `substring(0, n)`. */
module Seqs {

  /** No element occurs twice. */
  predicate NoDups<T(==)>(s: seq<T>) {
    forall i, j :: 0 <= i < j < |s| ==> s[i] != s[j]
  }

  /** Index of the first occurrence of `x` in `s`. */
  function FirstIndex<T(==)>(s: seq<T>, x: T): (k: nat)
    requires x in s
    ensures k < |s| && s[k] == x && x !in s[..k]
  {
    if s[0] == x then 0 else 1 + FirstIndex(s[1..], x)
  }

  lemma {:induction false} FirstIndexPrefix<T>(s: seq<T>, n: nat, x: T)
    requires n <= |s| && x in s[..n]
    ensures FirstIndex(s, x) == FirstIndex(s[..n], x)
  {
    if s[0] != x {
      assert s[1..][..n - 1] == s[..n][1..];
      FirstIndexPrefix(s[1..], n - 1, x);
    }
  }

  /** The first occurrence is characterised by position: an occurrence with no earlier one. */
  lemma {:induction false} FirstIndexAt<T>(s: seq<T>, x: T, p: nat)
    requires p < |s| && s[p] == x && x !in s[..p]
    ensures FirstIndex(s, x) == p
  {
    if p > 0 {
      assert s[0] != x by { assert s[..p][0] == s[0]; }
      assert s[1..][..p - 1] == s[..p][1..];
      FirstIndexAt(s[1..], x, p - 1);
    }
  }

  /** The accumulation `for (x of s) if (!acc.includes(x)) acc.push(x)`, which is also the
      iteration order of `new Set(s)`: every element once. */
  function Dedup<T(==,!new)>(s: seq<T>): (r: seq<T>)
    ensures NoDups(r)
    ensures forall x :: x in r <==> x in s
    ensures |r| <= |s|
  {
    if |s| == 0 then []
    else
      var init := s[..|s| - 1];
      var d := Dedup(init);
      if s[|s| - 1] in d then d else d + [s[|s| - 1]]
  }

  /** `Dedup` keeps first-occurrence order. */
  lemma {:induction false} DedupOrder<T(!new)>(s: seq<T>)
    ensures forall i, j :: 0 <= i < j < |Dedup(s)| ==> FirstIndex(s, Dedup(s)[i]) < FirstIndex(s, Dedup(s)[j])
  {
    if |s| > 0 {
      var init := s[..|s| - 1];
      DedupOrder(init);
      DedupStep(s, Dedup(init));
    }
  }

  /** The step case of `Dedup`'s contract, one element appended to the prefix. */
  lemma DedupStep<T>(s: seq<T>, d: seq<T>)
    requires |s| > 0
    requires forall i :: 0 <= i < |d| ==> d[i] in s[..|s| - 1]
    requires forall x :: x in s[..|s| - 1] ==> x in d
    requires forall i, j :: 0 <= i < j < |d| ==> FirstIndex(s[..|s| - 1], d[i]) < FirstIndex(s[..|s| - 1], d[j])
    ensures forall i, j :: 0 <= i < j < |d| ==> FirstIndex(s, d[i]) < FirstIndex(s, d[j])
    ensures s[|s| - 1] !in d ==> forall i :: 0 <= i < |d| ==> FirstIndex(s, d[i]) < FirstIndex(s, s[|s| - 1])
  {
    var n := |s| - 1;
    forall i | 0 <= i < |d|
      ensures FirstIndex(s, d[i]) == FirstIndex(s[..n], d[i])
    {
      FirstIndexPrefix(s, n, d[i]);
    }
    if s[n] !in d {
      FirstIndexAt(s, s[n], n);
    }
  }

  /** `Dedup` of a sequence extended by one element. */
  lemma DedupSnoc<T(!new)>(s: seq<T>)
    requires |s| > 0
    ensures s[|s| - 1] in s[..|s| - 1] ==> Dedup(s) == Dedup(s[..|s| - 1])
    ensures s[|s| - 1] !in s[..|s| - 1] ==> Dedup(s) == Dedup(s[..|s| - 1]) + [s[|s| - 1]]
  {
  }

  lemma MapSnoc<A, B>(s: seq<A>, f: A -> B)
    requires |s| > 0
    ensures Map(s, f)[..|s| - 1] == Map(s[..|s| - 1], f) && Map(s, f)[|s| - 1] == f(s[|s| - 1])
  {
  }

  /** Concatenation of a sequence of sequences, in order. */
  function Flatten<T>(ss: seq<seq<T>>): (r: seq<T>)
    ensures |ss| == 0 ==> r == []
  {
    if |ss| == 0 then [] else ss[0] + Flatten(ss[1..])
  }

  lemma {:induction false} FlattenAppend<T>(a: seq<seq<T>>, b: seq<seq<T>>)
    ensures Flatten(a + b) == Flatten(a) + Flatten(b)
  {
    if |a| == 0 {
      assert a + b == b;
    } else {
      assert (a + b)[1..] == a[1..] + b;
      FlattenAppend(a[1..], b);
    }
  }

  /** `s.map(f)`. */
  function Map<A, B>(s: seq<A>, f: A -> B): (r: seq<B>)
    ensures |r| == |s|
    ensures forall k :: 0 <= k < |s| ==> r[k] == f(s[k])
  {
    if |s| == 0 then [] else [f(s[0])] + Map(s[1..], f)
  }

  lemma MapAppend<A, B>(a: seq<A>, b: seq<A>, f: A -> B)
    ensures Map(a + b, f) == Map(a, f) + Map(b, f)
  {
    assert forall k :: 0 <= k < |a + b| ==> Map(a + b, f)[k] == (Map(a, f) + Map(b, f))[k];
  }

  /** Sum of `f` over `s`. */
  function SumOf<T>(s: seq<T>, f: T -> int): int {
    if |s| == 0 then 0 else f(s[0]) + SumOf(s[1..], f)
  }

  lemma {:induction false} SumOfAppend<T>(a: seq<T>, b: seq<T>, f: T -> int)
    ensures SumOf(a + b, f) == SumOf(a, f) + SumOf(b, f)
  {
    if |a| == 0 {
      assert a + b == b;
    } else {
      assert (a + b)[1..] == a[1..] + b;
      SumOfAppend(a[1..], b, f);
    }
  }

  /** Replacing one element changes the sum by the difference. */
  lemma {:induction false} SumOfUpdate<T>(s: seq<T>, p: nat, x: T, f: T -> int)
    requires p < |s|
    ensures SumOf(s[p := x], f) == SumOf(s, f) - f(s[p]) + f(x)
  {
    if p > 0 {
      assert s[p := x][1..] == s[1..][p - 1 := x];
      SumOfUpdate(s[1..], p - 1, x, f);
    }
  }

  /** `s.substring(0, n)` for a non-negative `n`. */
  function Truncate(s: string, n: nat): (r: string)
    ensures |r| <= n && r <= s
    ensures |s| <= n ==> r == s
  {
    if |s| <= n then s else s[..n]
  }

  /** `parts.join(sep)` for a one-character separator. */
  function Join(parts: seq<string>, sep: char): string {
    if |parts| == 0 then ""
    else if |parts| == 1 then parts[0]
    else parts[0] + [sep] + Join(parts[1..], sep)
  }

  /** `s.split(sep)` for a one-character separator: the maximal separator-free pieces, in order. */
  function Split(s: string, sep: char): (r: seq<string>)
    ensures |r| >= 1
  {
    if |s| == 0 then [""]
    else if s[0] == sep then [""] + Split(s[1..], sep)
    else
      var r := Split(s[1..], sep);
      [[s[0]] + r[0]] + r[1..]
  }

  /** A separator-free string is one piece. */
  lemma {:induction false} SplitPlain(s: string, sep: char)
    requires sep !in s
    ensures Split(s, sep) == [s]
  {
    if |s| > 0 {
      SplitPlain(s[1..], sep);
      assert [s[0]] + s[1..] == s;
    }
  }

  /** Splitting text around one separator splits each side separately. */
  lemma {:induction false} SplitConcat(a: string, b: string, sep: char)
    ensures Split(a + [sep] + b, sep) == Split(a, sep) + Split(b, sep)
  {
    var s := a + [sep] + b;
    if |a| == 0 {
      assert s == [sep] + b && s[1..] == b;
    } else {
      assert s[0] == a[0] && s[1..] == a[1..] + [sep] + b;
      SplitConcat(a[1..], b, sep);
    }
  }

  /** Splitting a joined list gives the list back when no part contains the separator:
      the round trip the tab-separated format relies on. */
  lemma {:induction false} SplitJoin(parts: seq<string>, sep: char)
    requires |parts| >= 1
    requires forall k :: 0 <= k < |parts| ==> sep !in parts[k]
    ensures Split(Join(parts, sep), sep) == parts
  {
    SplitPlain(parts[0], sep);
    if |parts| > 1 {
      SplitConcat(parts[0], Join(parts[1..], sep), sep);
      SplitJoin(parts[1..], sep);
    }
  }

  /** Splitting joined parts splits every part: the pieces of all parts, in order. */
  lemma {:induction false} SplitJoinFlatten(parts: seq<string>, sep: char)
    requires |parts| >= 1
    ensures Split(Join(parts, sep), sep) == Flatten(Map(parts, (p: string) => Split(p, sep)))
  {
    if |parts| > 1 {
      SplitConcat(parts[0], Join(parts[1..], sep), sep);
      SplitJoinFlatten(parts[1..], sep);
      assert Map(parts, (p: string) => Split(p, sep))[1..] == Map(parts[1..], (p: string) => Split(p, sep));
    }
  }

  /** A joined string contains the separator exactly where the parts meet: it is separator-free
      iff there is at most one part and that part is separator-free. */
  lemma {:induction false} JoinContains(parts: seq<string>, sep: char, c: char)
    requires c != sep
    ensures c in Join(parts, sep) <==> exists k :: 0 <= k < |parts| && c in parts[k]
  {
    if |parts| <= 1 {
    } else {
      JoinContains(parts[1..], sep, c);
      var j := Join(parts, sep);
      assert j == parts[0] + [sep] + Join(parts[1..], sep);
      if c in j {
        if c in parts[0] {
        } else {
          assert c in Join(parts[1..], sep);
          var k :| 0 <= k < |parts[1..]| && c in parts[1..][k];
          assert c in parts[k + 1];
        }
      }
      if exists k :: 0 <= k < |parts| && c in parts[k] {
        var k :| 0 <= k < |parts| && c in parts[k];
        if k > 0 { assert c in parts[1..][k - 1]; }
      }
    }
  }

  /** A character that is neither the separator nor in any part is not in the joined string. */
  lemma JoinAvoids(parts: seq<string>, sep: char, c: char)
    requires c != sep
    requires forall k :: 0 <= k < |parts| ==> c !in parts[k]
    ensures c !in Join(parts, sep)
  {
    JoinContains(parts, sep, c);
  }

  /** Number of elements satisfying `p`. */
  function CountIf<T>(s: seq<T>, p: T -> bool): (n: nat)
    ensures n <= |s|
  {
    if |s| == 0 then 0 else (if p(s[0]) then 1 else 0) + CountIf(s[1..], p)
  }

  /** Counting one more element. */
  lemma {:induction false} CountIfSnoc<T>(s: seq<T>, x: T, p: T -> bool)
    ensures CountIf(s + [x], p) == CountIf(s, p) + (if p(x) then 1 else 0)
  {
    if |s| > 0 {
      assert (s + [x])[1..] == s[1..] + [x];
      CountIfSnoc(s[1..], x, p);
    }
  }

  /** Replacing an element by one the predicate judges alike keeps the count. */
  lemma {:induction false} CountIfUpdate<T>(s: seq<T>, i: nat, x: T, p: T -> bool)
    requires i < |s| && p(x) == p(s[i])
    ensures CountIf(s[i := x], p) == CountIf(s, p)
  {
    if i > 0 {
      assert s[i := x][1..] == s[1..][i - 1 := x];
      CountIfUpdate(s[1..], i - 1, x, p);
    } else {
      assert s[i := x][1..] == s[1..];
    }
  }

  /** Keep the elements satisfying `p`, in order. */
  function Filter<T(!new)>(s: seq<T>, p: T -> bool): (r: seq<T>)
    ensures |r| <= |s|
    ensures forall x :: x in r <==> x in s && p(x)
  {
    if |s| == 0 then [] else (if p(s[0]) then [s[0]] else []) + Filter(s[1..], p)
  }

  /** Every element `Filter` keeps satisfies the predicate. */
  lemma FilterHolds<T(!new)>(s: seq<T>, p: T -> bool)
    ensures forall k :: 0 <= k < |Filter(s, p)| ==> p(Filter(s, p)[k])
  {
    var r := Filter(s, p);
    forall k | 0 <= k < |r|
      ensures p(r[k])
    {
      assert r[k] in r;
    }
  }

  /** Filtering a duplicate-free sequence leaves it duplicate-free. */
  lemma {:induction false} FilterNoDups<T(!new)>(s: seq<T>, p: T -> bool)
    requires NoDups(s)
    ensures NoDups(Filter(s, p))
  {
    if |s| > 0 {
      FilterNoDups(s[1..], p);
    }
  }

  /** Elements of `s` listed in increasing order of first occurrence in `t`. */
  predicate OrderedIn<T(==)>(s: seq<T>, t: seq<T>) {
    (forall x :: x in s ==> x in t) &&
    forall i, j :: 0 <= i < j < |s| ==> s[i] in t && s[j] in t && FirstIndex(t, s[i]) < FirstIndex(t, s[j])
  }

  /** Filtering keeps first-occurrence order. */
  lemma {:induction false} FilterOrdered<T(!new)>(s: seq<T>, t: seq<T>, p: T -> bool)
    requires OrderedIn(s, t)
    ensures OrderedIn(Filter(s, p), t)
  {
    if |s| > 0 {
      var rest := Filter(s[1..], p);
      assert OrderedIn(s[1..], t) by {
        forall i, j | 0 <= i < j < |s[1..]|
          ensures FirstIndex(t, s[1..][i]) < FirstIndex(t, s[1..][j])
        {
          assert s[1..][i] == s[i + 1] && s[1..][j] == s[j + 1];
        }
      }
      FilterOrdered(s[1..], t, p);
      if p(s[0]) {
        var r := Filter(s, p);
        assert r == [s[0]] + rest;
        forall i, j | 0 <= i < j < |r|
          ensures FirstIndex(t, r[i]) < FirstIndex(t, r[j])
        {
          if i == 0 {
            assert r[j] == rest[j - 1] && rest[j - 1] in rest;
            var m :| 0 <= m < |s[1..]| && s[1..][m] == r[j];
            assert s[m + 1] == r[j];
          } else {
            assert r[i] == rest[i - 1] && r[j] == rest[j - 1];
          }
        }
      }
    }
  }

  lemma {:induction false} FilterAppend<T(!new)>(a: seq<T>, b: seq<T>, p: T -> bool)
    ensures Filter(a + b, p) == Filter(a, p) + Filter(b, p)
  {
    if |a| == 0 {
      assert a + b == b;
    } else {
      assert (a + b)[1..] == a[1..] + b;
      FilterAppend(a[1..], b, p);
    }
  }

  /** Filtering and mapping one more element. */
  lemma MapFilterSnoc<A(!new), B>(s: seq<A>, x: A, p: A -> bool, f: A -> B)
    ensures Map(Filter(s + [x], p), f) == Map(Filter(s, p), f) + (if p(x) then [f(x)] else [])
  {
    FilterAppend(s, [x], p);
    assert Filter([x], p) == (if p(x) then [x] else []) + Filter([x][1..], p);
    MapAppend(Filter(s, p), Filter([x], p), f);
  }

  /** Filtering and mapping the prefix one element longer. */
  lemma MapFilterStep<A(!new), B>(s: seq<A>, i: nat, p: A -> bool, f: A -> B)
    requires i < |s|
    ensures Map(Filter(s[..i + 1], p), f) == Map(Filter(s[..i], p), f) + (if p(s[i]) then [f(s[i])] else [])
  {
    assert s[..i + 1] == s[..i] + [s[i]];
    MapFilterSnoc(s[..i], s[i], p, f);
  }

  /** One pass over `s` sending each element either to the `p` side, mapped by `f`, or to the `q` side,
      mapped by `g`, where `q` is the negation of `p`. */
  method Partition<A(!new), B, C>(s: seq<A>, p: A -> bool, q: A -> bool, f: A -> B, g: A -> C)
    returns (yes: seq<B>, no: seq<C>)
    requires forall x :: q(x) == !p(x)
    ensures yes == Map(Filter(s, p), f)
    ensures no == Map(Filter(s, q), g)
  {
    yes := [];
    no := [];
    var i := 0;
    while i < |s|
      invariant 0 <= i <= |s|
      invariant yes == Map(Filter(s[..i], p), f)
      invariant no == Map(Filter(s[..i], q), g)
    {
      yes, no, i := PartitionStep(s, i, p, q, f, g, yes, no);
    }
    assert s[..i] == s;
  }

  /** One element of `Partition`: `s[i]` goes to the side whose predicate it meets. */
  method PartitionStep<A(!new), B, C>(s: seq<A>, i: nat, p: A -> bool, q: A -> bool, f: A -> B, g: A -> C,
                                       yes: seq<B>, no: seq<C>)
    returns (yes': seq<B>, no': seq<C>, next: nat)
    requires i < |s| && forall x :: q(x) == !p(x)
    requires yes == Map(Filter(s[..i], p), f) && no == Map(Filter(s[..i], q), g)
    ensures next == i + 1
    ensures yes' == Map(Filter(s[..next], p), f) && no' == Map(Filter(s[..next], q), g)
  {
    var x := s[i];
    MapFilterStep(s, i, p, f);
    MapFilterStep(s, i, q, g);
    yes', no' := yes, no;
    if p(x) {
      yes' := yes + [f(x)];
    } else {
      no' := no + [g(x)];
    }
    next := i + 1;
  }

  /** `s` in reverse order. */
  function Reverse<T>(s: seq<T>): (r: seq<T>)
    ensures |r| == |s|
    ensures forall i :: 0 <= i < |s| ==> r[i] == s[|s| - 1 - i]
  {
    if |s| == 0 then [] else Reverse(s[1..]) + [s[0]]
  }

  /** Reversing a concatenation reverses the order of the parts. */
  lemma ReverseAppend<T>(a: seq<T>, b: seq<T>)
    ensures Reverse(a + b) == Reverse(b) + Reverse(a)
  {
    var r := Reverse(a + b);
    var t := Reverse(b) + Reverse(a);
    forall i | 0 <= i < |r|
      ensures r[i] == t[i]
    {
      if i < |b| {
        assert t[i] == Reverse(b)[i];
      } else {
        assert t[i] == Reverse(a)[i - |b|];
      }
    }
  }

  /** The first `min(n, |s|)` elements. */
  function Take<T>(s: seq<T>, n: int): (r: seq<T>)
    ensures |r| == if n <= 0 then 0 else if n < |s| then n else |s|
    ensures r <= s
  {
    if n <= 0 then [] else if n < |s| then s[..n] else s
  }

  function Min(a: int, b: int): int { if a < b then a else b }
  function Max(a: int, b: int): int { if a < b then b else a }
}
