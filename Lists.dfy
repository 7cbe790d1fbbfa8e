/**
 * List operations the handlers build on: `[...new Set(xs)]` (first
 * occurrence kept, order preserved) and `sort((a, b) => b - a)` on integers.
 */
module Lists {
  import opened Js

  predicate NoDups<T(==)>(s: seq<T>) {
    forall i, j :: 0 <= i < j < |s| ==> s[i] != s[j]
  }

  /** `[...new Set(s)]`: each value once, at the place of its first occurrence. */
  function Dedup<T(==)>(s: seq<T>): (r: seq<T>)
    ensures NoDups(r)
    ensures forall i :: 0 <= i < |r| ==> r[i] in s
    ensures forall i :: 0 <= i < |s| ==> s[i] in r
    ensures |r| <= |s|
  {
    if s == [] then []
    else
      var init := Dedup(s[..|s| - 1]);
      var last := s[|s| - 1];
      assert s == s[..|s| - 1] + [last];
      if last in init then init else init + [last]
  }

  /** A list that already has no duplicates is left as it is. */
  lemma {:induction false} DedupNoDups<T>(s: seq<T>)
    requires NoDups(s)
    ensures Dedup(s) == s
  {
    if s != [] {
      var init := s[..|s| - 1];
      DedupNoDups(init);
      assert s[|s| - 1] !in init;
      assert init + [s[|s| - 1]] == s;
    }
  }

  /** Deduplicating twice is deduplicating once. */
  lemma DedupIdempotent<T>(s: seq<T>)
    ensures Dedup(Dedup(s)) == Dedup(s)
  {
    DedupNoDups(Dedup(s));
  }

  /** The first element always survives, at the front. */
  lemma {:induction false} DedupKeepsFirst<T>(s: seq<T>)
    requires s != []
    ensures Dedup(s) != [] && Dedup(s)[0] == s[0]
  {
    if |s| > 1 {
      DedupKeepsFirst(s[..|s| - 1]);
      assert s[..|s| - 1][0] == s[0];
    }
  }

  /** Appending a value already present changes nothing; a new one goes last. */
  lemma DedupSnoc<T>(s: seq<T>, x: T)
    ensures Dedup(s + [x]) == if x in s then Dedup(s) else Dedup(s) + [x]
  {
    assert (s + [x])[..|s + [x]| - 1] == s;
  }

  /** Where `x` first occurs in `s`. */
  function FirstIndex<T(==)>(s: seq<T>, x: T): (r: nat)
    requires x in s
    ensures r < |s| && s[r] == x && x !in s[..r]
  {
    if s[0] == x then 0
    else
      var r := FirstIndex(s[1..], x);
      assert s[..r + 1] == [s[0]] + s[1..][..r];
      r + 1
  }

  /** A position holding `x` with no `x` before it is the first occurrence. */
  lemma FirstIndexUnique<T>(s: seq<T>, x: T, k: nat)
    requires k < |s| && s[k] == x && x !in s[..k]
    ensures FirstIndex(s, x) == k
  {
    var a := FirstIndex(s, x);
    assert x !in s[..a] && x !in s[..k];
  }

  /** Appending to `s` does not move the first occurrence of a value already in it. */
  lemma FirstIndexSnoc<T>(s: seq<T>, y: T, x: T)
    requires x in s
    ensures FirstIndex(s + [y], x) == FirstIndex(s, x)
  {
    var b := FirstIndex(s, x);
    assert (s + [y])[..b] == s[..b];
    FirstIndexUnique(s + [y], x, b);
  }

  /** The values come out in the order of their first occurrences in the input. */
  lemma {:induction false} DedupOrder<T>(s: seq<T>)
    ensures forall i, j :: 0 <= i < j < |Dedup(s)| ==> FirstIndex(s, Dedup(s)[i]) < FirstIndex(s, Dedup(s)[j])
  {
    if s != [] {
      var init, last := s[..|s| - 1], s[|s| - 1];
      assert s == init + [last];
      DedupOrder(init);
      var r, r0 := Dedup(s), Dedup(init);
      forall i | 0 <= i < |r0|
        ensures FirstIndex(s, r0[i]) == FirstIndex(init, r0[i])
      {
        FirstIndexSnoc(init, last, r0[i]);
      }
      if last !in r0 {
        assert last !in init;
        assert s[..|s| - 1] == init;
        FirstIndexUnique(s, last, |s| - 1);
      }
    }
  }

  /** Non-increasing: each value is at least the one after it. */
  predicate SortedDesc(s: seq<int>)
    decreases |s|
  {
    |s| <= 1 || (s[0] >= s[1] && SortedDesc(s[1..]))
  }

  function InsertDesc(x: int, s: seq<int>): (r: seq<int>)
    requires SortedDesc(s)
    ensures SortedDesc(r) && multiset(r) == multiset(s) + multiset{x}
    ensures |r| == |s| + 1
  {
    if s == [] || x >= s[0] then
      assert ([x] + s)[1..] == s;
      [x] + s
    else
      var rest := InsertDesc(x, s[1..]);
      InsertStep(s, x, rest);
      [s[0]] + rest
  }

  /** Putting the head of `s` back in front of the tail with `x` inserted keeps the order. */
  lemma InsertStep(s: seq<int>, x: int, rest: seq<int>)
    requires SortedDesc(s) && s != [] && x < s[0]
    requires SortedDesc(rest) && multiset(rest) == multiset(s[1..]) + multiset{x}
    ensures SortedDesc([s[0]] + rest) && multiset([s[0]] + rest) == multiset(s) + multiset{x}
  {
    assert s == [s[0]] + s[1..];
    assert ([s[0]] + rest)[1..] == rest;
    if rest != [] {
      assert rest[0] in multiset(rest);
      if rest[0] != x {
        HeadIsMax(s);
        assert rest[0] in multiset(s);
      }
    }
  }

  /** `s.sort((a, b) => b - a)`: the same values in non-increasing order. */
  function SortDesc(s: seq<int>): (r: seq<int>)
    ensures SortedDesc(r) && multiset(r) == multiset(s)
    ensures |r| == |s|
  {
    if s == [] then []
    else
      assert s == [s[0]] + s[1..];
      InsertDesc(s[0], SortDesc(s[1..]))
  }

  /** Sorting an already sorted list changes nothing: there is one sorted order per multiset. */
  lemma SortedUnique(a: seq<int>, b: seq<int>)
    requires SortedDesc(a) && SortedDesc(b) && multiset(a) == multiset(b)
    ensures a == b
    decreases |a|
  {
    assert |a| == |multiset(a)| && |b| == |multiset(b)|;
    if a != [] {
      HeadIsMax(a);
      HeadIsMax(b);
      assert a[0] in multiset(b) && b[0] in multiset(a);
      assert a[0] == b[0];
      TailMultiset(a);
      TailMultiset(b);
      SortedUnique(a[1..], b[1..]);
      assert a == [a[0]] + a[1..] && b == [b[0]] + b[1..];
    }
  }

  /** The head of a non-increasing list is its largest value. */
  lemma {:induction false} HeadIsMax(a: seq<int>)
    requires SortedDesc(a) && a != []
    ensures forall v :: v in multiset(a) ==> v <= a[0]
    decreases |a|
  {
    TailMultiset(a);
    if |a| > 1 {
      HeadIsMax(a[1..]);
      forall v | v in multiset(a)
        ensures v <= a[0]
      {
        if v != a[0] {
          assert v in multiset(a[1..]);
        }
      }
    }
  }

  lemma TailMultiset(a: seq<int>)
    requires a != []
    ensures multiset(a[1..]) == multiset(a) - multiset{a[0]}
  {
    assert a == [a[0]] + a[1..];
  }

  lemma SortDescIdempotent(s: seq<int>)
    ensures SortDesc(SortDesc(s)) == SortDesc(s)
  {
    SortedUnique(SortDesc(SortDesc(s)), SortDesc(s));
  }

  /** `list.find(p)` as an index: the first position satisfying `p`, or none. */
  function FindIndex<T>(s: seq<T>, p: T -> bool): (r: int)
    ensures -1 <= r < |s|
    ensures r >= 0 ==> p(s[r]) && forall k :: 0 <= k < r ==> !p(s[k])
    ensures r == -1 ==> forall k :: 0 <= k < |s| ==> !p(s[k])
  {
    if s == [] then -1
    else if p(s[0]) then 0
    else
      var r := FindIndex(s[1..], p);
      if r == -1 then -1 else r + 1
  }

  /** A counting loop that stops at the first `k` in `from..last` with `p(k)`. */
  function FirstIn(p: int -> bool, from: int, last: int): Option<int>
    decreases last - from
  {
    if from > last then None
    else if p(from) then Some(from)
    else FirstIn(p, from + 1, last)
  }

  /** What the loop finds is the least `k` in range with `p(k)`; finding nothing means no `k` qualifies. */
  lemma {:induction false} FirstInIsFirst(p: int -> bool, from: int, last: int)
    ensures FirstIn(p, from, last).Some? ==>
      var m := FirstIn(p, from, last).value;
      from <= m <= last && p(m) && forall k :: from <= k < m ==> !p(k)
    ensures FirstIn(p, from, last).None? ==> forall k :: from <= k <= last ==> !p(k)
    decreases last - from
  {
    if from <= last && !p(from) {
      FirstInIsFirst(p, from + 1, last);
    }
  }

  /** A position where `p` holds with no earlier one is what `find` returns. */
  lemma FindIndexIs<T>(s: seq<T>, p: T -> bool, i: int)
    requires 0 <= i < |s| && p(s[i])
    requires forall k :: 0 <= k < i ==> !p(s[k])
    ensures FindIndex(s, p) == i
  {
  }

  /** `list.some(p)`. */
  predicate Any<T>(s: seq<T>, p: T -> bool) {
    exists k :: 0 <= k < |s| && p(s[k])
  }

  lemma FindIndexAny<T>(s: seq<T>, p: T -> bool)
    ensures FindIndex(s, p) >= 0 <==> Any(s, p)
  {
  }
}
