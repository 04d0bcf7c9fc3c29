/**
 * Sequence helpers shared by the page models: JavaScript's `Array.prototype.filter`,
 * duplicate-free sequences, and the first-occurrence order in which a JavaScript `Map`
 * keeps its keys.
 *
 * Everything is defined on the last element of a sequence, the way a `forEach` loop
 * extends its result, so that a loop invariant over `s[..i]` unfolds one step at a time.
 */
module Seqs {

  /** The elements of `s` that satisfy `keep`, in their original order. */
  function Filter<T>(s: seq<T>, keep: T -> bool): (r: seq<T>)
    ensures |r| <= |s|
    ensures forall i :: 0 <= i < |r| ==> r[i] in s && keep(r[i])
    ensures forall i :: 0 <= i < |s| && keep(s[i]) ==> s[i] in r
    ensures |s| == 1 ==> r == if keep(s[0]) then s else []
  {
    if s == [] then []
    else
      assert s == s[..|s| - 1] + [s[|s| - 1]];
      Filter(s[..|s| - 1], keep) + (if keep(s[|s| - 1]) then [s[|s| - 1]] else [])
  }

  /** Filtering a concatenation filters each part. */
  lemma {:induction false} FilterConcat<T>(a: seq<T>, b: seq<T>, keep: T -> bool)
    ensures Filter(a + b, keep) == Filter(a, keep) + Filter(b, keep)
  {
    if b != [] {
      var b' := b[..|b| - 1];
      assert (a + b)[..|a + b| - 1] == a + b';
      assert (a + b)[|a + b| - 1] == b[|b| - 1];
      FilterConcat(a, b', keep);
    } else {
      assert a + b == a;
    }
  }

  /** Cutting the input anywhere cuts the result in the same place: the kept elements keep their order. */
  lemma {:induction false} FilterSplit<T>(s: seq<T>, keep: T -> bool, k: nat)
    requires k <= |s|
    ensures Filter(s, keep) == Filter(s[..k], keep) + Filter(s[k..], keep)
  {
    assert s == s[..k] + s[k..];
    FilterConcat(s[..k], s[k..], keep);
  }

  /** A kept value occurs as often as in the input, a dropped one not at all. */
  lemma {:induction false} FilterCount<T>(s: seq<T>, keep: T -> bool, x: T)
    ensures multiset(Filter(s, keep))[x] == if keep(x) then multiset(s)[x] else 0
  {
    if s != [] {
      var init := s[..|s| - 1];
      assert s == init + [s[|s| - 1]];
      FilterCount(init, keep, x);
      assert multiset(s) == multiset(init) + multiset{s[|s| - 1]};
    }
  }

  /** A prefix one element longer. */
  lemma {:induction false} PrefixSnoc<T>(s: seq<T>, j: nat)
    requires j < |s|
    ensures s[..j + 1] == s[..j] + [s[j]]
  {
  }

  /** No value occurs twice. */
  predicate Distinct<T(==)>(s: seq<T>)
  {
    forall i, j :: 0 <= i < j < |s| ==> s[i] != s[j]
  }

  /** The values of `s` in the order of their first occurrence, each once. */
  function Dedup<T(==,!new)>(s: seq<T>): (r: seq<T>)
    ensures Distinct(r)
    ensures forall x :: x in r <==> x in s
  {
    if s == [] then []
    else
      var d := Dedup(s[..|s| - 1]);
      var x := s[|s| - 1];
      assert s == s[..|s| - 1] + [x];
      if x in d then d else d + [x]
  }

  /** One more value at the end is appended to the first-occurrence order unless it was already there. */
  lemma {:induction false} DedupSnoc<T(!new)>(s: seq<T>, x: T)
    ensures Dedup(s + [x]) == if x in s then Dedup(s) else Dedup(s) + [x]
  {
    assert (s + [x])[..|s|] == s;
    if x in s {
      var i :| 0 <= i < |s| && s[i] == x;
      assert x in Dedup(s);
    } else {
      assert x !in Dedup(s);
    }
  }
}
