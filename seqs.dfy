/**
 * Sequence helpers shared by the model: the list comprehension
 * `[x for x in s if f(x)]`, the "first element that matches" search done by
 * loops with an early `return`, and the "append if not yet present" fold that
 * the open-file census uses to accumulate paths.
 */
module Seqs {
  import opened Wrappers

  predicate NoDup<T(==)>(s: seq<T>) {
    forall i, j :: 0 <= i < j < |s| ==> s[i] != s[j]
  }

  /** `[x for x in s if f(x)]`. */
  function Filter<T>(s: seq<T>, f: T -> bool): (r: seq<T>)
    ensures |r| <= |s|
  {
    if |s| == 0 then []
    else Filter(s[..|s| - 1], f) + (if f(s[|s| - 1]) then [s[|s| - 1]] else [])
  }

  lemma {:induction false} FilterMember<T>(s: seq<T>, f: T -> bool, x: T)
    ensures x in Filter(s, f) <==> x in s && f(x)
  {
    if |s| > 0 {
      FilterMember(s[..|s| - 1], f, x);
      assert s == s[..|s| - 1] + [s[|s| - 1]];
    }
  }

  /** Filtering distributes over concatenation: it keeps the input order. */
  lemma {:induction false} FilterConcat<T>(a: seq<T>, b: seq<T>, f: T -> bool)
    ensures Filter(a + b, f) == Filter(a, f) + Filter(b, f)
  {
    if |b| == 0 {
      assert a + b == a;
    } else {
      FilterConcat(a, b[..|b| - 1], f);
      assert (a + b)[..|a + b| - 1] == a + b[..|b| - 1];
    }
  }

  /** Filtering keeps every occurrence of a kept element and drops every other one. */
  lemma {:induction false} FilterMultiplicity<T>(s: seq<T>, f: T -> bool, x: T)
    ensures multiset(Filter(s, f))[x] == if f(x) then multiset(s)[x] else 0
  {
    if |s| > 0 {
      FilterMultiplicity(s[..|s| - 1], f, x);
      assert s == s[..|s| - 1] + [s[|s| - 1]];
    }
  }

  /** An element kept by `f` and an element dropped by it are counted once together. */
  lemma {:induction false} FilterSplitLength<T>(s: seq<T>, f: T -> bool)
    ensures |Filter(s, f)| + |Filter(s, x => !f(x))| == |s|
  {
    if |s| > 0 {
      FilterSplitLength(s[..|s| - 1], f);
    }
  }

  lemma {:induction false} FilterNoDup<T>(s: seq<T>, f: T -> bool)
    requires NoDup(s)
    ensures NoDup(Filter(s, f))
  {
    if |s| > 0 {
      var p := s[..|s| - 1];
      FilterNoDup(p, f);
      if f(s[|s| - 1]) {
        FilterMember(p, f, s[|s| - 1]);
      }
    }
  }

  /** `f` applied to each element, in order. */
  function Map<A, B>(s: seq<A>, f: A -> B): (r: seq<B>)
    ensures |r| == |s| && forall i :: 0 <= i < |s| ==> r[i] == f(s[i])
  {
    if |s| == 0 then [] else Map(s[..|s| - 1], f) + [f(s[|s| - 1])]
  }

  /** The concatenation of `f(x)` over the elements `x` of `s`, in order. */
  function FlatMap<A, B>(s: seq<A>, f: A -> seq<B>): seq<B> {
    if |s| == 0 then [] else FlatMap(s[..|s| - 1], f) + f(s[|s| - 1])
  }

  lemma {:induction false} FlatMapSound<A, B>(s: seq<A>, f: A -> seq<B>, y: B)
    ensures y in FlatMap(s, f) ==> exists i :: 0 <= i < |s| && y in f(s[i])
  {
    if |s| > 0 {
      var q := s[..|s| - 1];
      FlatMapSound(q, f, y);
      if y in FlatMap(q, f) {
        var i :| 0 <= i < |q| && y in f(q[i]);
        assert s[i] == q[i];
      }
    }
  }

  lemma {:induction false} FlatMapComplete<A, B>(s: seq<A>, f: A -> seq<B>, y: B, i: int)
    requires 0 <= i < |s| && y in f(s[i])
    ensures y in FlatMap(s, f)
  {
    var q := s[..|s| - 1];
    if i < |q| {
      assert q[i] == s[i];
      FlatMapComplete(q, f, y, i);
    }
  }

  /** The index of the first element satisfying `f`. */
  function FirstIndex<T>(s: seq<T>, f: T -> bool): (r: Option<nat>)
    ensures r.Some? ==> r.value < |s| && f(s[r.value])
    ensures r.Some? ==> forall j :: 0 <= j < r.value ==> !f(s[j])
    ensures r.None? <==> forall j :: 0 <= j < |s| ==> !f(s[j])
  {
    if |s| == 0 then None
    else if f(s[0]) then Some(0)
    else match FirstIndex(s[1..], f)
      case None => None
      case Some(k) => Some(k + 1)
  }

  /** An index that satisfies `f` with no earlier one that does is the first index. */
  lemma {:induction false} FirstIndexIs<T>(s: seq<T>, f: T -> bool, i: nat)
    requires i < |s| && f(s[i]) && forall j :: 0 <= j < i ==> !f(s[j])
    ensures FirstIndex(s, f) == Some(i)
  {
    if i > 0 {
      assert forall j :: 0 <= j < i - 1 ==> s[1..][j] == s[j + 1];
      FirstIndexIs(s[1..], f, i - 1);
    }
  }

  /** The first element of a filtered sequence satisfying `f`: none exactly when no kept element satisfies it. */
  lemma FirstIndexOfFilter<T>(s: seq<T>, g: T -> bool, f: T -> bool)
    ensures var l, r := Filter(s, g), FirstIndex(Filter(s, g), f);
      && (r.None? <==> forall x :: x in s && g(x) ==> !f(x))
      && (r.Some? ==> r.value < |l| && f(l[r.value]) && forall j :: 0 <= j < r.value ==> !f(l[j]))
  {
    forall x ensures x in Filter(s, g) <==> x in s && g(x) {
      FilterMember(s, g, x);
    }
  }

  /**
   * `for x in xs: if x not in acc: acc.append(x)`: the paths of later scan
   * passes are added to the census without repeating one.
   */
  function AppendNew<T(==)>(acc: seq<T>, xs: seq<T>): seq<T>
  {
    if |xs| == 0 then acc
    else
      var a := AppendNew(acc, xs[..|xs| - 1]);
      if xs[|xs| - 1] in a then a else a + [xs[|xs| - 1]]
  }

  lemma {:induction false} AppendNewMember<T>(acc: seq<T>, xs: seq<T>, x: T)
    ensures x in AppendNew(acc, xs) <==> x in acc || x in xs
  {
    if |xs| > 0 {
      AppendNewMember(acc, xs[..|xs| - 1], x);
      assert xs == xs[..|xs| - 1] + [xs[|xs| - 1]];
    }
  }

  lemma {:induction false} AppendNewNoDup<T>(acc: seq<T>, xs: seq<T>)
    requires NoDup(acc)
    ensures NoDup(AppendNew(acc, xs))
  {
    if |xs| > 0 {
      AppendNewNoDup(acc, xs[..|xs| - 1]);
    }
  }

  /** Folding two batches one after the other is folding their concatenation. */
  lemma {:induction false} AppendNewConcat<T>(acc: seq<T>, xs: seq<T>, ys: seq<T>)
    ensures AppendNew(acc, xs + ys) == AppendNew(AppendNew(acc, xs), ys)
  {
    if |ys| == 0 {
      assert xs + ys == xs;
    } else {
      var q := ys[..|ys| - 1];
      AppendNewConcat(acc, xs, q);
      assert (xs + ys)[..|xs + ys| - 1] == xs + q;
      assert (xs + ys)[|xs + ys| - 1] == ys[|ys| - 1];
    }
  }

  /** What was accumulated before is never reordered or dropped. */
  lemma {:induction false} AppendNewPrefix<T>(acc: seq<T>, xs: seq<T>)
    ensures acc <= AppendNew(acc, xs)
  {
    if |xs| > 0 {
      AppendNewPrefix(acc, xs[..|xs| - 1]);
    }
  }

  /** Without repeated elements nothing is skipped: the fold is plain concatenation. */
  lemma {:induction false} AppendNewDistinct<T>(acc: seq<T>, xs: seq<T>)
    requires NoDup(acc + xs)
    ensures AppendNew(acc, xs) == acc + xs
  {
    if |xs| > 0 {
      var p := xs[..|xs| - 1];
      assert acc + xs == (acc + p) + [xs[|xs| - 1]];
      assert NoDup(acc + p) by {
        forall i, j | 0 <= i < j < |acc + p| ensures (acc + p)[i] != (acc + p)[j] {
          assert (acc + p)[i] == (acc + xs)[i] && (acc + p)[j] == (acc + xs)[j];
        }
      }
      AppendNewDistinct(acc, p);
      assert xs[|xs| - 1] !in acc + p by {
        forall i | 0 <= i < |acc + p| ensures (acc + p)[i] != xs[|xs| - 1] {
          assert (acc + p)[i] == (acc + xs)[i];
          assert xs[|xs| - 1] == (acc + xs)[|acc + xs| - 1];
        }
      }
    }
  }

  /**
   * Folding onto an accumulator without repeats is deduplicating the whole
   * concatenation, keeping the first occurrence of each element.
   */
  lemma {:induction false} AppendNewIsDedup<T>(acc: seq<T>, xs: seq<T>)
    requires NoDup(acc)
    ensures AppendNew(acc, xs) == AppendNew([], acc + xs)
  {
    if |xs| == 0 {
      assert acc + xs == acc && [] + acc == acc;
      AppendNewDistinct([], acc);
    } else {
      var p := xs[..|xs| - 1];
      AppendNewIsDedup(acc, p);
      assert (acc + xs)[..|acc + xs| - 1] == acc + p;
    }
  }
}
