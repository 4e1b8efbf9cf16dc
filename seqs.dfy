/** Sequence helpers standing for the JavaScript array methods the source uses:
    `filter(x => x !== v)`, `includes`, `push`, and the order a filter keeps. */
module Seqs {

  /** Number of occurrences of `x` in `xs`. */
  function Count<T(==)>(xs: seq<T>, x: T): (n: nat)
    ensures n <= |xs|
    ensures n == 0 <==> x !in xs
  {
    if xs == [] then 0 else (if xs[0] == x then 1 else 0) + Count(xs[1..], x)
  }

  /** `xs.filter(y => y !== x)`: every occurrence of `x` removed, the rest in order. */
  function Without<T(==,!new)>(xs: seq<T>, x: T): (r: seq<T>)
    ensures x !in r
    ensures forall y :: y in r <==> y in xs && y != x
    ensures |r| <= |xs|
  {
    if xs == [] then []
    else if xs[0] == x then Without(xs[1..], x)
    else [xs[0]] + Without(xs[1..], x)
  }

  /** No element occurs twice. */
  ghost predicate NoDup<T(!new)>(xs: seq<T>) {
    forall y :: Count(xs, y) <= 1
  }

  /** `a` is `b` with some elements dropped, the rest in their original order. */
  ghost predicate IsSubseq<T>(a: seq<T>, b: seq<T>)
    decreases |b|
  {
    if a == [] then true
    else if b == [] then false
    else if a[0] == b[0] then IsSubseq(a[1..], b[1..])
    else IsSubseq(a, b[1..])
  }

  lemma {:induction false} CountConcat<T>(a: seq<T>, b: seq<T>, x: T)
    ensures Count(a + b, x) == Count(a, x) + Count(b, x)
    decreases |a|
  {
    if a == [] {
      assert a + b == b;
    } else {
      assert (a + b)[1..] == a[1..] + b;
      CountConcat(a[1..], b, x);
    }
  }

  lemma CountSingleton<T>(y: T, x: T)
    ensures Count([y], x) == if y == x then 1 else 0
  {
    assert [y][1..] == [];
  }

  /** Pushing `y` adds one occurrence of `y` and none of anything else. */
  lemma CountPush<T>(xs: seq<T>, y: T, x: T)
    ensures Count(xs + [y], x) == Count(xs, x) + (if y == x then 1 else 0)
  {
    CountConcat(xs, [y], x);
    CountSingleton(y, x);
  }

  /** Filtering out `x` drops exactly its occurrences and keeps everything else. */
  lemma {:induction false} WithoutCount<T(!new)>(xs: seq<T>, x: T, y: T)
    ensures Count(Without(xs, x), y) == if y == x then 0 else Count(xs, y)
    decreases |xs|
  {
    if xs != [] {
      WithoutCount(xs[1..], x, y);
      if xs[0] != x {
        assert ([xs[0]] + Without(xs[1..], x))[1..] == Without(xs[1..], x);
      }
    }
  }

  lemma {:induction false} WithoutLength<T(!new)>(xs: seq<T>, x: T)
    ensures |Without(xs, x)| == |xs| - Count(xs, x)
    decreases |xs|
  {
    if xs != [] {
      WithoutLength(xs[1..], x);
    }
  }

  /** Filtering a list that does not hold `x` returns it unchanged. */
  lemma {:induction false} WithoutAbsent<T(!new)>(xs: seq<T>, x: T)
    requires x !in xs
    ensures Without(xs, x) == xs
    decreases |xs|
  {
    if xs != [] {
      assert x !in xs[1..];
      WithoutAbsent(xs[1..], x);
      assert xs == [xs[0]] + xs[1..];
    }
  }

  lemma {:induction false} WithoutConcat<T(!new)>(a: seq<T>, b: seq<T>, x: T)
    ensures Without(a + b, x) == Without(a, x) + Without(b, x)
    decreases |a|
  {
    if a == [] {
      assert a + b == b;
    } else {
      assert (a + b)[0] == a[0];
      assert (a + b)[1..] == a[1..] + b;
      WithoutConcat(a[1..], b, x);
    }
  }

  /** The filter keeps the survivors in their relative order. */
  lemma {:induction false} WithoutIsSubseq<T(!new)>(xs: seq<T>, x: T)
    ensures IsSubseq(Without(xs, x), xs)
    decreases |xs|
  {
    if xs != [] {
      WithoutIsSubseq(xs[1..], x);
      if xs[0] == x {
        SubseqDropHead(Without(xs[1..], x), xs);
      } else {
        var r := [xs[0]] + Without(xs[1..], x);
        assert r[0] == xs[0] && r[1..] == Without(xs[1..], x);
      }
    }
  }

  /** A subsequence of the tail is a subsequence of the whole. */
  lemma {:induction false} SubseqDropHead<T>(a: seq<T>, b: seq<T>)
    requires b != []
    requires IsSubseq(a, b[1..])
    ensures IsSubseq(a, b)
    decreases |b|, |a|
  {
    if a != [] && a[0] == b[0] {
      // IsSubseq(a, b[1..]) and a[0] == b[0] give IsSubseq(a[1..], b[1..]),
      // which is what the definition demands here.
      SubseqTail(a, b[1..]);
    }
  }

  /** Dropping the first element keeps a subsequence a subsequence. */
  lemma {:induction false} SubseqTail<T>(a: seq<T>, b: seq<T>)
    requires a != []
    requires IsSubseq(a, b)
    ensures IsSubseq(a[1..], b)
    decreases |b|, |a|
  {
    assert b != [];
    if a[0] == b[0] {
      SubseqDropHead(a[1..], b);
    } else {
      SubseqTail(a, b[1..]);
      SubseqDropHead(a[1..], b);
    }
  }

  /** A list without duplicates keeps that property when an element is filtered out. */
  lemma WithoutNoDup<T(!new)>(xs: seq<T>, x: T)
    requires NoDup(xs)
    ensures NoDup(Without(xs, x))
  {
    forall y ensures Count(Without(xs, x), y) <= 1 {
      WithoutCount(xs, x, y);
    }
  }

  /** Pushing an absent element onto a list without duplicates keeps it so. */
  lemma PushNoDup<T(!new)>(xs: seq<T>, x: T)
    requires NoDup(xs) && x !in xs
    ensures NoDup(xs + [x])
  {
    forall y ensures Count(xs + [x], y) <= 1 {
      CountPush(xs, x, y);
    }
  }

  /** Without duplicates, the length of a list is the size of its set of elements. */
  lemma {:induction false} NoDupCardinality<T(!new)>(xs: seq<T>)
    requires NoDup(xs)
    ensures |xs| == |set y | y in xs|
    decreases |xs|
  {
    if xs != [] {
      var t := xs[1..];
      assert NoDup(t) by {
        forall y ensures Count(t, y) <= 1 {
          assert Count(xs, y) == (if xs[0] == y then 1 else 0) + Count(t, y);
        }
      }
      NoDupCardinality(t);
      assert Count(xs, xs[0]) == 1 + Count(t, xs[0]);
      assert xs[0] !in t;
      assert (set y | y in xs) == (set y | y in t) + {xs[0]} by {
        assert xs == [xs[0]] + t;
      }
    }
  }
}
