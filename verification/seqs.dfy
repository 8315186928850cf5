/** Generic list operations the scripts use implicitly: keeping the elements
    that satisfy a test (a loop with an `if` and `append`), `list.count`,
    repeated `+=` on strings, and `sum`. Each is defined from the back, the
    way a loop builds it one element at a time. */
module Seqs {

  /** The elements of `s` that satisfy `p`, in their original order. */
  function Filter<T>(p: T -> bool, s: seq<T>): (r: seq<T>)
    ensures |r| <= |s|
    ensures forall k :: 0 <= k < |r| ==> r[k] in s && p(r[k])
    ensures forall k :: 0 <= k < |s| && p(s[k]) ==> s[k] in r
    decreases |s|
  {
    if s == [] then []
    else
      var front := Filter(p, s[..|s| - 1]);
      var last := s[|s| - 1];
      assert s == s[..|s| - 1] + [last];
      if p(last) then front + [last] else front
  }

  /** Filtering distributes over concatenation: the kept elements of `a`
      come before the kept elements of `b`. */
  lemma {:induction false} FilterAppend<T>(p: T -> bool, a: seq<T>, b: seq<T>)
    ensures Filter(p, a + b) == Filter(p, a) + Filter(p, b)
    decreases |b|
  {
    if b != [] {
      var b' := b[..|b| - 1];
      assert (a + b)[..|a + b| - 1] == a + b';
      FilterAppend(p, a, b');
    } else {
      assert a + b == a;
    }
  }

  /** One more element is kept exactly when it passes the test: the loop
      step that builds a filtered list. */
  lemma FilterSnoc<T>(p: T -> bool, s: seq<T>, i: nat)
    requires i < |s|
    ensures Filter(p, s[..i + 1]) == Filter(p, s[..i]) + (if p(s[i]) then [s[i]] else [])
  {
    assert s[..i + 1][..i] == s[..i];
  }

  /** When every element passes, nothing is dropped. */
  lemma {:induction false} FilterAll<T>(p: T -> bool, s: seq<T>)
    requires forall k :: 0 <= k < |s| ==> p(s[k])
    ensures Filter(p, s) == s
    decreases |s|
  {
    if s != [] {
      FilterAll(p, s[..|s| - 1]);
      assert s == s[..|s| - 1] + [s[|s| - 1]];
    }
  }

  /** Python's `list.count(v)`. */
  function Count<T(==)>(s: seq<T>, v: T): (n: nat)
    ensures n <= |s|
    ensures n == 0 <==> v !in s
    ensures n == |s| <==> forall k :: 0 <= k < |s| ==> s[k] == v
    decreases |s|
  {
    if s == [] then 0
    else
      var front := s[..|s| - 1];
      assert s == front + [s[|s| - 1]];
      Count(front, v) + (if s[|s| - 1] == v then 1 else 0)
  }

  /** Occurrences of two different values never add up to more than the list. */
  lemma {:induction false} CountTwoValues<T>(s: seq<T>, v: T, w: T)
    requires v != w
    ensures Count(s, v) + Count(s, w) <= |s|
    decreases |s|
  {
    if s != [] {
      CountTwoValues(s[..|s| - 1], v, w);
    }
  }

  /** `f` applied to every element, in order. */
  function MapSeq<T, U>(f: T -> U, s: seq<T>): (r: seq<U>)
    ensures |r| == |s|
    ensures forall k :: 0 <= k < |s| ==> r[k] == f(s[k])
  {
    seq(|s|, k requires 0 <= k < |s| => f(s[k]))
  }

  lemma MapSeqAppend<T, U>(f: T -> U, a: seq<T>, b: seq<T>)
    ensures MapSeq(f, a + b) == MapSeq(f, a) + MapSeq(f, b)
  {
  }

  /** Mapping one element in the middle of a sequence. */
  lemma MapSeqAround<T, U>(f: T -> U, a: seq<T>, x: T, b: seq<T>)
    ensures MapSeq(f, a + [x] + b) == MapSeq(f, a) + [f(x)] + MapSeq(f, b)
  {
    MapSeqAppend(f, a + [x], b);
    MapSeqAppend(f, a, [x]);
  }

  lemma MapSeqPair<T, U>(f: T -> U, a: T, b: T)
    ensures MapSeq(f, [a, b]) == [f(a), f(b)]
  {
  }

  /** Mapping a prefix one element longer. */
  lemma MapSeqSnoc<T, U>(f: T -> U, s: seq<T>, i: nat)
    requires i < |s|
    ensures MapSeq(f, s[..i + 1]) == MapSeq(f, s[..i]) + [f(s[i])]
  {
    assert s[..i + 1] == s[..i] + [s[i]];
    MapSeqAppend(f, s[..i], [s[i]]);
  }

  /** Nothing mapped satisfies `p` exactly when the filter keeps nothing. */
  lemma FilterMapEmpty<T, U>(p: U -> bool, f: T -> U, s: seq<T>)
    ensures Filter(p, MapSeq(f, s)) == [] <==> forall k :: 0 <= k < |s| ==> !p(f(s[k]))
  {
    var m := MapSeq(f, s);
    if Filter(p, m) != [] {
      assert Filter(p, m)[0] in m;
    }
  }

  /** Appending is associative; stated once so that long string-building
      proofs can name the regrouping they need. */
  lemma AppendAssoc<T>(a: seq<T>, b: seq<T>, c: seq<T>)
    ensures (a + b) + c == a + (b + c)
  {
  }

  /** Slicing the middle part back out of a three-part concatenation. */
  lemma MiddleSlice<T>(a: seq<T>, b: seq<T>, c: seq<T>, lo: nat, hi: nat)
    requires lo <= hi <= |b|
    ensures (a + b + c)[..|a|] == a
    ensures (a + b + c)[|a| + lo..|a| + hi] == b[lo..hi]
  {
  }

  /** The pieces of `xs` laid end to end, as repeated `+=` builds them. */
  function Concat<T>(xs: seq<seq<T>>): seq<T>
    decreases |xs|
  {
    if xs == [] then [] else Concat(xs[..|xs| - 1]) + xs[|xs| - 1]
  }

  /** Adding one more piece extends the text at its end. */
  lemma ConcatSnoc<T>(xs: seq<seq<T>>, i: nat)
    requires i < |xs|
    ensures Concat(xs[..i + 1]) == Concat(xs[..i]) + xs[i]
  {
    assert xs[..i + 1][..i] == xs[..i];
  }

  /** Piece `i` of `xs` sits in `Concat(xs)` right after pieces `0..i-1`. */
  lemma {:induction false} ConcatPiece<T>(xs: seq<seq<T>>, i: nat)
    requires i < |xs|
    ensures |Concat(xs[..i])| + |xs[i]| <= |Concat(xs)|
    ensures Concat(xs)[|Concat(xs[..i])|..|Concat(xs[..i])| + |xs[i]|] == xs[i]
    decreases |xs|
  {
    if i == |xs| - 1 {
      assert xs[..|xs| - 1] == xs[..i];
    } else {
      var front := xs[..|xs| - 1];
      assert front[..i] == xs[..i];
      assert front[i] == xs[i];
      ConcatPiece(front, i);
      assert Concat(xs) == Concat(front) + xs[|xs| - 1];
    }
  }

  /** Piece `i` sits in `h + Concat(xs) + g` right after `h` and the pieces
      before it. */
  lemma ConcatLayout<T>(h: seq<T>, xs: seq<seq<T>>, g: seq<T>, i: nat)
    requires i < |xs|
    ensures var p := h + Concat(xs) + g;
      var at := |h| + |Concat(xs[..i])|;
      && p[..|h|] == h
      && at + |xs[i]| <= |p|
      && p[at..at + |xs[i]|] == xs[i]
  {
    ConcatPiece(xs, i);
    var at := |Concat(xs[..i])|;
    MiddleSlice(h, Concat(xs), g, at, at + |xs[i]|);
  }

  /** Python's `sum` over a list of floats, with exact reals. */
  function Sum(xs: seq<real>): real
    decreases |xs|
  {
    if xs == [] then 0.0 else Sum(xs[..|xs| - 1]) + xs[|xs| - 1]
  }

  /** Bounds on every element bound the sum by the length times the bound. */
  lemma {:induction false} SumBounds(xs: seq<real>, lo: real, hi: real)
    requires forall k :: 0 <= k < |xs| ==> lo <= xs[k] <= hi
    ensures |xs| as real * lo <= Sum(xs) <= |xs| as real * hi
    decreases |xs|
  {
    if xs != [] {
      SumBounds(xs[..|xs| - 1], lo, hi);
    }
  }

  lemma {:induction false} SumAppend(a: seq<real>, b: seq<real>)
    ensures Sum(a + b) == Sum(a) + Sum(b)
    decreases |b|
  {
    if b == [] {
      assert a + b == a;
    } else {
      assert (a + b)[..|a + b| - 1] == a + b[..|b| - 1];
      SumAppend(a, b[..|b| - 1]);
    }
  }
}
