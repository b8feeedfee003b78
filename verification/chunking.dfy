/** Splitting a list into chunks, the two ways the functions do it:
    consecutive blocks of a fixed size (`data[i:i + size]` for `i` in
    `range(0, n, size)`) and numpy's `array_split` into a given number of
    near-equal sections. */
module Chunking {
  import opened Wrappers

  /** `math.ceil(n / d)`, also written `(n + d - 1) // d`. */
  function CeilDiv(n: nat, d: nat): (q: nat)
    requires d > 0
    ensures d * q >= n && d * q < n + d
  {
    (n + d - 1) / d
  }

  /** Multiplying by a positive number keeps a strict gap of at least
      that number. */
  lemma MulGap(d: nat, x: int, y: int)
    requires d > 0
    ensures x < y ==> d * x + d <= d * y
  {
    if x < y {
      var g := y - x - 1;
      assert d * y == d * x + d * g + d;
      assert d * g >= 0;
    }
  }

  /** The quotient is the unique `x` with `d * x <= m < d * x + d`. */
  lemma DivUnique(m: nat, d: nat, x: nat)
    requires d > 0 && d * x <= m < d * x + d
    ensures m / d == x
  {
    var q := m / d;
    assert m == d * q + m % d;
    MulGap(d, q, x);
    MulGap(d, x, q);
  }

  /** A non-empty list is its front followed by its last item. */
  lemma InitLast<T>(xs: seq<T>)
    requires |xs| > 0
    ensures xs[..|xs| - 1] + [xs[|xs| - 1]] == xs
  {
  }

  /** The chunks concatenated back together. */
  function Flatten<T>(chunks: seq<seq<T>>): seq<T>
  {
    if |chunks| == 0 then [] else Flatten(chunks[..|chunks| - 1]) + chunks[|chunks| - 1]
  }

  /** The values of `f` over `xs`, when every call succeeds. */
  function Values<X, Y>(xs: seq<X>, f: X -> Result<Y>): seq<Y>
    requires forall i :: 0 <= i < |xs| ==> f(xs[i]).Ok?
  {
    seq(|xs|, i requires 0 <= i < |xs| => f(xs[i]).value)
  }

  /** A loop that appends the list each item yields and stops at the first
      item that raises: every list, concatenated in order, or that error. */
  function FlatMapAll<X, Y>(xs: seq<X>, f: X -> Result<seq<Y>>): (r: Result<seq<Y>>)
    ensures r.Ok? <==> forall i :: 0 <= i < |xs| ==> f(xs[i]).Ok?
    ensures r.Ok? ==> r.value == Flatten(Values(xs, f))
  {
    if |xs| == 0 then Ok([])
    else
      var init := xs[..|xs| - 1];
      assert forall i :: 0 <= i < |init| ==> init[i] == xs[i];
      var before :- FlatMapAll(init, f);
      var last :- f(xs[|xs| - 1]);
      assert Values(xs, f)[..|xs| - 1] == Values(init, f);
      Ok(before + last)
  }

  lemma {:induction false} FlattenAppend<T>(a: seq<seq<T>>, b: seq<seq<T>>)
    ensures Flatten(a + b) == Flatten(a) + Flatten(b)
    decreases |b|
  {
    if |b| > 0 {
      FlattenAppend(a, b[..|b| - 1]);
      assert (a + b)[..|a + b| - 1] == a + b[..|b| - 1];
    } else {
      assert a + b == a;
    }
  }

  /** `f(xs[0], 0) + f(xs[1], 1) + ...`: one block per element, built with
      the element's index. */
  function ConcatMap<X, E>(xs: seq<X>, f: (X, nat) -> seq<E>): seq<E>
  {
    if |xs| == 0 then [] else ConcatMap(xs[..|xs| - 1], f) + f(xs[|xs| - 1], |xs| - 1)
  }

  /** With blocks of one size `c`, the whole holds `c` items per element. */
  lemma {:induction false} ConcatMapLength<X, E>(xs: seq<X>, f: (X, nat) -> seq<E>, c: nat)
    requires forall x, i :: |f(x, i)| == c
    ensures |ConcatMap(xs, f)| == c * |xs|
  {
    if |xs| > 0 {
      ConcatMapLength(xs[..|xs| - 1], f, c);
      MulSucc(c, |xs| - 1);
    }
  }

  /** With blocks of one size `c`, block `j` sits at `c * j`. */
  lemma {:induction false} ConcatMapAt<X, E>(xs: seq<X>, f: (X, nat) -> seq<E>, c: nat, j: nat)
    requires c > 0 && j < |xs|
    requires forall x, i :: |f(x, i)| == c
    ensures c * j + c <= |ConcatMap(xs, f)|
    ensures ConcatMap(xs, f)[c * j .. c * j + c] == f(xs[j], j)
  {
    var n := |xs| - 1;
    var prefix := ConcatMap(xs[..n], f);
    ConcatMapLength(xs[..n], f, c);
    ConcatMapLength(xs, f, c);
    assert ConcatMap(xs, f) == prefix + f(xs[n], n);
    if j < n {
      ConcatMapAt(xs[..n], f, c, j);
      MulGap(c, j, n);
      assert xs[..n][j] == xs[j];
      SliceInLeft(prefix, f(xs[n], n), c * j, c * j + c);
    } else {
      SliceRight(prefix, f(xs[n], n));
    }
  }

  lemma SliceInLeft<T>(a: seq<T>, b: seq<T>, lo: nat, hi: nat)
    requires lo <= hi <= |a|
    ensures (a + b)[lo..hi] == a[lo..hi]
  {
  }

  lemma SliceRight<T>(a: seq<T>, b: seq<T>)
    ensures (a + b)[|a|..|a| + |b|] == b
  {
  }

  // ---------------------------------------------------------------------
  // Consecutive blocks
  // ---------------------------------------------------------------------

  function Min(a: int, b: int): int
  {
    if a <= b then a else b
  }

  /** `[xs[i:i + size] for i in range(0, len(xs), size)]`. */
  function Consecutive<T>(xs: seq<T>, size: nat): seq<seq<T>>
    requires size > 0
    decreases |xs|
  {
    if |xs| == 0 then []
    else if |xs| <= size then [xs]
    else [xs[..size]] + Consecutive(xs[size..], size)
  }

  /** There are `ceil(n / size)` blocks. */
  lemma {:induction false} ConsecutiveCount<T>(xs: seq<T>, size: nat)
    requires size > 0
    ensures |Consecutive(xs, size)| == CeilDiv(|xs|, size)
    decreases |xs|
  {
    if |xs| == 0 {
      DivUnique(size - 1, size, 0);
    } else if |xs| <= size {
      DivUnique(|xs| + size - 1, size, 1);
    } else {
      ConsecutiveCount(xs[size..], size);
      CeilDivStep(|xs|, size);
    }
  }

  /** Block `j` is `xs[size * j .. min(size * (j + 1), n)]`. */
  lemma {:induction false} ConsecutiveAt<T>(xs: seq<T>, size: nat, j: nat)
    requires size > 0 && j < |Consecutive(xs, size)|
    ensures size * j < |xs| && Consecutive(xs, size)[j] == xs[size * j .. Min(size * (j + 1), |xs|)]
    decreases |xs|
  {
    if |xs| <= size {
      assert Consecutive(xs, size) == [xs];
    } else if j == 0 {
      assert Consecutive(xs, size)[0] == xs[..size];
    } else {
      var rest := xs[size..];
      assert Consecutive(xs, size) == [xs[..size]] + Consecutive(rest, size);
      assert Consecutive(xs, size)[j] == Consecutive(rest, size)[j - 1];
      ConsecutiveAt(rest, size, j - 1);
      BlockShift(xs, size, j);
    }
  }

  /** Block `j - 1` of the list without its first block is block `j` of
      the whole list. */
  lemma BlockShift<T>(xs: seq<T>, size: nat, j: nat)
    requires 0 < size < |xs| && j > 0 && size * (j - 1) < |xs| - size
    ensures size * j < |xs|
    ensures xs[size..][size * (j - 1) .. Min(size * j, |xs| - size)] == xs[size * j .. Min(size * (j + 1), |xs|)]
  {
    MulSucc(size, j - 1);
    MulSucc(size, j);
    var a, m := size * (j - 1), Min(size * j, |xs| - size);
    assert size + a == size * j;
    assert size + m == Min(size * (j + 1), |xs|);
    var lhs, rhs := xs[size..][a..m], xs[size + a..size + m];
    assert |lhs| == |rhs|;
    forall k | 0 <= k < |lhs| ensures lhs[k] == rhs[k] {
      assert lhs[k] == xs[size + a + k];
    }
    assert lhs == rhs;
  }

  lemma MulSucc(size: nat, j: nat)
    ensures size * (j + 1) == size * j + size
  {
  }

  /** Together the blocks are the list again. */
  lemma {:induction false} ConsecutiveFlatten<T>(xs: seq<T>, size: nat)
    requires size > 0
    ensures Flatten(Consecutive(xs, size)) == xs
    decreases |xs|
  {
    var cs := Consecutive(xs, size);
    if |xs| == 0 {
    } else if |xs| <= size {
      assert Flatten(cs) == Flatten(cs[..0]) + xs;
    } else {
      var rest := xs[size..];
      ConsecutiveFlatten(rest, size);
      FlattenAppend([xs[..size]], Consecutive(rest, size));
      assert Flatten([xs[..size]]) == xs[..size] by {
        assert [xs[..size]][..0] == [];
      }
      assert xs == xs[..size] + rest;
    }
  }

  lemma CeilDivStep(n: nat, d: nat)
    requires d > 0 && n > d
    ensures CeilDiv(n, d) == CeilDiv(n - d, d) + 1
  {
    var m := n - d + d - 1;
    var q := m / d;
    assert m == d * q + m % d;
    DivUnique(m + d, d, q + 1);
  }

  // ---------------------------------------------------------------------
  // numpy.array_split
  // ---------------------------------------------------------------------

  /** Where section `i` of `n` items split into `k` sections starts: the
      first `n % k` sections hold `n / k + 1` items, the others `n / k`. */
  function SectionStart(n: nat, k: nat, i: nat): nat
    requires k > 0
  {
    i * (n / k) + Min(i, n % k)
  }

  lemma SectionStartStep(n: nat, k: nat, i: nat)
    requires k > 0
    ensures SectionStart(n, k, i + 1) == SectionStart(n, k, i) + n / k + (if i < n % k then 1 else 0)
  {
    assert (i + 1) * (n / k) == i * (n / k) + n / k;
  }

  lemma {:induction false} SectionStartBounds(n: nat, k: nat, i: nat)
    requires k > 0 && i <= k
    ensures SectionStart(n, k, i) <= SectionStart(n, k, k) == n
    decreases k - i
  {
    if i < k {
      SectionStartStep(n, k, i);
      SectionStartBounds(n, k, i + 1);
    } else {
      assert k * (n / k) + n % k == n;
    }
  }

  /** Section `i` of `np.array_split(xs, k)`. */
  function Section<T>(xs: seq<T>, k: nat, i: nat): (r: seq<T>)
    requires i < k
    ensures |r| == |xs| / k + (if i < |xs| % k then 1 else 0)
  {
    var n := |xs|;
    SectionStartBounds(n, k, i);
    SectionStartBounds(n, k, i + 1);
    SectionStartStep(n, k, i);
    xs[SectionStart(n, k, i)..SectionStart(n, k, i + 1)]
  }

  /** `np.array_split(xs, k)`. */
  function ArraySplit<T>(xs: seq<T>, k: nat): (r: seq<seq<T>>)
    requires k > 0
    ensures |r| == k
    ensures forall i :: 0 <= i < k ==>
      |r[i]| == |xs| / k + (if i < |xs| % k then 1 else 0)
  {
    seq(k, i requires 0 <= i < k => Section(xs, k, i))
  }

  /** The sections, in order, are the list again. */
  lemma ArraySplitFlatten<T>(xs: seq<T>, k: nat)
    requires k > 0
    ensures Flatten(ArraySplit(xs, k)) == xs
  {
    SectionsPrefix(xs, k, k);
    SectionStartBounds(|xs|, k, k);
    assert ArraySplit(xs, k)[..k] == ArraySplit(xs, k);
  }

  lemma {:induction false} SectionsPrefix<T>(xs: seq<T>, k: nat, i: nat)
    requires 0 < k && i <= k
    ensures SectionStart(|xs|, k, i) <= |xs|
    ensures Flatten(ArraySplit(xs, k)[..i]) == xs[..SectionStart(|xs|, k, i)]
  {
    SectionStartBounds(|xs|, k, i);
    if i > 0 {
      var chunks := ArraySplit(xs, k);
      var a := SectionStart(|xs|, k, i - 1);
      var b := SectionStart(|xs|, k, i);
      SectionsPrefix(xs, k, i - 1);
      SectionStartStep(|xs|, k, i - 1);
      FlattenSnoc(chunks, i);
      assert chunks[i - 1] == xs[a..b];
      PrefixSplit(xs, a, b);
    }
  }

  lemma FlattenSnoc<T>(chunks: seq<seq<T>>, i: nat)
    requires 0 < i <= |chunks|
    ensures Flatten(chunks[..i]) == Flatten(chunks[..i - 1]) + chunks[i - 1]
  {
    assert chunks[..i][..i - 1] == chunks[..i - 1];
  }

  lemma PrefixSplit<T>(xs: seq<T>, a: nat, b: nat)
    requires a <= b <= |xs|
    ensures xs[..b] == xs[..a] + xs[a..b]
  {
  }

  lemma MulMonoLe(k: nat, a: int, b: int)
    ensures a <= b ==> k * a <= k * b
  {
    if a <= b {
      assert k * b == k * a + k * (b - a);
      assert k * (b - a) >= 0;
    }
  }

  /** Splitting `n >= 1` items into `ceil(n / size)` sections leaves no
      section larger than `size`, and none empty. */
  lemma SectionsFit(n: nat, size: nat)
    requires n >= 1 && size > 0
    ensures var k := CeilDiv(n, size);
      k >= 1 && n / k + (if n % k > 0 then 1 else 0) <= size && n / k >= 1
  {
    var k := CeilDiv(n, size);
    assert size * k >= n >= 1;
    assert k >= 1;
    var q := n / k;
    var e := n % k;
    assert n == k * q + e;
    MulMonoLe(k, size, q);
    MulGap(k, size, q);
    MulMonoLe(k - 1, 1, size);
    assert size * (k - 1) == size * k - size;
    assert k <= n;
    DivUnique(n, k, q);
  }

  /** `np.array_split(xs, ceil(n / size))`, the way the YouTube services
      cut a list into requests: `ceil(n / size)` chunks, none empty, none
      longer than `size`, balanced, and together the list again. */
  function BalancedChunks<T>(xs: seq<T>, size: nat): (r: seq<seq<T>>)
    requires |xs| >= 1 && size > 0
    ensures |r| == CeilDiv(|xs|, size)
    ensures forall i :: 0 <= i < |r| ==> 1 <= |r[i]| <= size
    ensures forall i :: 0 <= i < |r| ==>
      |r[i]| == |xs| / |r| + (if i < |xs| % |r| then 1 else 0)
    ensures Flatten(r) == xs
  {
    var k := CeilDiv(|xs|, size);
    SectionsFit(|xs|, size);
    ArraySplitFlatten(xs, k);
    ArraySplit(xs, k)
  }
}
