/** Sequences cut into consecutive batches and glued back together. */
module Seqs {

  /** Concatenation of a sequence of sequences, in order. */
  function Concat<T>(xss: seq<seq<T>>): seq<T>
  {
    if |xss| == 0 then [] else Concat(xss[..|xss| - 1]) + xss[|xss| - 1]
  }

  lemma {:induction false} ConcatAppend<T>(a: seq<seq<T>>, b: seq<seq<T>>)
    ensures Concat(a + b) == Concat(a) + Concat(b)
    decreases |b|
  {
    if |b| == 0 {
      assert a + b == a;
    } else {
      var b' := b[..|b| - 1];
      assert (a + b)[..|a + b| - 1] == a + b';
      ConcatAppend(a, b');
    }
  }

  lemma ConcatSingle<T>(x: seq<T>)
    ensures Concat([x]) == x
  {
    assert [x][..0] == [];
  }

  /** The parts the loop has gathered so far, one more. */
  lemma ConcatSnoc<T>(parts: seq<seq<T>>, i: nat)
    requires i < |parts|
    ensures Concat(parts[..i + 1]) == Concat(parts[..i]) + parts[i]
  {
    assert parts[..i + 1][..i] == parts[..i];
  }

  lemma {:induction false} ConcatLength<T>(xss: seq<seq<T>>, n: nat)
    requires forall i | 0 <= i < |xss| :: |xss[i]| <= n
    ensures |Concat(xss)| <= n * |xss|
    decreases |xss|
  {
    if |xss| > 0 {
      ConcatLength(xss[..|xss| - 1], n);
    }
  }

  lemma {:induction false} ConcatMember<T>(xss: seq<seq<T>>, x: T)
    ensures x in Concat(xss) <==> exists i | 0 <= i < |xss| :: x in xss[i]
    decreases |xss|
  {
    if |xss| > 0 {
      var init := xss[..|xss| - 1];
      ConcatMember(init, x);
      if x in Concat(init) {
        var i :| 0 <= i < |init| && x in init[i];
        assert xss[i] == init[i];
      }
      if exists i | 0 <= i < |xss| :: x in xss[i] {
        var i :| 0 <= i < |xss| && x in xss[i];
        if i < |xss| - 1 { assert init[i] == xss[i]; }
      }
    }
  }

  /** `xs` cut into consecutive slices of `size` elements, the last one possibly
      shorter: the slices `xs[i:i+size]` for `i in range(0, len(xs), size)`. */
  function Chunks<T>(xs: seq<T>, size: nat): (r: seq<seq<T>>)
    requires size > 0
    ensures forall i | 0 <= i < |r| :: 0 < |r[i]| <= size
    decreases |xs|
  {
    if |xs| == 0 then []
    else if |xs| <= size then [xs]
    else [xs[..size]] + Chunks(xs[size..], size)
  }

  /** `set(xs)`. */
  function Elements<T>(xs: seq<T>): set<T> {
    set x | x in xs
  }

  lemma ElementsAppend<T>(a: seq<T>, b: seq<T>)
    ensures Elements(a + b) == Elements(a) + Elements(b)
  {
  }

  function Min(a: int, b: int): int { if a <= b then a else b }

  /** `xs[:n]`: the first `n` elements, or all of them when there are fewer. */
  function Take<T>(xs: seq<T>, n: nat): (r: seq<T>)
    ensures |r| == Min(n, |xs|) && r == xs[..|r|]
  {
    xs[..Min(n, |xs|)]
  }

  lemma MulAtLeast(d: int, s: nat)
    requires d >= 1
    ensures d * s >= s
  {
    var e := d - 1;
    assert d * s == e * s + s;
    assert e * s >= 0;
  }

  lemma DivUnique(x: int, s: nat, a: int, r: int)
    requires s > 0 && 0 <= r < s && x == a * s + r
    ensures x / s == a
  {
    var a', r' := x / s, x % s;
    assert x == a' * s + r';
    assert (a - a') * s == r' - r;
    if a - a' >= 1 { MulAtLeast(a - a', s); }
    if a' - a >= 1 { MulAtLeast(a' - a, s); }
  }

  /** The number of batches is the ceiling of |xs| / size. */
  lemma {:induction false} ChunksCount<T>(xs: seq<T>, size: nat)
    requires size > 0
    ensures |Chunks(xs, size)| == (|xs| + size - 1) / size
    decreases |xs|
  {
    if |xs| == 0 {
      DivUnique(size - 1, size, 0, size - 1);
    } else if |xs| <= size {
      DivUnique(|xs| + size - 1, size, 1, |xs| - 1);
    } else {
      var n' := |xs| - size;
      ChunksCount(xs[size..], size);
      var q, r := (n' + size - 1) / size, (n' + size - 1) % size;
      assert n' + size - 1 == q * size + r;
      assert |xs| + size - 1 == (q + 1) * size + r;
      DivUnique(|xs| + size - 1, size, q + 1, r);
    }
  }

  lemma MulStep(k: nat, size: nat)
    requires k > 0
    ensures k * size == (k - 1) * size + size
  {
  }

  /** Batch `k` is the slice of `xs` that starts at `k * size`. */
  lemma {:induction false} ChunkAt<T>(xs: seq<T>, size: nat, k: nat)
    requires size > 0 && k < |Chunks(xs, size)|
    ensures k * size < |xs|
    ensures Chunks(xs, size)[k] == xs[k * size .. Min(k * size + size, |xs|)]
    decreases |xs|
  {
    if k > 0 {
      assert |xs| > size;
      var rest := xs[size..];
      assert Chunks(xs, size) == [xs[..size]] + Chunks(rest, size);
      assert Chunks(xs, size)[k] == Chunks(rest, size)[k - 1];
      ChunkAt(rest, size, k - 1);
      var j := (k - 1) * size;
      MulStep(k, size);
      var hi := Min(j + size, |rest|);
      assert hi + size == Min(k * size + size, |xs|);
      assert rest[j..hi] == xs[j + size .. hi + size];
    }
  }

  lemma PrefixSnoc<T>(s: seq<T>, k: nat)
    requires k < |s|
    ensures s[..k + 1] == s[..k] + [s[k]]
  {
  }

  /** One step of the loop `for i in range(0, len(xs), size)`: the batches of
      `xs[i..]` are the slice at `i` followed by the batches of what remains. */
  lemma ChunksStep<T>(xs: seq<T>, size: nat, i: nat)
    requires size > 0 && i < |xs|
    ensures Chunks(xs[i..], size) == [xs[i..Min(i + size, |xs|)]] + Chunks(xs[Min(i + size, |xs|)..], size)
  {
    var rest := xs[i..];
    if |rest| > size {
      assert rest[..size] == xs[i..i + size];
      assert rest[size..] == xs[i + size..];
    } else {
      assert Min(i + size, |xs|) == |xs|;
      assert xs[i..|xs|] == rest;
      assert Chunks(xs[|xs|..], size) == [];
      assert Chunks(rest, size) == [rest];
    }
  }

  /** The loop `for i in range(0, len(xs), size): xs[i:i+size]`. */
  method SplitChunks<T>(xs: seq<T>, size: nat) returns (batches: seq<seq<T>>)
    requires size > 0
    ensures batches == Chunks(xs, size)
  {
    batches := [];
    var i := 0;
    while i < |xs|
      invariant 0 <= i <= |xs|
      invariant Chunks(xs, size) == batches + Chunks(xs[i..], size)
      decreases |xs| - i
    {
      var hi := Min(i + size, |xs|);
      ChunksStep(xs, size, i);
      assert batches + Chunks(xs[i..], size) == (batches + [xs[i..hi]]) + Chunks(xs[hi..], size);
      batches := batches + [xs[i..hi]];
      i := hi;
    }
    assert batches + Chunks(xs[|xs|..], size) == batches;
  }

  /** Glued back together, the batches give `xs`, in order. */
  lemma {:induction false} ChunksConcat<T>(xs: seq<T>, size: nat)
    requires size > 0
    ensures Concat(Chunks(xs, size)) == xs
    decreases |xs|
  {
    if |xs| == 0 {
    } else if |xs| <= size {
      ConcatSingle(xs);
    } else {
      ChunksConcat(xs[size..], size);
      ConcatAppend([xs[..size]], Chunks(xs[size..], size));
      ConcatSingle(xs[..size]);
      assert xs == xs[..size] + xs[size..];
    }
  }

  /** Every batch but the last is full. */
  lemma {:induction false} ChunksFull<T>(xs: seq<T>, size: nat, k: nat)
    requires size > 0 && k + 1 < |Chunks(xs, size)|
    ensures |Chunks(xs, size)[k]| == size
    decreases |xs|
  {
    if k > 0 {
      ChunksFull(xs[size..], size, k - 1);
    }
  }
}
