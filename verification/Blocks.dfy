/** Flat memory as a concatenation of equal blocks, and how a patch inside one block looks from outside. */
module Blocks {
  import opened Words

  function Concat<T>(bs: seq<seq<T>>): seq<T> {
    if bs == [] then [] else bs[0] + Concat(bs[1..])
  }

  predicate Uniform<T>(bs: seq<seq<T>>, b: nat) {
    forall i :: 0 <= i < |bs| ==> |bs[i]| == b
  }

  /** `m` with the bytes from `p` on replaced by `d`. */
  function Patch<T>(m: seq<T>, p: nat, d: seq<T>): (r: seq<T>)
    requires p + |d| <= |m|
    ensures |r| == |m|
  {
    m[..p] + d + m[p + |d|..]
  }

  lemma NoPatch<T>(m: seq<T>, p: nat, d: seq<T>)
    requires p <= |m| && d == []
    ensures Patch(m, p, d) == m
  {
  }

  /** What a write of `d` at `p` makes of a flat sequence: it overwrites and, at the end, appends. */
  function Overlay<T>(s: seq<T>, p: nat, d: seq<T>): (r: seq<T>)
    requires p <= |s|
    ensures |r| == if p + |d| > |s| then p + |d| else |s|
  {
    s[..p] + d + (if p + |d| > |s| then [] else s[p + |d|..])
  }

  lemma PatchTwice<T>(m: seq<T>, p: nat, a: seq<T>, b: seq<T>)
    requires p + |a| + |b| <= |m|
    ensures Patch(Patch(m, p, a), p + |a|, b) == Patch(m, p, a + b)
  {
  }

  lemma OverlayTwice<T>(s: seq<T>, p: nat, a: seq<T>, b: seq<T>)
    requires p <= |s|
    ensures Overlay(Overlay(s, p, a), p + |a|, b) == Overlay(s, p, a + b)
  {
  }

  lemma PatchGrown<T>(m: seq<T>, big: seq<T>, p: nat, d: seq<T>)
    requires m <= big && p <= |m| && p + |d| <= |big|
    ensures var r := Patch(big, p, d); Patch(m + r[|m|..], p, d) == r
  {
  }

  /** Patching with the slices of `d` one after the other. */
  lemma PatchSlices<T>(m: seq<T>, p: nat, d: seq<T>, i: nat, n: nat)
    requires p + |d| <= |m| && i + n <= |d|
    ensures Patch(Patch(m, p, d[..i]), p + i, d[i..i + n]) == Patch(m, p, d[..i + n])
  {
    assert d[..i] + d[i..i + n] == d[..i + n];
  }

  lemma SliceGrows<T>(m: seq<T>, p: nat, i: nat, n: nat)
    requires p + i + n <= |m|
    ensures m[p..][..i] + m[p + i..][..n] == m[p..][..i + n]
  {
  }

  lemma TailSlices<T>(s: seq<T>, n: nat, len: nat)
    requires n + len <= |s|
    ensures s[n..][..len] == s[n..n + len] && s[n..][len..] == s[n + len..]
  {
  }

  /** Consuming a sequence in two steps. */
  lemma TakeMore<T>(s: seq<T>, i: nat, n: nat)
    requires i + n <= |s|
    ensures s[..i] + s[i..][..n] == s[..i + n] && s[i..][n..] == s[i + n..]
  {
  }

  /** The next `n` bytes, seen in the memory and in the part up to `size`. */
  lemma NextBytes<T>(m: seq<T>, p: nat, size: nat, n: nat)
    requires p + n <= size <= |m|
    ensures m[p..size][..n] == m[p..][..n] && m[p..size][n..] == m[p + n..size]
  {
  }

  lemma PatchEnds<T>(m: seq<T>, p: nat, d: seq<T>)
    requires p + |d| <= |m|
    ensures Patch(m, p, d[..0]) == m && Patch(m, p, d[..|d|]) == Patch(m, p, d)
  {
    assert d[..|d|] == d;
  }

  /** Seen through the logical size, a patch of the memory is an overlay of the data. */
  lemma PatchIsOverlay<T>(m: seq<T>, ext: seq<T>, size: nat, p: nat, d: seq<T>)
    requires p <= size <= |m| && p + |d| <= |m + ext|
    ensures var size' := if p + |d| > size then p + |d| else size;
            Patch(m + ext, p, d)[..size'] == Overlay(m[..size], p, d)
  {
  }

  /** Offset of the first byte of block `k`: `k * b`, in a form without products. */
  function Offset(k: nat, b: nat): nat {
    if k == 0 then 0 else Offset(k - 1, b) + b
  }

  lemma {:induction false} OffsetIsProduct(k: nat, b: nat)
    ensures Offset(k, b) == k * b
  {
    if k > 0 { OffsetIsProduct(k - 1, b); }
  }

  lemma {:induction false} OffsetMono(k: nat, n: nat, b: nat)
    requires k < n
    ensures Offset(k, b) + b <= Offset(n, b)
  {
    if k < n - 1 { OffsetMono(k, n - 1, b); }
  }

  /** The number of blocks of size `b` that hold `n` bytes: `ceil(n / b)`. */
  method BlockCount(n: nat, b: nat) returns (c: nat)
    requires b >= 1
    ensures n <= Offset(c, b) < n + b
  {
    c := (n + b - 1) / b;
    OffsetIsProduct(c, b);
    assert c * b + (n + b - 1) % b == n + b - 1;
  }

  /** The block and the place inside it, as the code computes them. */
  lemma Locate(p: nat, k: nat, b: nat)
    requires Offset(k, b) <= p < Offset(k, b) + b
    ensures p / b == k && p % b == p - Offset(k, b)
  {
    OffsetIsProduct(k, b);
    DivMod(k, p - Offset(k, b), b);
  }

  lemma {:induction false} ConcatLength<T>(bs: seq<seq<T>>, b: nat)
    requires Uniform(bs, b)
    ensures |Concat(bs)| == Offset(|bs|, b)
  {
    if bs != [] {
      ConcatLength(bs[1..], b);
    }
  }

  lemma {:induction false} ConcatAppend<T>(xs: seq<seq<T>>, ys: seq<seq<T>>)
    ensures Concat(xs + ys) == Concat(xs) + Concat(ys)
  {
    if xs == [] {
      assert xs + ys == ys;
    } else {
      assert (xs + ys)[1..] == xs[1..] + ys;
      ConcatAppend(xs[1..], ys);
    }
  }

  lemma ConcatPrefix<T>(xs: seq<seq<T>>, ys: seq<seq<T>>)
    requires xs <= ys
    ensures Concat(xs) <= Concat(ys)
  {
    ConcatAppend(xs, ys[|xs|..]);
    assert ys == xs + ys[|xs|..];
  }

  /** The three parts of a concatenation around block `k`. */
  lemma ConcatSplit<T>(bs: seq<seq<T>>, b: nat, k: nat)
    requires Uniform(bs, b) && k < |bs|
    ensures Concat(bs) == Concat(bs[..k]) + bs[k] + Concat(bs[k + 1..])
    ensures |Concat(bs[..k])| == Offset(k, b)
  {
    assert bs == bs[..k] + bs[k..];
    ConcatAppend(bs[..k], bs[k..]);
    ConcatLength(bs[..k], b);
    assert bs[k..][1..] == bs[k + 1..];
  }

  lemma ConcatReplace<T>(bs: seq<seq<T>>, b: nat, k: nat, x: seq<T>)
    requires Uniform(bs, b) && k < |bs| && |x| == b
    ensures Concat(bs[k := x]) == Concat(bs[..k]) + x + Concat(bs[k + 1..])
  {
    var cs := bs[k := x];
    ConcatSplit(cs, b, k);
    assert cs[..k] == bs[..k] && cs[k + 1..] == bs[k + 1..];
  }

  lemma ConcatSlice<T>(bs: seq<seq<T>>, b: nat, k: nat, lo: nat, hi: nat)
    requires Uniform(bs, b) && k < |bs| && lo <= hi <= b
    ensures Offset(k, b) + hi <= |Concat(bs)|
    ensures Concat(bs)[Offset(k, b) + lo..Offset(k, b) + hi] == bs[k][lo..hi]
  {
    ConcatSplit(bs, b, k);
  }

  lemma PatchMiddle<T>(a: seq<T>, m: seq<T>, c: seq<T>, lo: nat, d: seq<T>)
    requires lo + |d| <= |m|
    ensures Patch(a + m + c, |a| + lo, d) == a + Patch(m, lo, d) + c
  {
  }

  lemma ConcatPatch<T>(bs: seq<seq<T>>, b: nat, k: nat, lo: nat, d: seq<T>)
    requires Uniform(bs, b) && k < |bs| && lo + |d| <= b
    ensures Offset(k, b) + lo + |d| <= |Concat(bs)|
    ensures Concat(bs[k := Patch(bs[k], lo, d)]) == Patch(Concat(bs), Offset(k, b) + lo, d)
  {
    hide Concat, Patch;
    ConcatSplit(bs, b, k);
    ConcatReplace(bs, b, k, Patch(bs[k], lo, d));
    PatchMiddle(Concat(bs[..k]), bs[k], Concat(bs[k + 1..]), lo, d);
  }
}
