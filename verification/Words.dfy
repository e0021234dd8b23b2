/** Bytes, powers and the two byte orders of `dwframe/endian.h`. */
module Words {

  type byte = n: nat | n < 256

  datatype Endian = Little | Big

  /** `b` to the power `k`. */
  function Pow(b: nat, k: nat): (r: nat)
    ensures b >= 1 ==> r >= 1
  {
    if k == 0 then 1 else b * Pow(b, k - 1)
  }

  lemma {:induction false} PowAdd(b: nat, j: nat, k: nat)
    ensures Pow(b, j + k) == Pow(b, j) * Pow(b, k)
  {
    if j > 0 {
      PowAdd(b, j - 1, k);
      MulAssoc(b, Pow(b, j - 1), Pow(b, k));
    }
  }

  lemma MulAssoc(a: int, b: int, c: int)
    ensures a * (b * c) == (a * b) * c
  {
  }

  lemma SmallMultiple(d: int, b: nat)
    requires -(b as int) < d * b < b
    ensures d == 0
  {
  }

  /** The quotient and remainder of a number given in the form `q * b + r`. */
  lemma DivMod(q: int, r: nat, b: nat)
    requires r < b
    ensures (q * b + r) / b == q && (q * b + r) % b == r
  {
    var n := q * b + r;
    var q', r' := n / b, n % b;
    assert n == q' * b + r';
    assert (q - q') * b == q * b - q' * b;
    SmallMultiple(q - q', b);
  }

  /** The low `w` bytes of `v`, least significant first: how a little-endian host stores it. */
  function LittleBytes(v: nat, w: nat): (s: seq<byte>)
    ensures |s| == w
  {
    if w == 0 then [] else [v % 256] + LittleBytes(v / 256, w - 1)
  }

  /** The number a little-endian host reads from `s`. */
  function FromLittle(s: seq<byte>): nat {
    if s == [] then 0 else s[0] + 256 * FromLittle(s[1..])
  }

  function Reverse<T>(s: seq<T>): (r: seq<T>)
    ensures |r| == |s|
    ensures forall i :: 0 <= i < |s| ==> r[i] == s[|s| - 1 - i]
  {
    if s == [] then [] else Reverse(s[1..]) + [s[0]]
  }

  /** `bswap_16`, `bswap_32` and `bswap_64`: the lowest byte becomes the highest, and so on. */
  function ByteSwap(v: nat, w: nat): nat {
    if w == 0 then 0 else (v % 256) * Pow(256, w - 1) + ByteSwap(v / 256, w - 1)
  }

  /** The bytes a host of the given order has in memory for a `w`-byte word. */
  function Stored(order: Endian, v: nat, w: nat): (s: seq<byte>)
    ensures |s| == w
  {
    if order.Little? then LittleBytes(v, w) else Reverse(LittleBytes(v, w))
  }

  /** The word a host of the given order loads from memory. */
  function Loaded(order: Endian, s: seq<byte>): nat {
    if order.Little? then FromLittle(s) else FromLittle(Reverse(s))
  }

  lemma DivTwice(v: nat, p: nat)
    requires p >= 1
    ensures v / (256 * p) == (v / 256) / p
  {
    var a, b := v / 256, v % 256;
    var c, d := a / p, a % p;
    assert v == 256 * (p * c + d) + b;
    MulAssoc(256, p, c);
    DivMod(c, 256 * d + b, 256 * p);
  }

  lemma {:induction false} LittleByte(v: nat, w: nat, i: nat)
    requires i < w
    ensures LittleBytes(v, w)[i] == v / Pow(256, i) % 256
  {
    if i > 0 {
      LittleByte(v / 256, w - 1, i - 1);
      DivTwice(v, Pow(256, i - 1));
    }
  }

  /** Which byte of a word comes where: the highest first, or the lowest. */
  lemma StoredByte(v: nat, w: nat, i: nat)
    requires i < w
    ensures Stored(Big, v, w)[i] == v / Pow(256, w - 1 - i) % 256
    ensures Stored(Little, v, w)[i] == v / Pow(256, i) % 256
  {
    LittleByte(v, w, i);
    LittleByte(v, w, w - 1 - i);
  }

  lemma ReverseTwice<T>(s: seq<T>)
    ensures Reverse(Reverse(s)) == s
  {
  }

  lemma {:induction false} FromLittleBytes(v: nat, w: nat)
    requires v < Pow(256, w)
    ensures FromLittle(LittleBytes(v, w)) == v
  {
    if w > 0 {
      var s := LittleBytes(v, w);
      assert s[1..] == LittleBytes(v / 256, w - 1);
      assert v / 256 < Pow(256, w - 1);
      FromLittleBytes(v / 256, w - 1);
    }
  }

  lemma {:induction false} FromLittleBound(s: seq<byte>)
    ensures FromLittle(s) < Pow(256, |s|)
  {
    if s != [] { FromLittleBound(s[1..]); }
  }

  lemma {:induction false} LittleFrom(s: seq<byte>)
    ensures LittleBytes(FromLittle(s), |s|) == s
  {
    if s != [] {
      var rest := FromLittle(s[1..]);
      assert FromLittle(s) == s[0] + 256 * rest;
      LittleFrom(s[1..]);
      assert LittleBytes(s[0] + 256 * rest, |s|) == [s[0]] + LittleBytes(rest, |s| - 1);
    }
  }

  lemma {:induction false} FromLittleAppend(s: seq<byte>, b: byte)
    ensures FromLittle(s + [b]) == FromLittle(s) + b * Pow(256, |s|)
  {
    if s == [] {
      assert s + [b] == [b];
      assert FromLittle([b]) == b + 256 * FromLittle([b][1..]);
    } else {
      assert (s + [b])[1..] == s[1..] + [b];
      FromLittleAppend(s[1..], b);
      MulAssoc(256, b, Pow(256, |s| - 1));
      MulAssoc(b, 256, Pow(256, |s| - 1));
    }
  }

  lemma {:induction false} SwapValue(v: nat, w: nat)
    ensures ByteSwap(v, w) == FromLittle(Reverse(LittleBytes(v, w)))
  {
    if w > 0 {
      SwapValue(v / 256, w - 1);
      var rest := LittleBytes(v / 256, w - 1);
      assert LittleBytes(v, w) == [v % 256] + rest && ([v % 256] + rest)[1..] == rest;
      FromLittleAppend(Reverse(rest), v % 256);
      assert Reverse(LittleBytes(v, w)) == Reverse(rest) + [v % 256];
    }
  }

  /** A byte swap reverses the stored bytes. */
  lemma SwapReverses(v: nat, w: nat)
    ensures ByteSwap(v, w) < Pow(256, w)
    ensures LittleBytes(ByteSwap(v, w), w) == Reverse(LittleBytes(v, w))
    ensures ByteSwap(v, w) == FromLittle(Reverse(LittleBytes(v, w)))
  {
    SwapValue(v, w);
    LittleFrom(Reverse(LittleBytes(v, w)));
    FromLittleBound(Reverse(LittleBytes(v, w)));
  }

  /**
   * Swapping exactly when the wanted order is not the host's puts the bytes in the wanted order,
   * and undoing the swap on the way back gives the word again: the result does not depend on the host.
   */
  lemma SwapIndependentOfHost(want: Endian, host: Endian, v: nat, w: nat)
    requires v < Pow(256, w)
    ensures Stored(host, if want == host then v else ByteSwap(v, w), w) == Stored(want, v, w)
    ensures var x := Loaded(host, Stored(want, v, w));
            x < Pow(256, w) && (if want == host then x else ByteSwap(x, w)) == v
  {
    var s := LittleBytes(v, w);
    FromLittleBytes(v, w);
    SwapReverses(v, w);
    ReverseTwice(s);
    LittleFrom(Reverse(s));
    FromLittleBound(Reverse(s));
    SwapReverses(FromLittle(Reverse(s)), w);
  }

  /** The two's complement image of `n` in `w` bytes. */
  function ToUnsigned(n: int, w: nat): (u: nat)
    ensures u < Pow(256, w)
  {
    n % Pow(256, w)
  }

  /** The signed reading of a `w`-byte word. */
  function ToSigned(u: nat, w: nat): int {
    if 2 * u < Pow(256, w) then u else u - Pow(256, w)
  }

  predicate InRange(n: int, w: nat, signed: bool) {
    if signed then -(Pow(256, w) as int) <= 2 * n < Pow(256, w) else 0 <= n < Pow(256, w)
  }

  lemma SignedRoundTrip(n: int, w: nat, signed: bool)
    requires InRange(n, w, signed)
    ensures var u := ToUnsigned(n, w); (if signed then ToSigned(u, w) else u) == n
  {
    var m := Pow(256, w);
    if n < 0 {
      DivMod(-1, n + m, m);
    } else {
      DivMod(0, n, m);
    }
  }
}
