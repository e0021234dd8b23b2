/**
 * The wire formats of `dwframe/bytearray.cc`: fixed-width words in a chosen byte order, base-128
 * varints, ZigZag integers and length-prefixed strings, as functions between values and bytes.
 */
module Codec {
  import opened Words

  // ---- Varints -------------------------------------------------------------------------------

  /** What the loops of `writeUint32` and `writeUint64` leave in `tmp`. */
  function Varint(v: nat): (s: seq<byte>)
    ensures |s| >= 1
  {
    if v < 128 then [v] else [v % 128 + 128] + Varint(v / 128)
  }

  /** `k` bytes are enough exactly for the values below 128^k. */
  lemma {:induction false} VarintLength(v: nat, k: nat)
    requires k >= 1
    ensures |Varint(v)| <= k <==> v < Pow(128, k)
  {
    assert Pow(128, k) == 128 * Pow(128, k - 1);
    if v >= 128 {
      if k == 1 {
        assert Pow(128, 1) == 128 * Pow(128, 0);
      } else {
        VarintLength(v / 128, k - 1);
      }
    }
  }

  /** Number of bytes in a 32-bit or a 64-bit word. */
  function WordBytes(wide: bool): nat { if wide then 8 else 4 }

  /** Number of rounds of the read loops: `i += 7` while `i < 32` or `i < 64`. */
  function Rounds(wide: bool): nat { if wide then 10 else 5 }

  /** How many values a 32-bit or a 64-bit word has. */
  function WordValues(wide: bool): nat { if wide then 0x1_0000_0000_0000_0000 else 0x1_0000_0000 }

  lemma WordPowers()
    ensures Pow(256, 1) == 0x100 && Pow(256, 2) == 0x1_0000
    ensures Pow(256, 4) == 0x1_0000_0000 && Pow(256, 8) == 0x1_0000_0000_0000_0000
  {
    PowAdd(256, 4, 4);
    PowAdd(256, 2, 2);
    assert Pow(256, 2) == 256 * Pow(256, 1) && Pow(256, 1) == 256 * Pow(256, 0);
  }

  lemma WordCovered(wide: bool)
    ensures Pow(256, WordBytes(wide)) == WordValues(wide)
  {
    WordPowers();
  }

  /** Size of the temporary arrays: the encoding of a 32-bit or 64-bit value never overflows them. */
  lemma VarintFits(v: nat)
    ensures |Varint(v)| <= 5 <==> v < 0x8_0000_0000
    ensures |Varint(v)| <= 10 <==> v < 0x40_0000_0000_0000_0000
  {
    assert Pow(128, 5) == 0x8_0000_0000 && Pow(128, 10) == 0x40_0000_0000_0000_0000 by {
      PowAdd(128, 5, 5);
      PowAdd(128, 3, 2);
      PowAdd(128, 2, 1);
      assert Pow(128, 2) == 128 * Pow(128, 1) && Pow(128, 1) == 128 * Pow(128, 0);
    }
    VarintLength(v, 5);
    VarintLength(v, 10);
  }

  lemma WordFits(v: nat, wide: bool)
    requires v < Pow(256, WordBytes(wide))
    ensures |Varint(v)| <= Rounds(wide)
  {
    WordCovered(wide);
    VarintFits(v);
  }

  /** The encoding of 300 in the documentation of the format. */
  lemma VarintOf300()
    ensures Varint(300) == [0xAC, 0x02]
  {
    assert Varint(2) == [2];
  }

  /** Outcome of a read: a value and the number of bytes used, or too few bytes (`used` are gone). */
  datatype Scan<T> = Got(value: T, used: nat) | Short(used: nat)

  /** Bitwise or. */
  function Or(a: nat, b: nat): nat {
    if a == 0 then b else 2 * Or(a / 2, b / 2) + (if a % 2 == 1 || b % 2 == 1 then 1 else 0)
  }

  lemma {:induction false} OrBound(a: nat, b: nat, n: nat)
    requires a < Pow(2, n) && b < Pow(2, n)
    ensures Or(a, b) < Pow(2, n)
  {
    if a > 0 && n > 0 {
      assert Pow(2, n) == 2 * Pow(2, n - 1);
      OrBound(a / 2, b / 2, n - 1);
    }
  }

  /** Where the bits of two numbers are disjoint, or is addition. */
  lemma {:induction false} OrDisjoint(a: nat, c: nat, n: nat)
    requires a < Pow(2, n)
    ensures 0 <= c * Pow(2, n) && Or(a, c * Pow(2, n)) == a + c * Pow(2, n)
  {
    if a > 0 {
      var q := c * Pow(2, n - 1);
      assert c * Pow(2, n) == 2 * q by { MulAssoc(2, c, Pow(2, n - 1)); }
      OrDisjoint(a / 2, c, n - 1);
    }
  }

  lemma {:induction false} SevenBits(k: nat)
    ensures Pow(128, k) == Pow(2, 7 * k)
  {
    if k > 0 {
      SevenBits(k - 1);
      PowAdd(2, 7, 7 * (k - 1));
      assert Pow(2, 7) == 128;
    }
  }

  lemma {:induction false} EightBits(k: nat)
    ensures Pow(256, k) == Pow(2, 8 * k)
  {
    if k > 0 {
      EightBits(k - 1);
      PowAdd(2, 8, 8 * (k - 1));
      assert Pow(2, 8) == 256;
    }
  }

  lemma OrInWord(a: nat, b: nat, wide: bool)
    requires a < Pow(256, WordBytes(wide))
    ensures Or(a, b % Pow(256, WordBytes(wide))) < Pow(256, WordBytes(wide))
  {
    EightBits(WordBytes(wide));
    OrBound(a, b % Pow(256, WordBytes(wide)), 8 * WordBytes(wide));
  }

  /** `result |= (b & 0x7f) << i` in round `k`: the word cuts off what is shifted beyond it. */
  function OrShifted(acc: nat, b: byte, k: nat, wide: bool): (r: nat)
    requires acc < Pow(256, WordBytes(wide))
    ensures r < Pow(256, WordBytes(wide))
  {
    OrInWord(acc, (b % 128) * Pow(128, k), wide);
    Or(acc, (b % 128) * Pow(128, k) % Pow(256, WordBytes(wide)))
  }

  /** The loops of `readUint32` and `readUint64` after `k` rounds with `acc` in `result`. */
  function Unvarint(s: seq<byte>, wide: bool, k: nat, acc: nat): (r: Scan<nat>)
    requires acc < Pow(256, WordBytes(wide))
    ensures r.Got? ==> r.value < Pow(256, WordBytes(wide)) && k <= r.used <= k + |s|
    decreases |s|
  {
    if k >= Rounds(wide) then Got(acc, k)
    else if s == [] then Short(k)
    else
      var acc' := OrShifted(acc, s[0], k, wide);
      if s[0] < 128 then Got(acc', k + 1) else Unvarint(s[1..], wide, k + 1, acc')
  }

  lemma OneByte(v: nat, rest: seq<byte>)
    ensures var s := Varint(v) + rest;
            if v < 128 then Varint(v) == [v] && s[0] == v
            else s[0] == v % 128 + 128 && s[1..] == Varint(v / 128) + rest && |Varint(v)| == 1 + |Varint(v / 128)|
  {
    if v >= 128 { Prepended(v % 128 + 128, Varint(v / 128), rest); }
  }

  lemma Prepended(b: byte, t: seq<byte>, rest: seq<byte>)
    ensures (([b] + t) + rest)[0] == b && (([b] + t) + rest)[1..] == t + rest
  {
  }

  lemma {:induction false} UnvarintFrom(v: nat, rest: seq<byte>, wide: bool, k: nat, acc: nat)
    requires |Varint(v)| + k <= Rounds(wide) && acc < Pow(128, k)
    requires acc + v * Pow(128, k) < Pow(256, WordBytes(wide))
    ensures Unvarint(Varint(v) + rest, wide, k, acc) == Got(acc + v * Pow(128, k), k + |Varint(v)|)
    decreases v
  {
    hide OrShifted, Pow;
    OrRound(v, wide, k, acc);
    OneByte(v, rest);
    hide Varint;
    if v >= 128 {
      var low := (v % 128) * Pow(128, k);
      UnvarintFrom(v / 128, rest, wide, k + 1, acc + low);
    }
  }

  /** One round puts the next seven bits above those already there, within the word. */
  lemma OrRound(v: nat, wide: bool, k: nat, acc: nat)
    requires acc + v * Pow(128, k) < Pow(256, WordBytes(wide)) && acc < Pow(128, k)
    ensures 0 <= (v % 128) * Pow(128, k) && acc + (v % 128) * Pow(128, k) < Pow(128, k + 1)
    ensures forall b: byte :: b % 128 == v % 128 ==> OrShifted(acc, b, k, wide) == acc + (v % 128) * Pow(128, k)
    ensures acc + (v % 128) * Pow(128, k) + (v / 128) * Pow(128, k + 1) == acc + v * Pow(128, k)
  {
    var p, d := Pow(128, k), v % 128;
    SplitDigit(v, p);
    DivMod(0, d * p, Pow(256, WordBytes(wide)));
    SevenBits(k);
    OrDisjoint(acc, d, 7 * k);
    assert d * p <= 127 * p by { MulMono(d, 127, p); }
  }

  lemma MulMono(a: nat, b: nat, p: nat)
    requires a <= b
    ensures a * p <= b * p
  {
  }

  lemma SplitDigit(v: nat, p: nat)
    ensures v * p == (v % 128) * p + (v / 128) * (128 * p)
    ensures 0 <= (v % 128) * p <= v * p
  {
    var q, r := v / 128, v % 128;
    assert v == 128 * q + r;
    assert v * p == (128 * q) * p + r * p;
    assert (128 * q) * p == q * (128 * p);
  }

  /** Reading back an encoded word, whatever follows it, gives the word and uses exactly its bytes. */
  lemma VarintRoundTrip(v: nat, rest: seq<byte>, wide: bool)
    requires v < if wide then 0x1_0000_0000_0000_0000 else 0x1_0000_0000
    ensures Unvarint(Varint(v) + rest, wide, 0, 0) == Got(v, |Varint(v)|)
  {
    WordCovered(wide);
    WordFits(v, wide);
    assert v * Pow(128, 0) == v;
    UnvarintFrom(v, rest, wide, 0, 0);
  }

  /** A text that never ends is cut off after five, or ten, bytes. */
  lemma VarintStops(s: seq<byte>, wide: bool)
    requires |s| >= (if wide then 10 else 5) && forall i :: 0 <= i < |s| ==> s[i] >= 128
    ensures var r := Unvarint(s, wide, 0, 0); r.Got? && r.used == if wide then 10 else 5
  {
    hide OrShifted;
    NeverEnds(s, wide, 0, 0);
  }

  lemma {:induction false} NeverEnds(s: seq<byte>, wide: bool, k: nat, acc: nat)
    requires acc < Pow(256, WordBytes(wide)) && k <= Rounds(wide)
    requires |s| >= Rounds(wide) - k && forall i :: 0 <= i < |s| ==> s[i] >= 128
    ensures Unvarint(s, wide, k, acc).Got? && Unvarint(s, wide, k, acc).used == Rounds(wide)
    decreases Rounds(wide) - k
  {
    hide OrShifted, Pow;
    if k < Rounds(wide) {
      assert forall i :: 0 <= i < |s[1..]| ==> s[1..][i] == s[i + 1];
      NeverEnds(s[1..], wide, k + 1, OrShifted(acc, s[0], k, wide));
    }
  }

  // ---- ZigZag --------------------------------------------------------------------------------

  /** `EncodeZigzag32` and `EncodeZigzag64`: negation, doubling and decrement wrap at the word size. */
  function Zig(n: int, w: nat): (u: nat)
    ensures u < Pow(256, w)
  {
    if n < 0 then (((-n) % Pow(256, w)) * 2 - 1) % Pow(256, w) else (n * 2) % Pow(256, w)
  }

  /** `DecodeZigzag32` and `DecodeZigzag64`: exclusive or with all ones is the complement. */
  function Zag(u: nat, w: nat): int
    requires u < Pow(256, w)
  {
    ToSigned(if u % 2 == 0 then u / 2 else Pow(256, w) - 1 - u / 2, w)
  }

  /** ZigZag is a bijection between the signed and the unsigned words, the extremes included. */
  lemma ZigZagInverse(n: int, w: nat)
    requires w >= 1 && InRange(n, w, true)
    ensures Zig(n, w) == (if n < 0 then -2 * n - 1 else 2 * n)
    ensures Zag(Zig(n, w), w) == n
  {
    var m := Pow(256, w);
    assert m == 256 * Pow(256, w - 1);
    if n < 0 {
      DivMod(0, -n, m);
      DivMod(0, -2 * n - 1, m);
    } else {
      DivMod(0, 2 * n, m);
    }
  }

  lemma ZagZigInverse(u: nat, w: nat)
    requires w >= 1 && u < Pow(256, w)
    ensures InRange(Zag(u, w), w, true)
    ensures Zig(Zag(u, w), w) == u
  {
    assert Pow(256, w) == 256 * Pow(256, w - 1);
    ZigZagInverse(Zag(u, w), w);
  }

  // ---- Typed values --------------------------------------------------------------------------

  /** Which pair of `writeX`/`readX` members is used. `Text` carries the kind of its length field. */
  datatype Kind =
    | Fixed(w: nat, signed: bool)
    | Var(wide: bool, signed: bool)
    | Text(prefix: Kind)

  datatype Value = Num(n: int) | Str(s: seq<byte>)

  predicate IsLength(k: Kind) {
    k == Var(true, false) || (k.Fixed? && !k.signed && k.w in {2, 4, 8})
  }

  /** The member families of the class: F(u)int8..64, (U)int32/64, StringF16/F32/F64/Vint. */
  predicate Offered(k: Kind) {
    match k
    case Fixed(w, _) => w in {1, 2, 4, 8}
    case Var(_, _) => true
    case Text(p) => IsLength(p)
  }

  /** `writeFint8` to `writeUint64`, and the four `writeStringX` with a length. */
  lemma EveryMemberOffered()
    ensures forall w <- {1, 2, 4, 8}, signed: bool :: Offered(Fixed(w, signed))
    ensures forall wide: bool, signed: bool :: Offered(Var(wide, signed))
    ensures Offered(Text(Fixed(2, false))) && Offered(Text(Fixed(4, false))) && Offered(Text(Fixed(8, false)))
    ensures Offered(Text(Var(true, false)))
  {
  }

  /** Word size in bytes of a number kind. */
  function Bytes(k: Kind): nat
    requires !k.Text?
  {
    if k.Fixed? then k.w else WordBytes(k.wide)
  }

  /** The C++ parameter type admits the value (any string is admitted). */
  predicate Typed(k: Kind, v: Value) {
    if k.Text? then v.Str?
    else v.Num? && if k.signed then -(Values(k) / 2) <= v.n < Values(k) / 2 else 0 <= v.n < Values(k)
  }

  /** How many values the parameter type of a number kind has. */
  function Values(k: Kind): nat
    requires !k.Text?
  {
    match k
    case Fixed(w, _) =>
      if w == 1 then 0x100 else if w == 2 then 0x1_0000 else if w == 4 then 0x1_0000_0000 else 0x1_0000_0000_0000_0000
    case Var(wide, _) => if wide then 0x1_0000_0000_0000_0000 else 0x1_0000_0000
  }

  /** The words hold exactly the values of the parameter types. */
  lemma ValuesHeld(k: Kind)
    requires Offered(k) && !k.Text?
    ensures Pow(256, Bytes(k)) == Values(k)
    ensures forall n: int :: InRange(n, Bytes(k), k.signed) <==> Typed(k, Num(n))
  {
    WordPowers();
  }

  /** The length of the string fits its length field. */
  predicate Fits(k: Kind, v: Value)
    requires Offered(k) && Typed(k, v)
  {
    k.Text? ==> |v.s| < Values(k.prefix)
  }

  function NumBytes(order: Endian, k: Kind, n: int): seq<byte>
    requires !k.Text?
  {
    match k
    case Fixed(w, _) => Stored(order, ToUnsigned(n, w), w)
    case Var(wide, true) => Varint(Zig(n, WordBytes(wide)))
    case Var(wide, false) => Varint(ToUnsigned(n, WordBytes(wide)))
  }

  /** The bytes a write of `v` puts at the cursor; a string's length is cut to its field's width. */
  function Encode(order: Endian, k: Kind, v: Value): seq<byte>
    requires Offered(k) && Typed(k, v)
  {
    if k.Text? then NumBytes(order, k.prefix, |v.s|) + v.s else NumBytes(order, k, v.n)
  }

  function ScanNum(order: Endian, k: Kind, s: seq<byte>): (r: Scan<int>)
    requires !k.Text?
    ensures r.Got? ==> r.used <= |s| && (!k.signed ==> r.value >= 0)
  {
    match k
    case Fixed(w, signed) =>
      if |s| < w then Short(0)
      else var u := Loaded(order, s[..w]); Got(if signed then ToSigned(u, w) else u, w)
    case Var(wide, signed) =>
      match Unvarint(s, wide, 0, 0)
      case Short(n) => Short(n)
      case Got(u, n) => Got(if signed then Zag(u, WordBytes(wide)) else u, n)
  }

  /** What a typed read makes of the unread bytes `s`. */
  function Decode(order: Endian, k: Kind, s: seq<byte>): Scan<Value>
    requires Offered(k)
  {
    if !k.Text? then
      match ScanNum(order, k, s)
      case Short(n) => Short(n)
      case Got(x, n) => Got(Num(x), n)
    else
      match ScanNum(order, k.prefix, s)
      case Short(n) => Short(n)
      case Got(len, n) =>
        if len <= |s| - n then Got(Str(s[n..n + len]), n + len) else Short(n)
  }

  lemma FixedRoundTrip(order: Endian, k: Kind, n: int, rest: seq<byte>)
    requires k.Fixed? && InRange(n, k.w, k.signed)
    ensures ScanNum(order, k, NumBytes(order, k, n) + rest) == Got(n, k.w)
  {
    var s := NumBytes(order, k, n) + rest;
    assert s[..k.w] == NumBytes(order, k, n);
    SignedRoundTrip(n, k.w, k.signed);
    SwapIndependentOfHost(order, order, ToUnsigned(n, k.w), k.w);
  }

  lemma VarRoundTrip(order: Endian, k: Kind, n: int, rest: seq<byte>)
    requires k.Var? && InRange(n, Bytes(k), k.signed)
    ensures ScanNum(order, k, NumBytes(order, k, n) + rest) == Got(n, |NumBytes(order, k, n)|)
  {
    if k.signed {
      ZigZagInverse(n, Bytes(k));
      WordCovered(k.wide);
      VarintRoundTrip(Zig(n, Bytes(k)), rest, k.wide);
    } else {
      WordCovered(k.wide);
      DivMod(0, n, Pow(256, Bytes(k)));
      VarintRoundTrip(n, rest, k.wide);
    }
  }

  lemma NumRoundTrip(order: Endian, k: Kind, n: int, rest: seq<byte>)
    requires !k.Text? && InRange(n, Bytes(k), k.signed)
    ensures ScanNum(order, k, NumBytes(order, k, n) + rest) == Got(n, |NumBytes(order, k, n)|)
  {
    if k.Fixed? { FixedRoundTrip(order, k, n, rest); } else { VarRoundTrip(order, k, n, rest); }
  }

  /** Reading back one value of any kind, whatever follows it. */
  lemma ValueRoundTrip(order: Endian, k: Kind, v: Value, rest: seq<byte>)
    requires Offered(k) && Typed(k, v) && Fits(k, v)
    ensures Decode(order, k, Encode(order, k, v) + rest) == Got(v, |Encode(order, k, v)|)
  {
    if k.Text? {
      ValuesHeld(k.prefix);
      var head := NumBytes(order, k.prefix, |v.s|);
      assert Encode(order, k, v) + rest == head + (v.s + rest);
      NumRoundTrip(order, k.prefix, |v.s|, v.s + rest);
      assert (head + (v.s + rest))[|head|..|head| + |v.s|] == v.s;
    } else {
      ValuesHeld(k);
      NumRoundTrip(order, k, v.n, rest);
    }
  }

  /** The length field keeps the length modulo its width: a string comes back exactly when it fits. */
  lemma TextRoundTripExactly(order: Endian, k: Kind, s: seq<byte>)
    requires Offered(k) && k.Text?
    ensures Decode(order, k, Encode(order, k, Str(s))) == Got(Str(s), |Encode(order, k, Str(s))|)
            <==> |s| < Values(k.prefix)
  {
    if |s| < Values(k.prefix) {
      ValueRoundTrip(order, k, Str(s), []);
      assert Encode(order, k, Str(s)) + [] == Encode(order, k, Str(s));
    } else {
      LengthWraps(order, k.prefix, s);
    }
  }

  /** A length that does not fit is written, and read back, modulo the field's width. */
  lemma LengthWraps(order: Endian, p: Kind, s: seq<byte>)
    requires IsLength(p)
    ensures var cut := |s| % Values(p);
            ScanNum(order, p, NumBytes(order, p, |s|) + s) == Got(cut, |NumBytes(order, p, |s|)|)
  {
    var cut := |s| % Values(p);
    CutAlike(order, p, |s|);
    ValuesHeld(p);
    hide NumBytes, ScanNum, Pow;
    NumRoundTrip(order, p, cut, s);
  }

  /** A number is written as what its word keeps of it. */
  lemma CutAlike(order: Endian, p: Kind, n: nat)
    requires IsLength(p)
    ensures NumBytes(order, p, n) == NumBytes(order, p, n % Values(p))
  {
    hide Pow, Stored, Varint;
    ValuesHeld(p);
    CutTwice(n, Values(p));
  }

  lemma CutTwice(n: nat, m: nat)
    requires m > 0
    ensures n % m < m && (n % m) % m == n % m
  {
    DivMod(0, n % m, m);
  }
}
