/**
 * The typed `writeX`/`readX` members of `dwframe/bytearray.cc`, on top of `write` and `read`, and the
 * round trip of a whole stream of mixed values.
 */
module TypedBuffer {
  import opened Words
  import opened Blocks
  import opened Codec
  import opened Buffers

  /** `writeUint32` and `writeUint64` fill a temporary array; five or ten places suffice. */
  method VarintBytes(v: nat, wide: bool) returns (s: seq<byte>)
    requires v < Pow(256, WordBytes(wide))
    ensures s == Varint(v)
  {
    WordFits(v, wide);
    var tmp := new byte[Rounds(wide)];
    var i, value := 0, v;
    while value >= 0x80
      invariant i + |Varint(value)| <= tmp.Length
      invariant tmp[..i] + Varint(value) == Varint(v)
    {
      tmp[i] := value % 128 + 128;
      assert tmp[..i + 1] == tmp[..i] + [value % 128 + 128];
      i := i + 1;
      value := value / 128;
    }
    tmp[i] := value;
    assert tmp[..i + 1] == tmp[..i] + [value];
    s := tmp[..i + 1];
  }

  /** What `write` promises about data, cursor, size and capacity. */
  twostate predicate Written(ba: ByteArray, bytes: seq<byte>)
    reads ba
  {
    && old(ba.position <= |ba.Data()|)
    && ba.position == old(ba.position) + |bytes|
    && ba.Data() == Overlay(old(ba.Data()), old(ba.position), bytes)
    && |ba.Data()| == ba.size
    && (ba.capacity == old(ba.capacity)
        || old(ba.capacity) < ba.position <= ba.capacity < ba.position + ba.baseSize)
    && ba.endian == old(ba.endian)
  }

  /**
   * The bytes a number writer hands to `write`: the word is swapped when the wanted order is not the
   * host's and then taken as the host stores it. The result does not depend on the host.
   */
  method NumToBytes(want: Endian, host: Endian, k: Kind, n: int) returns (bytes: seq<byte>)
    requires !k.Text?
    ensures bytes == NumBytes(want, k, n)
  {
    match k
    case Fixed(w, _) =>
      var u := ToUnsigned(n, w);
      SwapIndependentOfHost(want, host, u, w);
      if want != host {
        u := ByteSwap(u, w);
      }
      bytes := Stored(host, u, w);
    case Var(wide, signed) =>
      var u := if signed then Zig(n, WordBytes(wide)) else ToUnsigned(n, WordBytes(wide));
      bytes := VarintBytes(u, wide);
  }

  method Put(ba: ByteArray, bytes: seq<byte>)
    requires ba.Valid()
    modifies ba, ba.Repr
    ensures ba.Valid() && fresh(ba.Repr - old(ba.Repr)) && old(ba.Repr) <= ba.Repr
    ensures Written(ba, bytes)
  {
    hide Overlay, Patch;
    ghost var m, size, p := ba.Memory(), ba.size, ba.position;
    ba.Write(bytes);
    PatchIsOverlay(m, ba.Memory()[|m|..], size, p, bytes);
  }

  /** Two writes in a row are one write of both. */
  method PutBoth(ba: ByteArray, head: seq<byte>, tail: seq<byte>)
    requires ba.Valid()
    modifies ba, ba.Repr
    ensures ba.Valid() && fresh(ba.Repr - old(ba.Repr)) && old(ba.Repr) <= ba.Repr
    ensures Written(ba, head + tail)
  {
    ba.MemoryLength();
    OverlayTwice(ba.Data(), ba.position, head, tail);
    hide ByteArray.Valid, Overlay;
    Put(ba, head);
    Put(ba, tail);
  }

  /** `writeFint8` to `writeFuint64`, `writeInt32` to `writeUint64` and the five string writers. */
  method WriteValue(ba: ByteArray, k: Kind, v: Value)
    requires ba.Valid() && Offered(k) && Typed(k, v)
    modifies ba, ba.Repr
    ensures ba.Valid() && fresh(ba.Repr - old(ba.Repr)) && old(ba.Repr) <= ba.Repr
    ensures Written(ba, Encode(old(ba.endian), k, v))
  {
    if k.Text? {
      var head := NumToBytes(ba.endian, ba.host, k.prefix, |v.s|);
      PutBoth(ba, head, v.s);
    } else {
      var bytes := NumToBytes(ba.endian, ba.host, k, v.n);
      Put(ba, bytes);
    }
  }

  // ---- Reading -------------------------------------------------------------------------------

  /** The cursor has moved by `n` unread bytes; the reads modify nothing but the cursor. */
  twostate predicate Moved(ba: ByteArray, n: nat)
    reads ba`position, ba`size, ba`blocks
  {
    && n <= |old(ba.Unread())|
    && ba.position == old(ba.position) + n
    && ba.Unread() == old(ba.Unread())[n..]
  }

  method Fetch(ba: ByteArray, n: nat) returns (r: Outcome<seq<byte>>)
    requires ba.Valid()
    modifies ba`cur, ba`at, ba`position
    ensures ba.Valid() && Moved(ba, if r.Done? then n else 0)
    ensures r.OutOfRange? <==> n > |old(ba.Unread())|
    ensures r.NullBlock? <==> n == 0 && ba.position == ba.capacity
    ensures r.Done? ==> r.value == old(ba.Unread())[..n]
  {
    ba.MemoryLength();
    if n <= ba.size - ba.position { NextBytes(ba.Memory(), ba.position, ba.size, n); }
    r := ba.Read(n);
  }

  /** Result and cursor are what `scan` of the unread bytes says. */
  twostate predicate Scanned<T>(ba: ByteArray, scan: Scan<T>, new r: Outcome<T>)
    reads ba`position, ba`size, ba`blocks
  {
    match scan
    case Got(v, n) => r == Done(v) && Moved(ba, n)
    case Short(n) => r == OutOfRange && Moved(ba, n)
  }

  /** `readFuint8`. */
  method FetchByte(ba: ByteArray) returns (ok: bool, b: byte)
    requires ba.Valid()
    modifies ba`cur, ba`at, ba`position
    ensures ba.Valid() && ok == (old(ba.Unread()) != []) && Moved(ba, if ok then 1 else 0)
    ensures ok ==> b == old(ba.Unread())[0]
  {
    var r := Fetch(ba, 1);
    ok := r.Done?;
    b := if ok then r.value[0] else 0;
  }

  /** The loops of `readUint32` and `readUint64`, byte by byte. */
  method ReadVarint(ba: ByteArray, wide: bool) returns (r: Outcome<nat>)
    requires ba.Valid()
    modifies ba`cur, ba`at, ba`position
    ensures ba.Valid() && Scanned(ba, Unvarint(old(ba.Unread()), wide, 0, 0), r)
  {
    hide OrShifted, Pow;
    ghost var s := ba.Unread();
    var k: nat, result: nat := 0, 0;
    while k < Rounds(wide)
      invariant ba.Valid() && Moved(ba, k) && k <= Rounds(wide)
      invariant result < Pow(256, WordBytes(wide))
      invariant Unvarint(s, wide, 0, 0) == Unvarint(s[k..], wide, k, result)
    {
      var ok, b := FetchByte(ba);
      if !ok {
        return OutOfRange;
      }
      assert s[k..][1..] == s[k + 1..];
      result := OrShifted(result, b, k, wide);
      k := k + 1;
      if b < 0x80 {
        return Done(result);
      }
    }
    r := Done(result);
  }

  method ReadFixed(ba: ByteArray, w: nat) returns (r: Outcome<nat>)
    requires ba.Valid() && w > 0
    modifies ba`cur, ba`at, ba`position
    ensures ba.Valid()
    ensures Scanned(ba, var s := old(ba.Unread());
                        if |s| < w then Short(0) else Got(Loaded(old(ba.endian), s[..w]), w), r)
  {
    var bytes := Fetch(ba, w);
    if !bytes.Done? {
      return OutOfRange;
    }
    var u := Loaded(ba.host, bytes.value);
    LoadedSwap(ba.endian, ba.host, bytes.value);
    if ba.endian != ba.host {
      u := ByteSwap(u, w);
    }
    r := Done(u);
  }

  /** Swapping what the host loads gives what a host of the wanted order would load. */
  lemma LoadedSwap(want: Endian, host: Endian, s: seq<byte>)
    ensures (if want == host then Loaded(host, s) else ByteSwap(Loaded(host, s), |s|)) == Loaded(want, s)
  {
    var t := if host.Little? then s else Reverse(s);
    LittleFrom(t);
    SwapReverses(FromLittle(t), |s|);
    ReverseTwice(s);
  }

  method ReadNum(ba: ByteArray, k: Kind) returns (r: Outcome<int>)
    requires ba.Valid() && !k.Text? && Bytes(k) > 0
    modifies ba`cur, ba`at, ba`position
    ensures ba.Valid() && Scanned(ba, ScanNum(old(ba.endian), k, old(ba.Unread())), r)
  {
    var word;
    match k {
      case Fixed(w, signed) =>
        word := ReadFixed(ba, w);
        r := match word
          case Done(u) => Done(if signed then ToSigned(u, w) else u)
          case _ => OutOfRange;
      case Var(wide, signed) =>
        word := ReadVarint(ba, wide);
        r := match word
          case Done(u) => Done(if signed then Zag(u, WordBytes(wide)) else u)
          case _ => OutOfRange;
    }
  }

  /** Whether reading `scan`'s string of length zero follows a null block. */
  predicate EndsAtNull(scan: Scan<Value>, position: nat, capacity: nat) {
    scan.Got? && scan.value == Str([]) && position == capacity
  }

  method ReadText(ba: ByteArray, k: Kind) returns (r: Outcome<Value>)
    requires ba.Valid() && Offered(k) && k.Text?
    modifies ba`cur, ba`at, ba`position
    ensures ba.Valid()
    ensures var scan := Decode(old(ba.endian), k, old(ba.Unread()));
            if EndsAtNull(scan, ba.position, ba.capacity) then r == NullBlock && Moved(ba, scan.used)
            else Scanned(ba, scan, r)
  {
    hide ByteArray.Valid;
    hide ScanNum;
    ghost var s := ba.Unread();
    var len := ReadNum(ba, k.prefix);
    if !len.Done? {
      return OutOfRange;
    }
    ghost var n := ScanNum(ba.endian, k.prefix, s).used;
    DecodeText(ba.endian, k, s, len.value, n);
    hide Decode;
    var text := Fetch(ba, len.value);
    r := match text case Done(s) => Done(Str(s)) case OutOfRange => OutOfRange case NullBlock => NullBlock;
  }

  lemma DecodeText(order: Endian, k: Kind, s: seq<byte>, len: nat, n: nat)
    requires Offered(k) && k.Text? && ScanNum(order, k.prefix, s) == Got(len, n)
    ensures n <= |s|
    ensures Decode(order, k, s) ==
            if len <= |s[n..]| then Got(Str(s[n..][..len]), n + len) else Short(n)
    ensures len <= |s[n..]| ==> s[n + len..] == s[n..][len..]
  {
    if len <= |s| - n { TailSlices(s, n, len); }
  }

  /**
   * `readFint8` to `readStringVint`: what `Decode` makes of the unread bytes, with one exception. A
   * string of length zero whose length field ends exactly at the capacity follows a null block.
   */
  method ReadValue(ba: ByteArray, k: Kind) returns (r: Outcome<Value>)
    requires ba.Valid() && Offered(k)
    modifies ba`cur, ba`at, ba`position
    ensures ba.Valid()
    ensures var scan := Decode(old(ba.endian), k, old(ba.Unread()));
            if EndsAtNull(scan, ba.position, ba.capacity) then r == NullBlock && Moved(ba, scan.used)
            else Scanned(ba, scan, r)
  {
    if k.Text? {
      r := ReadText(ba, k);
    } else {
      var x := ReadNum(ba, k);
      r := match x case Done(n) => Done(Num(n)) case _ => OutOfRange;
    }
  }
}
