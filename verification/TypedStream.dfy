/**
 * Streams of mixed typed values: what the tests of `ByteArray` do for one type at a time. Write a list
 * of values, rewind, read the same kinds back.
 */
module TypedStream {
  import opened Words
  import opened Blocks
  import opened Codec
  import opened Buffers
  import opened TypedBuffer

  datatype Item = Item(kind: Kind, value: Value)

  predicate Writable(items: seq<Item>) {
    forall i :: 0 <= i < |items| ==>
      && Offered(items[i].kind) && Typed(items[i].kind, items[i].value) && Fits(items[i].kind, items[i].value)
  }

  function EncodeAll(order: Endian, items: seq<Item>): seq<byte>
    requires Writable(items)
  {
    if items == [] then [] else Encode(order, items[0].kind, items[0].value) + EncodeAll(order, items[1..])
  }

  function Values(items: seq<Item>): seq<Value> {
    if items == [] then [] else [items[0].value] + Values(items[1..])
  }

  /** Decoding kind by kind; `None` when the bytes run out. */
  function DecodeAll(order: Endian, kinds: seq<Kind>, s: seq<byte>): Scan<seq<Value>>
    requires forall k <- kinds :: Offered(k)
  {
    if kinds == [] then Got([], 0)
    else
      match Decode(order, kinds[0], s)
      case Short(n) => Short(n)
      case Got(v, n) =>
        if n > |s| then Short(n)
        else
          match DecodeAll(order, kinds[1..], s[n..])
          case Short(m) => Short(n + m)
          case Got(vs, m) => Got([v] + vs, n + m)
  }

  function Kinds(items: seq<Item>): (ks: seq<Kind>)
    ensures |ks| == |items| && forall i :: 0 <= i < |items| ==> ks[i] == items[i].kind
  {
    if items == [] then [] else [items[0].kind] + Kinds(items[1..])
  }

  lemma KindsOffered(items: seq<Item>)
    requires Writable(items)
    ensures forall k <- Kinds(items) :: Offered(k)
  {
  }

  /** A list of any values, in one byte order, comes back unchanged and uses exactly its own bytes. */
  lemma {:induction false} StreamRoundTrip(order: Endian, items: seq<Item>, rest: seq<byte>)
    requires Writable(items)
    ensures (forall k <- Kinds(items) :: Offered(k))
    ensures DecodeAll(order, Kinds(items), EncodeAll(order, items) + rest)
            == Got(Values(items), |EncodeAll(order, items)|)
  {
    hide Encode, Decode, Offered, Typed, Fits;
    KindsOffered(items);
    if items != [] {
      var head := Encode(order, items[0].kind, items[0].value);
      var tail := EncodeAll(order, items[1..]);
      assert EncodeAll(order, items) + rest == head + (tail + rest);
      ValueRoundTrip(order, items[0].kind, items[0].value, tail + rest);
      assert (head + (tail + rest))[|head|..] == tail + rest;
      StreamRoundTrip(order, items[1..], rest);
    }
  }

  lemma EncodeNotEmpty(order: Endian, k: Kind, v: Value)
    requires Offered(k) && Typed(k, v)
    ensures |Encode(order, k, v)| >= 1
  {
  }

  method WriteAll(ba: ByteArray, items: seq<Item>)
    requires ba.Valid() && Writable(items)
    modifies ba, ba.Repr
    ensures ba.Valid() && fresh(ba.Repr - old(ba.Repr)) && old(ba.Repr) <= ba.Repr
    ensures Written(ba, EncodeAll(old(ba.endian), items))
    decreases |items|
  {
    ba.MemoryLength();
    if items == [] {
      return;
    }
    OverlayTwice(ba.Data(), ba.position, Encode(ba.endian, items[0].kind, items[0].value),
                 EncodeAll(ba.endian, items[1..]));
    WriteValue(ba, items[0].kind, items[0].value);
    WriteAll(ba, items[1..]);
  }

  /** The one list tail that breaks the read loop: an empty string that ends at the capacity. */
  predicate EndsInEmptyText(items: seq<Item>) {
    items != [] && items[|items| - 1].value == Str([])
  }

  /** The first value of the encoded list, and what is left behind it. */
  lemma HeadAndTail(order: Endian, items: seq<Item>)
    requires Writable(items) && items != []
    ensures var tail := EncodeAll(order, items[1..]);
            exists n: nat :: Decode(order, items[0].kind, EncodeAll(order, items)) == Got(items[0].value, n)
              && n <= |EncodeAll(order, items)| && EncodeAll(order, items)[n..] == tail
    ensures Kinds(items)[0] == items[0].kind && Kinds(items)[1..] == Kinds(items[1..])
    ensures |items| > 1 ==> EncodeAll(order, items[1..]) != []
    ensures Writable(items[1..]) && Values(items) == [items[0].value] + Values(items[1..])
  {
    var head := Encode(order, items[0].kind, items[0].value);
    var tail := EncodeAll(order, items[1..]);
    ValueRoundTrip(order, items[0].kind, items[0].value, tail);
    assert (head + tail)[|head|..] == tail;
    if |items| > 1 { EncodeNotEmpty(order, items[1].kind, items[1].value); }
  }

  /** What is unread is as long as the cursor says. */
  lemma UnreadLength(ba: ByteArray)
    requires ba.Valid()
    ensures |ba.Unread()| == ba.size - ba.position
  {
    ba.MemoryLength();
  }

  /** The first value of the list. */
  method ReadItem(ba: ByteArray, ghost items: seq<Item>, kind: Kind) returns (r: Outcome<Value>)
    requires ba.Valid() && Writable(items) && items != [] && kind == items[0].kind
    requires ba.Unread() == EncodeAll(ba.endian, items)
    modifies ba`cur, ba`at, ba`position
    ensures ba.Valid() && Writable(items[1..]) && ba.Unread() == EncodeAll(ba.endian, items[1..])
    ensures r == if |items| == 1 && EndsInEmptyText(items) && ba.size == ba.capacity then NullBlock
                 else Done(items[0].value)
  {
    hide Encode, Decode, ByteArray.Linked, ByteArray.Here;
    HeadAndTail(ba.endian, items);
    assert |items| == 1 ==> EncodeAll(ba.endian, items[1..]) == [];
    hide EncodeAll, Kinds, Values;
    r := ReadValue(ba, kind);
    UnreadLength(ba);
  }

  method ReadAll(ba: ByteArray, ghost items: seq<Item>, kinds: seq<Kind>) returns (r: Outcome<seq<Value>>)
    requires ba.Valid() && Writable(items) && kinds == Kinds(items)
    requires ba.Unread() == EncodeAll(ba.endian, items)
    modifies ba`cur, ba`at, ba`position
    ensures ba.Valid() && ba.size == old(ba.size)
    ensures if EndsInEmptyText(items) && ba.size == ba.capacity then r == NullBlock
            else r == Done(Values(items)) && ba.position == ba.size
    decreases |kinds|
  {
    hide Encode, Writable, ByteArray.Valid, ByteArray.Unread;
    if kinds == [] {
      UnreadLength(ba);
      return Done([]);
    }
    var v := ReadItem(ba, items, kinds[0]);
    hide EncodeAll;
    if v.Done? {
      var vs := ReadAll(ba, items[1..], kinds[1..]);
      r := match vs case Done(xs) => Done([v.value] + xs) case OutOfRange => OutOfRange case NullBlock => NullBlock;
    } else {
      r := if v.OutOfRange? then OutOfRange else NullBlock;
    }
  }

  /** A capacity in whole blocks that was never grown beyond need is used up exactly by whole blocks. */
  lemma FullExactly(total: nat, base: nat, blocks: nat, capacity: nat)
    requires base >= 1 && blocks >= 1 && capacity == Offset(blocks, base)
    requires total <= capacity && (capacity == base || capacity < total + base)
    ensures total == capacity <==> total > 0 && total % base == 0
  {
    OffsetIsProduct(blocks, base);
    if total == capacity {
      DivMod(blocks, 0, base);
      if blocks > 1 { OffsetMono(1, blocks, base); }
    } else if total > 0 && total % base == 0 {
      OffsetIsProduct(total / base, base);
      if total / base < blocks { OffsetMono(total / base, blocks, base); }
      else if total / base > blocks { OffsetMono(blocks, total / base, base); }
    }
  }

  /** A new buffer with the list in it, the cursor back at the start. It is full exactly by whole blocks. */
  method WriteNew(base: nat, host: Endian, order: Endian, items: seq<Item>) returns (ba: ByteArray)
    requires base >= 1 && Writable(items)
    ensures fresh(ba) && ba.Valid() && fresh(ba.Repr) && ba.endian == order
    ensures ba.Unread() == EncodeAll(order, items)
    ensures ba.size == ba.capacity <==> EncodeAll(order, items) != [] && |EncodeAll(order, items)| % base == 0
  {
    hide EncodeAll, Writable;
    ba := new ByteArray(base, host);
    ba.MemoryLength();
    ba.endian := order;
    WriteAll(ba, items);
    assert ba.Data() == EncodeAll(order, items);
    var ok := ba.SetPosition(0);
    assert ba.Unread() == EncodeAll(order, items);
    FullExactly(|EncodeAll(order, items)|, base, |ba.nodes|, ba.capacity);
  }

  lemma EncodedNotEmpty(order: Endian, items: seq<Item>)
    requires Writable(items) && items != []
    ensures EncodeAll(order, items) != []
  {
    EncodeNotEmpty(order, items[0].kind, items[0].value);
  }

  /**
   * Write any list of values into a new buffer, rewind, read the same kinds. For every block size, host
   * and byte order the same list comes back and nothing is left unread, unless the list ends with an
   * empty string and its encoding fills whole blocks: then, and only then, the last read follows a
   * null block.
   */
  method RoundTrip(base: nat, host: Endian, order: Endian, items: seq<Item>) returns (r: Outcome<seq<Value>>, left: nat)
    requires base >= 1 && Writable(items)
    ensures if EndsInEmptyText(items) && |EncodeAll(order, items)| % base == 0 then r == NullBlock
            else r == Done(Values(items)) && left == 0
  {
    hide EncodeAll, Writable, Values, Kinds, ByteArray.Valid, ByteArray.Unread;
    var ba := WriteNew(base, host, order, items);
    if items != [] { EncodedNotEmpty(order, items); }
    r := ReadAll(ba, items, Kinds(items));
    UnreadLength(ba);
    left := ba.size - ba.position;
  }
}
