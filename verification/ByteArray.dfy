/**
 * `ByteArray` of `dwframe/bytearray.cc`: a buffer stored as a linked list of equal blocks with one
 * cursor, proved to behave as a flat byte sequence.
 */
module Buffers {
  import opened Words
  import opened Blocks

  /** One memory block; `size` of the original is the length of the array. */
  class Node {
    const ptr: array<byte>
    var next: Node?

    constructor (s: nat)
      ensures fresh(ptr) && ptr.Length == s && next == null
    {
      ptr := new byte[s];
      next := null;
    }
  }

  /** `memcpy` of `data` into `dst` at `at`. */
  method CopyIn(dst: array<byte>, at: nat, data: seq<byte>)
    requires at + |data| <= dst.Length
    modifies dst
    ensures dst[..] == Patch(old(dst[..]), at, data)
  {
    forall i | 0 <= i < |data| {
      dst[at + i] := data[i];
    }
  }

  ghost function NodeOrNull(ns: seq<Node>, k: nat): Node? {
    if k < |ns| then ns[k] else null
  }

  /** `size_t` has 64 bits; differences wrap. */
  const SIZE_T: int := 0x1_0000_0000_0000_0000

  /** A read returns bytes, throws `out_of_range`, or dereferences a null block. */
  datatype Outcome<T> = Done(value: T) | OutOfRange | NullBlock

  /** Where the positional `read` starts: the place of `p` inside a block, but in the cursor's block. */
  function ReadStart(position: nat, base: nat, p: nat): nat
    requires 1 <= base
  {
    (position / base) * base + p % base
  }

  /** What the positional `read` of `n` bytes at `p` does, for a cursor at `position`. */
  function Positional(memory: seq<byte>, position: nat, size: nat, base: nat, n: nat, p: nat): Outcome<seq<byte>>
    requires 1 <= base
  {
    var start := ReadStart(position, base, p);
    if n > (size - p) % SIZE_T then OutOfRange
    else if position == |memory| || start + n > |memory| then NullBlock
    else Done(memory[start..][..n])
  }

  /** What a positional read is for. */
  function Intended(memory: seq<byte>, size: nat, n: nat, p: nat): Outcome<seq<byte>>
    requires size <= |memory|
  {
    if p + n > size then OutOfRange else Done(memory[p..][..n])
  }

  /** When the positional `read` can be relied on. */
  predicate Reliable(capacity: nat, position: nat, size: nat, base: nat, n: nat, p: nat)
    requires 1 <= base
  {
    if p > size then n > 0x1_0000_0000_0000_0000 - (p - size)
    else p + n > size || (position < capacity && (n == 0 || p / base == position / base))
  }

  lemma SameBlock(position: nat, base: nat, p: nat)
    requires 1 <= base
    ensures ReadStart(position, base, p) == p <==> p / base == position / base
  {
    var q, k := p / base, position / base;
    assert p == q * base + p % base;
    if ReadStart(position, base, p) == p {
      DivMod(k, p % base, base);
    }
  }

  lemma WrapsOnce(size: nat, p: nat)
    requires size < SIZE_T && p < SIZE_T
    ensures (size - p) % SIZE_T == if p > size then SIZE_T - (p - size) else size - p
  {
  }

  lemma StartInside(blocks: nat, position: nat, base: nat, p: nat)
    requires 1 <= base && position < blocks * base
    ensures ReadStart(position, base, p) < blocks * base
  {
    var k := position / base;
    assert position == k * base + position % base;
    if k >= blocks { MulMono(blocks, k, base); } else { MulMono(k + 1, blocks, base); }
    assert (k + 1) * base == k * base + base;
  }

  lemma MulMono(a: nat, b: nat, m: nat)
    requires a <= b
    ensures a * m <= b * m
  {
  }

  /** Where it can be relied on it is right. */
  lemma PositionalIsRight(memory: seq<byte>, blocks: nat, position: nat, size: nat, base: nat, n: nat, p: nat)
    requires 1 <= base && position <= size <= |memory| == blocks * base && size < 0x1_0000_0000_0000_0000 && p < 0x1_0000_0000_0000_0000
    requires Reliable(|memory|, position, size, base, n, p)
    ensures Positional(memory, position, size, base, n, p) == Intended(memory, size, n, p)
  {
    hide ReadStart;
    WrapsOnce(size, p);
    SameBlock(position, base, p);
    if position < |memory| { StartInside(blocks, position, base, p); }
  }

  /** Where it cannot, it is wrong for some contents. */
  lemma PositionalIsWrong(capacity: nat, position: nat, size: nat, base: nat, n: nat, p: nat) returns (memory: seq<byte>)
    requires 1 <= base && position <= size <= capacity && size < 0x1_0000_0000_0000_0000 && p < 0x1_0000_0000_0000_0000
    requires !Reliable(capacity, position, size, base, n, p)
    ensures |memory| == capacity && Positional(memory, position, size, base, n, p) != Intended(memory, size, n, p)
  {
    hide ReadStart;
    WrapsOnce(size, p);
    SameBlock(position, base, p);
    memory := seq(capacity, i => if i == p then 1 else 0);
    var start := ReadStart(position, base, p);
    if p <= size && position < capacity && start + n <= capacity {
      assert memory[start..][..n][0] == memory[start] && memory[p..][..n][0] == memory[p];
    }
  }

  /**
   * The positional `read` does what it is for, whatever the memory holds, if and only if it can be relied
   * on: always when only its end lies behind the size, inside the data only from the cursor's block, and
   * behind the size only for lengths so large that the wrapped difference is too small for them.
   */
  lemma PositionalRightExactly(blocks: nat, position: nat, size: nat, base: nat, n: nat, p: nat)
    requires 1 <= base && position <= size <= blocks * base && size < 0x1_0000_0000_0000_0000 && p < 0x1_0000_0000_0000_0000
    ensures Reliable(blocks * base, position, size, base, n, p) <==>
            forall m: seq<byte> :: |m| == blocks * base ==>
              Positional(m, position, size, base, n, p) == Intended(m, size, n, p)
  {
    hide Positional, Intended, Reliable;
    if Reliable(blocks * base, position, size, base, n, p) {
      forall m: seq<byte> | |m| == blocks * base
        ensures Positional(m, position, size, base, n, p) == Intended(m, size, n, p)
      {
        PositionalIsRight(m, blocks, position, size, base, n, p);
      }
    } else {
      var m := PositionalIsWrong(blocks * base, position, size, base, n, p);
    }
  }

  /** A new buffer of one block: four bytes that were never written are returned, where it should throw. */
  lemma UnwrittenBytesRead(memory: seq<byte>)
    requires |memory| == 8
    ensures Positional(memory, 0, 0, 8, 4, 3) == Done(memory[3..7]) && Intended(memory, 0, 4, 3) == OutOfRange
  {
    WrapsOnce(0, 3);
    assert memory[3..][..4] == memory[3..7];
  }

  /** One piece of memory handed to the socket layer (`iovec`). */
  datatype Iov = Iov(base: array<byte>, off: nat, len: nat)

  class ByteArray {
    const baseSize: nat
    const host: Endian
    var position: nat
    var capacity: nat
    var size: nat
    var endian: Endian
    var root: Node
    var cur: Node?

    ghost var at: nat
    ghost var nodes: seq<Node>
    ghost var blocks: seq<seq<byte>>
    ghost var Repr: set<object>  // the nodes and their arrays

    /** The blocks form one chain from `root`, all of the base size and all distinct. */
    ghost predicate Chained()
      reads this`nodes, this`Repr, this`root, this`capacity, Repr
    {
      && this !in Repr
      && 1 <= baseSize
      && 1 <= |nodes|
      && root == nodes[0]
      && capacity == Offset(|nodes|, baseSize)
      && (forall i :: 0 <= i < |nodes| ==>
            && nodes[i] in Repr
            && nodes[i].ptr in Repr
            && nodes[i].ptr.Length == baseSize)
      && (forall i {:trigger nodes[i].next} :: 0 <= i < |nodes| ==> nodes[i].next == NodeOrNull(nodes, i + 1))
      && (forall i, j :: 0 <= i < |nodes| && 0 <= j < |nodes| && i != j ==>
            nodes[i] != nodes[j] && nodes[i].ptr != nodes[j].ptr)
    }

    /** The chain is sound and `blocks` is what its arrays hold. */
    ghost predicate Linked()
      reads this`nodes, this`blocks, this`Repr, this`root, this`capacity, Repr
    {
      && Chained()
      && |nodes| == |blocks|
      && Uniform(blocks, baseSize)
      && (forall i :: 0 <= i < |nodes| ==> nodes[i].ptr[..] == blocks[i])
    }

    /** `p` lies in block `k`, whose node is `n`; behind the last block there is none. */
    ghost predicate Here(p: nat, k: nat, n: Node?)
      reads this`nodes
    {
      && k <= |nodes|
      && Offset(k, baseSize) <= p < Offset(k, baseSize) + baseSize
      && n == NodeOrNull(nodes, k)
    }

    /** The invariant every member keeps: `cur` is the node of `position`. */
    ghost predicate Valid()
      reads this, Repr
    {
      && Linked()
      && position <= size <= capacity
      && Here(position, at, cur)
    }

    /** All bytes of all blocks, whether written or not. */
    ghost function Memory(): seq<byte>
      reads this`blocks
    {
      Concat(blocks)
    }

    /** The flat sequence the buffer stands for. */
    ghost function Data(): seq<byte>
      reads this`size, this`blocks
    {
      if size <= |Memory()| then Memory()[..size] else []
    }

    /** The part that `read` may still consume. */
    ghost function Unread(): seq<byte>
      reads this`position, this`size, this`blocks
    {
      if position <= size <= |Memory()| then Memory()[position..size] else []
    }

    lemma MemoryLength()
      requires Linked()
      ensures |Memory()| == capacity
    {
      ConcatLength(blocks, baseSize);
    }

    /** Where the cursor belongs after using block `k` up to offset `off`. */
    lemma After(k: nat, off: nat)
      requires Linked() && k < |nodes| && off <= baseSize
      ensures Offset(k, baseSize) + off <= capacity
      ensures if off == baseSize then Here(Offset(k, baseSize) + off, k + 1, nodes[k].next)
              else Here(Offset(k, baseSize) + off, k, nodes[k])
    {
      OffsetMono(k, |nodes|, baseSize);
    }

    /** `cur` is node number `position / baseSize`, and null exactly at the end of the capacity. */
    lemma CursorIsQuotient()
      requires Valid()
      ensures position / baseSize == at && position % baseSize == position - Offset(at, baseSize)
      ensures capacity == baseSize * |nodes|
      ensures cur == null <==> position == capacity
      ensures position < capacity ==> position / baseSize < |nodes| && cur == nodes[position / baseSize]
    {
      Locate(position, at, baseSize);
      OffsetIsProduct(|nodes|, baseSize);
      if at < |nodes| { OffsetMono(at, |nodes|, baseSize); }
    }

    constructor (baseSize: nat, host: Endian)
      requires baseSize >= 1
      ensures Valid() && fresh(Repr) && this.baseSize == baseSize && this.host == host
      ensures position == size == 0 && capacity == baseSize && endian == Big
    {
      this.baseSize := baseSize;
      this.host := host;
      position, size, capacity, endian := 0, 0, baseSize, Big;
      var n := new Node(baseSize);
      root, cur := n, n;
      at, nodes, blocks := 0, [n], [n.ptr[..]];
      Repr := {n, n.ptr};
    }

    method StoreBlock(dst: array<byte>, ghost k: nat, off: nat, data: seq<byte>)
      requires Linked() && k < |nodes| && dst == nodes[k].ptr && off + |data| <= baseSize
      modifies dst, this`blocks
      ensures Linked()
      ensures blocks == old(blocks)[k := Patch(old(blocks)[k], off, data)]
    {
      CopyIn(dst, off, data);
      blocks := blocks[k := dst[..]];
    }

    /** Stores `data` inside block `k`; the flat memory is patched at the matching offset. */
    method Store(dst: array<byte>, ghost k: nat, off: nat, data: seq<byte>)
      requires Linked() && k < |nodes| && dst == nodes[k].ptr && off + |data| <= baseSize
      modifies dst, this`blocks
      ensures Linked()
      ensures Offset(k, baseSize) + off + |data| <= |old(Memory())|
      ensures Memory() == Patch(old(Memory()), Offset(k, baseSize) + off, data)
    {
      ConcatPatch(blocks, baseSize, k, off, data);
      StoreBlock(dst, k, off, data);
    }

    /** Links one more block behind `last`. */
    method Link(last: Node) returns (n: Node)
      requires Chained() && last == nodes[|nodes| - 1]
      modifies last`next, this`nodes, this`Repr, this`capacity
      ensures Chained() && Repr == old(Repr) + {n, n.ptr} && fresh({n, n.ptr})
      ensures nodes == old(nodes) + [n] && capacity == old(capacity) + baseSize
      ensures n.ptr.Length == baseSize
    {
      n := new Node(baseSize);
      last.next := n;
      nodes, Repr, capacity := nodes + [n], Repr + {n, n.ptr}, capacity + baseSize;
    }

    method Append(last: Node) returns (n: Node)
      requires Linked() && last == nodes[|nodes| - 1]
      modifies last`next, this`nodes, this`blocks, this`Repr, this`capacity
      ensures Linked() && fresh(Repr - old(Repr)) && old(Repr) <= Repr
      ensures nodes == old(nodes) + [n] && capacity == old(capacity) + baseSize
      ensures blocks == old(blocks) + [n.ptr[..]] && fresh(n)
    {
      n := Link(last);
      blocks := blocks + [n.ptr[..]];
    }

    /** The last block, found by following `next` from `root`. */
    method Last() returns (tmp: Node)
      requires Linked()
      ensures tmp == nodes[|nodes| - 1]
    {
      tmp := root;
      ghost var i := 0;
      while tmp.next != null
        invariant 0 <= i < |nodes| && tmp == nodes[i]
        decreases |nodes| - i
      {
        tmp := tmp.next;
        i := i + 1;
      }
    }

    /** Appends `count` blocks; `first` is the first of them. */
    method AppendMany(count: nat) returns (first: Node?)
      requires Linked()
      modifies this`nodes, this`blocks, this`Repr, this`capacity, Repr
      ensures Linked() && fresh(Repr - old(Repr)) && old(Repr) <= Repr
      ensures |nodes| == |old(nodes)| + count && old(nodes) <= nodes
      ensures capacity == old(capacity) + Offset(count, baseSize)
      ensures old(blocks) <= blocks
      ensures first == if count == 0 then null else nodes[|old(nodes)|]
    {
      var tmp := Last();
      first := null;
      var i := 0;
      while i < count
        invariant 0 <= i <= count
        invariant Linked() && fresh(Repr - old(Repr)) && old(Repr) <= Repr
        invariant |nodes| == |old(nodes)| + i && old(nodes) <= nodes
        invariant capacity == old(capacity) + Offset(i, baseSize)
        invariant old(blocks) <= blocks
        invariant tmp == nodes[|nodes| - 1] && (i == 0 || fresh(tmp))
        invariant first == if i == 0 then null else nodes[|old(nodes)|]
      {
        tmp := Append(tmp);
        if first == null {
          first := tmp;
        }
        i := i + 1;
      }
    }

    lemma InChain(p: nat, k: nat, n: Node?)
      requires Linked() && Here(p, k, n)
      ensures k < |nodes| <==> p < capacity
      ensures n != null ==> p < capacity && n.ptr.Length == baseSize && n.ptr in Repr
    {
      if k < |nodes| { OffsetMono(k, |nodes|, baseSize); }
    }

    /** Appends the blocks needed for `missing` more bytes and revives a null cursor. */
    method Grow(missing: nat)
      requires Valid()
      requires missing > 0
      modifies this`nodes, this`blocks, this`Repr, this`capacity, this`cur, Repr
      ensures Valid() && fresh(Repr - old(Repr)) && old(Repr) <= Repr
      ensures old(blocks) <= blocks
      ensures old(capacity) + missing <= capacity < old(capacity) + missing + baseSize
    {
      InChain(position, at, cur);
      var count := BlockCount(missing, baseSize);
      var atEnd := capacity == position;
      var first := AppendMany(count);
      if atEnd {
        cur := first;
      }
    }

    /** Makes room for `n` bytes behind the cursor, in whole blocks and no more than needed. */
    method AddCapacity(n: nat)
      requires Valid()
      modifies this, Repr
      ensures Valid() && fresh(Repr - old(Repr)) && old(Repr) <= Repr
      ensures position == old(position) && size == old(size) && endian == old(endian)
      ensures old(Memory()) <= Memory()
      ensures position + n <= capacity
      ensures capacity == old(capacity) || old(capacity) < capacity < position + n + baseSize
      ensures position + n <= old(capacity) ==> capacity == old(capacity)
    {
      if n == 0 {
        return;
      }
      var oldCap := capacity - position;
      if oldCap >= n {
        return;
      }
      Grow(n - oldCap);
      ConcatPrefix(old(blocks), blocks);
    }

    /** Stores `data` at the cursor inside the current block and moves the cursor behind it. */
    method StoreAtCursor(npos: nat, data: seq<byte>)
      requires Linked() && Here(position, at, cur) && cur != null
      requires npos == position - Offset(at, baseSize) && npos + |data| <= baseSize
      modifies cur.ptr, this`blocks, this`cur, this`at, this`position
      ensures Linked() && Here(position, at, cur)
      ensures npos + |data| == baseSize ==> position == Offset(at, baseSize)
      ensures position == old(position) + |data| <= |old(Memory())|
      ensures Memory() == Patch(old(Memory()), old(position), data)
    {
      After(at, npos + |data|);
      Store(cur.ptr, at, npos, data);
      if npos + |data| == cur.ptr.Length {
        cur, at := cur.next, at + 1;
      }
      position := position + |data|;
    }

    /** `bpos` bytes of `buf` have been copied to `from` on; the next go to `npos` in the current block. */
    ghost predicate Copied(mem: seq<byte>, from: nat, buf: seq<byte>, bpos: nat, npos: nat)
      reads this, Repr
    {
      && this !in Repr && Linked() && Here(position, at, cur)
      && bpos <= |buf| && position == from + bpos && from + |buf| <= |mem|
      && Memory() == Patch(mem, from, buf[..bpos])
      && (bpos < |buf| ==>
            && cur != null && cur.ptr in Repr && cur.ptr.Length == baseSize
            && npos < baseSize && npos == position - Offset(at, baseSize))
    }

    /** One round of the loop of `write`: the bytes `[bpos, bpos + n)` of `buf` go to the current block. */
    method StoreSlice(npos: nat, buf: seq<byte>, bpos: nat, n: nat, ghost mem: seq<byte>, ghost from: nat)
      requires Copied(mem, from, buf, bpos, npos) && |mem| == capacity
      requires 0 < n && bpos + n <= |buf| && npos + n <= baseSize && (bpos + n < |buf| ==> npos + n == baseSize)
      modifies cur.ptr, this`blocks, this`cur, this`at, this`position
      ensures Copied(mem, from, buf, bpos + n, 0)
    {
      hide Patch, Memory;
      PatchSlices(mem, from, buf, bpos, n);
      StoreAtCursor(npos, buf[bpos..bpos + n]);
      InChain(position, at, cur);
    }

    lemma StartCopy(buf: seq<byte>, npos: nat)
      requires Linked() && Here(position, at, cur) && 0 < |buf| <= capacity - position
      requires npos < baseSize && npos == position - Offset(at, baseSize)
      ensures |Memory()| == capacity && Copied(Memory(), position, buf, 0, npos)
    {
      MemoryLength();
      InChain(position, at, cur);
      PatchEnds(Memory(), position, buf);
    }

    lemma EndCopy(mem: seq<byte>, from: nat, buf: seq<byte>, npos: nat)
      requires Copied(mem, from, buf, |buf|, npos)
      ensures Linked() && Here(position, at, cur) && Memory() == Patch(mem, from, buf) && position == from + |buf|
    {
      assert buf[..|buf|] == buf;
    }

    /** The copying loop of `write`, once there is room. */
    method WriteChunks(buf: seq<byte>)
      requires Linked() && Here(position, at, cur) && 0 < |buf| <= capacity - position
      modifies this`blocks, this`cur, this`at, this`position, Repr
      ensures Linked() && Here(position, at, cur)
      ensures position == old(position) + |buf| <= |old(Memory())|
      ensures Memory() == Patch(old(Memory()), old(position), buf)
    {
      hide Linked, Memory, Patch, Offset;
      ghost var mem, from := Memory(), position;
      var npos := StartOffset(buf);
      var left := |buf|;
      var ncap := cur.ptr.Length - npos;
      var bpos := 0;
      while left > 0
        invariant 0 <= bpos <= |buf| && left == |buf| - bpos && |mem| == capacity
        invariant Copied(mem, from, buf, bpos, npos)
        invariant left > 0 ==> ncap == baseSize - npos
      {
        var n := if ncap >= left then left else ncap;
        StoreSlice(npos, buf, bpos, n, mem, from);
        bpos := bpos + n;
        left := left - n;
        npos := 0;
        if left > 0 {
          ncap := cur.ptr.Length;
        }
      }
      EndCopy(mem, from, buf, npos);
    }

    method StartOffset(ghost buf: seq<byte>) returns (npos: nat)
      requires Linked() && Here(position, at, cur) && 0 < |buf| <= capacity - position
      ensures npos < baseSize && |Memory()| == capacity && Copied(Memory(), position, buf, 0, npos)
    {
      npos := OffsetInBlock();
      StartCopy(buf, npos);
    }

    /**
     * `write`: overwrites from the cursor on and appends at the end. The whole memory is that of
     * before, extended by the new blocks and patched with `buf`; nothing else changes.
     */
    method Write(buf: seq<byte>)
      requires Valid()
      modifies this, Repr
      ensures Valid() && fresh(Repr - old(Repr)) && old(Repr) <= Repr && endian == old(endian)
      ensures position == old(position) + |buf|
      ensures size == if position > old(size) then position else old(size)
      ensures capacity == old(capacity) || old(capacity) < position <= capacity < position + baseSize
      ensures |old(Memory())| == old(capacity) <= capacity == |Memory()|
      ensures Memory() == Patch(old(Memory()) + Memory()[old(capacity)..], old(position), buf)
    {
      assert this !in Repr;
      hide Linked;
      MemoryLength();
      if |buf| == 0 {
        return;
      }
      AddCapacity(|buf|);
      MemoryLength();
      PatchGrown(old(Memory()), Memory(), position, buf);
      WriteChunks(buf);
      if position > size {
        size := position;
      }
    }

    /** `m_position % m_baseSize`: the place inside the current block. */
    method OffsetInBlock() returns (npos: nat)
      requires 1 <= baseSize && Here(position, at, cur)
      ensures npos == position - Offset(at, baseSize) < baseSize
    {
      Locate(position, at, baseSize);
      npos := position % baseSize;
    }

    /** One `memcpy` out of block `k`, and the step to the next block when this one is used up. */
    method Take(node: Node, ghost k: nat, off: nat, m: nat)
      returns (bytes: seq<byte>, next: Node?, ghost j: nat)
      requires Linked() && k < |nodes| && node == nodes[k] && off + m <= baseSize
      ensures Offset(k, baseSize) + off + m <= capacity == |Memory()|
      ensures bytes == Memory()[Offset(k, baseSize) + off..][..m]
      ensures Here(Offset(k, baseSize) + off + m, j, next)
      ensures off + m == baseSize ==> Offset(j, baseSize) == Offset(k, baseSize) + off + m
    {
      MemoryLength();
      ConcatSlice(blocks, baseSize, k, off, off + m);
      After(k, off + m);
      bytes := node.ptr[off..off + m];
      if node.ptr.Length == off + m {
        next, j := node.next, k + 1;
      } else {
        next, j := node, k;
      }
    }

    /**
     * The copying loop shared by both `read` members: `n` bytes from offset `npos` of block `k` on.
     * It fails exactly when it runs off the chain.
     */
    method CopyOut(start: Node?, ghost k: nat, npos: nat, n: nat)
      returns (r: Outcome<seq<byte>>, next: Node?, ghost j: nat)
      requires Linked() && npos < baseSize && Here(Offset(k, baseSize) + npos, k, start)
      ensures !r.OutOfRange?
      ensures r.NullBlock? <==> start == null || Offset(k, baseSize) + npos + n > capacity
      ensures capacity == |Memory()|
      ensures r.Done? ==> r.value == Memory()[Offset(k, baseSize) + npos..][..n]
      ensures r.Done? ==> Here(Offset(k, baseSize) + npos + n, j, next)
    {
      hide Linked, Memory, Offset;
      ghost var from := Offset(k, baseSize) + npos;
      MemoryLength();
      InChain(from, k, start);
      next, j := start, k;
      if start == null {
        return NullBlock, next, j;
      }
      var off, left, out := npos, n, [];
      while left > 0
        invariant 0 <= left <= n && |out| == n - left
        invariant from + |out| <= capacity && out == Memory()[from..][..|out|]
        invariant Here(from + |out|, j, next)
        invariant next == null <==> from + |out| == capacity
        invariant next != null ==> next.ptr.Length == baseSize
        invariant left > 0 ==> next != null && off == from + |out| - Offset(j, baseSize)
      {
        var ncap := next.ptr.Length - off;
        var m := if ncap >= left then left else ncap;
        var bytes;
        bytes, next, j := Take(next, j, off, m);
        InChain(from + |out| + m, j, next);
        SliceGrows(Memory(), from, |out|, m);
        out := out + bytes;
        left := left - m;
        off := 0;
        if left > 0 && next == null {
          return NullBlock, next, j;
        }
      }
      r := Done(out);
    }

    /**
     * `read(buf, size)`: the next `n` bytes of the flat sequence. It throws exactly when fewer are
     * unread, and follows the null cursor exactly when nothing is asked for at a full last block.
     */
    method Read(n: nat) returns (r: Outcome<seq<byte>>)
      requires Valid()
      modifies this`cur, this`at, this`position
      ensures Valid() && |Memory()| == capacity
      ensures r.OutOfRange? <==> n > size - old(position)
      ensures r.NullBlock? <==> n == 0 && old(position) == capacity
      ensures r.Done? ==> r.value == Memory()[old(position)..][..n] && position == old(position) + n
      ensures !r.Done? ==> position == old(position)
    {
      assert this !in Repr && 1 <= baseSize;
      hide Linked, Memory, Offset;
      MemoryLength();
      if n > size - position {
        return OutOfRange;
      }
      var npos := OffsetInBlock();
      InChain(position, at, cur);
      var next;
      ghost var j;
      r, next, j := CopyOut(cur, at, npos, n);
      if r.Done? {
        position, cur, at := position + n, next, j;
      }
    }

    /**
     * `read(buf, size, position)`: it leaves the cursor alone, but begins at the cached node, and the range
     * test is on a wrapping difference; see `Positional`.
     */
    method ReadAt(n: nat, p: nat) returns (r: Outcome<seq<byte>>)
      requires Valid()
      ensures |Memory()| == capacity && r == Positional(Memory(), position, size, baseSize, n, p)
    {
      MemoryLength();
      if n > (size - p) % SIZE_T {
        return OutOfRange;
      }
      ReadStartInBlock(p);
      InChain(position, at, cur);
      var next;
      ghost var j;
      r, next, j := CopyOut(cur, at, p % baseSize, n);
    }

    lemma ReadStartInBlock(p: nat)
      requires 1 <= baseSize && Here(position, at, cur)
      ensures ReadStart(position, baseSize, p) == Offset(at, baseSize) + p % baseSize
    {
      Locate(position, at, baseSize);
      OffsetIsProduct(at, baseSize);
    }

    /** `toString`: all unread bytes, without moving the cursor. */
    method ToString() returns (r: seq<byte>)
      requires Valid() && size < 0x1_0000_0000_0000_0000
      ensures size <= |Memory()| && r == Unread()
    {
      MemoryLength();
      var n := size - position;
      if n == 0 {
        return [];
      }
      CursorIsQuotient();
      PositionalIsRight(Memory(), |nodes|, position, size, baseSize, n, position);
      var out := ReadAt(n, position);
      r := match out case Done(s) => s case _ => [];
    }

    /** The walk of `setPosition` from the root to offset `v`. */
    method Seek(v: nat) returns (node: Node?, ghost k: nat)
      requires Linked() && v <= capacity
      ensures Here(v, k, node)
    {
      var rest: nat := v;
      node, k := root, 0;
      while rest > node.ptr.Length
        invariant k < |nodes| && node == nodes[k]
        invariant v == Offset(k, baseSize) + rest
        decreases rest
      {
        rest := rest - node.ptr.Length;
        After(k, baseSize);
        InChain(v - rest, k + 1, node.next);
        node, k := node.next, k + 1;
      }
      After(k, rest);
      if rest == node.ptr.Length {
        node, k := node.next, k + 1;
      }
    }

    /**
     * `setPosition`: refuses exactly the positions behind the capacity. A position behind the size
     * makes the bytes in between part of the data, whatever they are.
     */
    method SetPosition(v: nat) returns (ok: bool)
      requires Valid()
      modifies this`position, this`size, this`cur, this`at
      ensures Valid() && |Memory()| == capacity
      ensures ok <==> v <= capacity
      ensures ok ==> position == v && size == if v > old(size) then v else old(size)
      ensures !ok ==> position == old(position) && size == old(size)
    {
      assert this !in Repr;
      hide Linked, Memory, Offset;
      MemoryLength();
      if v > capacity {
        return false;
      }
      position := v;
      if position > size {
        size := position;
      }
      cur, at := Seek(v);
      return true;
    }

    /** `clear`: one block is left, with cursor and size at its start. */
    method Clear()
      requires Valid()
      modifies this, root`next
      ensures Valid() && Repr <= old(Repr) && endian == old(endian)
      ensures position == size == 0 && capacity == baseSize
      ensures |Memory()| == baseSize && Memory() <= old(Memory())
    {
      ConcatPrefix([blocks[0]], blocks);
      position, size, capacity := 0, 0, baseSize;
      cur, at := root, 0;
      root.next := null;
      nodes, blocks, Repr := [root], [blocks[0]], {root, root.ptr};
      MemoryLength();
    }

    // ---- Scatter and gather ------------------------------------------------------------------

    /** `v` is a piece of one block, and lies at offset `from` of the flat memory. */
    ghost predicate Window(v: Iov, from: nat)
      reads this`nodes
    {
      exists k :: 0 <= k < |nodes| && v.base == nodes[k].ptr && v.off + v.len <= baseSize
                  && from == Offset(k, baseSize) + v.off
    }

    /** The pieces are not empty and cover the `n` bytes from offset `from` on, in order. */
    ghost predicate Covers(vs: seq<Iov>, from: nat, n: nat)
      reads this`nodes
    {
      if vs == [] then n == 0
      else
        && 0 < vs[0].len <= n
        && Window(vs[0], from)
        && Covers(vs[1..], from + vs[0].len, n - vs[0].len)
    }

    lemma {:induction false} CoversAppend(vs: seq<Iov>, from: nat, n: nat, v: Iov)
      requires Covers(vs, from, n) && 0 < v.len && Window(v, from + n)
      ensures Covers(vs + [v], from, n + v.len)
    {
      if vs == [] {
        assert (vs + [v])[1..] == [];
      } else {
        assert (vs + [v])[1..] == vs[1..] + [v];
        CoversAppend(vs[1..], from + vs[0].len, n - vs[0].len, v);
      }
    }

    /** What the pieces hold, one after the other. */
    static function Gathered(vs: seq<Iov>): seq<byte>
      reads set v <- vs :: v.base
    {
      if vs == [] then []
      else if vs[0].off + vs[0].len > vs[0].base.Length then Gathered(vs[1..])
      else vs[0].base[vs[0].off..vs[0].off + vs[0].len] + Gathered(vs[1..])
    }

    lemma WindowHolds(v: Iov, from: nat)
      requires Linked() && Window(v, from)
      ensures from + v.len <= capacity == |Memory()| && v.off + v.len <= v.base.Length
      ensures v.base[v.off..v.off + v.len] == Memory()[from..][..v.len]
    {
      var k :| 0 <= k < |nodes| && v.base == nodes[k].ptr && v.off + v.len <= baseSize
               && from == Offset(k, baseSize) + v.off;
      MemoryLength();
      ConcatSlice(blocks, baseSize, k, v.off, v.off + v.len);
      After(k, v.off + v.len);
      assert nodes[k].ptr[..][v.off..v.off + v.len] == v.base[v.off..v.off + v.len];
      assert Memory()[from..][..v.len] == Memory()[from..from + v.len];
    }

    /** Covering pieces hold exactly the covered stretch of the memory. */
    lemma {:induction false} CoversGathers(vs: seq<Iov>, from: nat, n: nat)
      requires Linked() && Covers(vs, from, n) && from <= capacity
      ensures from + n <= capacity == |Memory()|
      ensures Gathered(vs) == Memory()[from..][..n]
    {
      MemoryLength();
      if vs != [] {
        WindowHolds(vs[0], from);
        CoversGathers(vs[1..], from + vs[0].len, n - vs[0].len);
        SliceGrows(Memory(), from, vs[0].len, n - vs[0].len);
      }
    }

    lemma PieceInBlock(j: nat, off: nat, m: nat)
      requires Linked() && j < |nodes| && off + m <= baseSize
      ensures nodes[j].ptr.Length == baseSize && Offset(j, baseSize) + off + m <= capacity
      ensures Window(Iov(nodes[j].ptr, off, m), Offset(j, baseSize) + off)
    {
      After(j, off + m);
    }

    lemma NextBlock(j: nat)
      requires Linked() && j < |nodes|
      ensures nodes[j].next == NodeOrNull(nodes, j + 1) && Offset(j + 1, baseSize) == Offset(j, baseSize) + baseSize
      ensures j + 1 == |nodes| ==> Offset(j + 1, baseSize) == capacity
    {
    }

    /** The place `p` of the memory, as the loop of `get...Buffers` knows it. */
    ghost predicate AtPiece(node: Node?, j: nat, off: nat, p: nat)
      reads this`nodes
    {
      j < |nodes| && node == nodes[j] && off < baseSize && p == Offset(j, baseSize) + off
    }

    /** One piece of at most `left` bytes from `p` on, and the next node. */
    method TakePiece(node: Node, ghost j: nat, off: nat, left: nat, vs: seq<Iov>, ghost from: nat, ghost p: nat)
      returns (ws: seq<Iov>, rest: nat, next: Node?)
      requires Linked() && AtPiece(node, j, off, p) && left > 0 && from <= p && Covers(vs, from, p - from)
      ensures rest < left && p + left - rest <= capacity && Covers(ws, from, p + left - rest - from)
      ensures rest > 0 ==> if next == null then p + left - rest == capacity else AtPiece(next, j + 1, 0, p + left - rest)
    {
      PieceInBlock(j, off, 0);
      NextBlock(j);
      var ncap := node.ptr.Length - off;
      var m := if ncap >= left then left else ncap;
      var v := Iov(node.ptr, off, m);
      PieceInBlock(j, off, m);
      CoversAppend(vs, from, p - from, v);
      ws, rest, next := vs + [v], left - m, node.next;
    }

    /** The loop shared by the three `get...Buffers` members; false when it runs off the chain. */
    method Gather(start: Node, ghost k: nat, npos: nat, n: nat) returns (ok: bool, vs: seq<Iov>)
      requires Linked() && npos < baseSize && Here(Offset(k, baseSize) + npos, k, start) && 0 < n
      ensures ok <==> Offset(k, baseSize) + npos + n <= capacity
      ensures ok ==> Covers(vs, Offset(k, baseSize) + npos, n)
    {
      ghost var j: nat, from := k, Offset(k, baseSize) + npos;
      var node: Node?, off: nat, left: nat := start, npos, n;
      vs := [];
      assert Covers([], from, 0) && AtPiece(node, j, off, from);
      PieceInBlock(k, npos, 0);
      hide Covers, Linked, AtPiece, Offset;
      while left > 0
        invariant left <= n && from + n - left <= capacity
        invariant Covers(vs, from, n - left)
        invariant left > 0 ==> node != null && AtPiece(node, j, off, from + n - left)
      {
        vs, left, node := TakePiece(node, j, off, left, vs, from, from + n - left);
        j, off := j + 1, 0;
        if left > 0 && node == null {
          return false, vs;
        }
      }
      ok := true;
    }

    /** `getReadBuffers(buffers, len)`: the pieces hold the next `min(len, unread)` bytes. */
    method GetReadBuffers(len: nat) returns (vs: seq<Iov>, n: nat)
      requires Valid()
      ensures n == if len > size - position then size - position else len
      ensures Covers(vs, position, n)
      ensures |Memory()| == capacity && Gathered(vs) == Memory()[position..][..n]
    {
      n := if len > size - position then size - position else len;
      if n == 0 {
        MemoryLength();
        return [], 0;
      }
      var npos := OffsetInBlock();
      InChain(position, at, cur);
      var ok;
      ok, vs := Gather(cur, at, npos, n);
      CoversGathers(vs, position, n);
    }

    /**
     * `getReadBuffers(buffers, len, position)`: the length is clamped by what is unread behind the
     * cursor, not behind `p`, so the pieces stay within the data exactly if `p` is not behind the cursor or
     * `len` bytes are there. It follows a null block, `ok` being false, exactly if the pieces do not fit into
     * the capacity.
     */
    method GetReadBuffersAt(len: nat, p: nat) returns (ok: bool, vs: seq<Iov>, n: nat)
      requires Valid()
      ensures n == if len > size - position then size - position else len
      ensures ok <==> n == 0 || p + n <= capacity
      ensures ok && n == 0 ==> vs == []
      ensures ok && n > 0 ==> Covers(vs, p, n) && p + n <= |Memory()| && Gathered(vs) == Memory()[p..][..n]
      ensures n > 0 ==> (p + n <= size <==> p <= position || p + len <= size)
    {
      n := if len > size - position then size - position else len;
      if n == 0 {
        return true, [], 0;
      }
      var node, npos;
      ghost var k;
      node, npos, k := Walk(p);
      if node == null {
        return false, [], n;
      }
      ok, vs := Gather(node, k, npos, n);
      if ok { CoversGathers(vs, p, n); }
    }

    /** `p / m_baseSize` and `p % m_baseSize`. */
    method Split(p: nat) returns (q: nat, r: nat)
      requires 1 <= baseSize
      ensures r < baseSize && Offset(q, baseSize) + r == p
      ensures q < |nodes| <==> p < Offset(|nodes|, baseSize)
    {
      q, r := p / baseSize, p % baseSize;
      OffsetIsProduct(q, baseSize);
      assert Offset(q, baseSize) + r == p;
      if q > |nodes| { OffsetMono(|nodes|, q, baseSize); } else if q < |nodes| { OffsetMono(q, |nodes|, baseSize); }
    }

    /** The walk of the positional `getReadBuffers`: `p / m_baseSize` nodes from the root, if there are so many. */
    method Walk(p: nat) returns (node: Node?, npos: nat, ghost k: nat)
      requires Linked()
      ensures node == null <==> p >= capacity
      ensures node != null ==> Here(p, k, node) && npos == p - Offset(k, baseSize)
    {
      var count;
      count, npos := Split(p);
      ghost var q := count;
      node, k := root, 0;
      assert nodes[0] == root;
      while count > 0
        invariant k + count == q && k <= |nodes| && node == NodeOrNull(nodes, k)
      {
        if node == null {
          return;
        }
        node, k, count := node.next, k + 1, count - 1;
      }
    }

    /** `getWriteBuffers`: room for `len` bytes behind the cursor; no data and no cursor changes. */
    method GetWriteBuffers(len: nat) returns (vs: seq<Iov>)
      requires Valid()
      modifies this, Repr
      ensures Valid() && fresh(Repr - old(Repr)) && old(Repr) <= Repr
      ensures position == old(position) && size == old(size) && endian == old(endian)
      ensures old(Memory()) <= Memory() && position + len <= capacity == |Memory()|
      ensures Covers(vs, position, len)
    {
      MemoryLength();
      if len == 0 {
        return [];
      }
      AddCapacity(len);
      MemoryLength();
      var npos := OffsetInBlock();
      InChain(position, at, cur);
      var ok;
      ok, vs := Gather(cur, at, npos, len);
    }

    lemma {:induction false} CoversInside(vs: seq<Iov>, from: nat, n: nat)
      requires Linked() && Covers(vs, from, n) && from <= capacity
      ensures from + n <= capacity
    {
      if vs != [] {
        WindowHolds(vs[0], from);
        CoversInside(vs[1..], from + vs[0].len, n - vs[0].len);
      }
    }

    method StoreWindow(v: Iov, ghost from: nat, data: seq<byte>)
      requires Linked() && Window(v, from) && |data| <= v.len
      modifies this`blocks, Repr
      ensures Linked() && from + |data| <= |old(Memory())|
      ensures Memory() == Patch(old(Memory()), from, data)
    {
      ghost var k :| 0 <= k < |nodes| && v.base == nodes[k].ptr && v.off + v.len <= baseSize
                     && from == Offset(k, baseSize) + v.off;
      Store(v.base, k, v.off, data);
    }

    /** The kernel filling the first `|data|` bytes of the pieces: the memory is patched where they lie. */
    method Scatter(vs: seq<Iov>, ghost from: nat, ghost n: nat, data: seq<byte>)
      requires Linked() && Covers(vs, from, n) && |data| <= n && from <= capacity
      modifies this`blocks, Repr
      ensures Linked() && from + |data| <= |old(Memory())|
      ensures Memory() == Patch(old(Memory()), from, data)
      decreases |vs|
    {
      assert this !in Repr;
      hide Linked, Memory, Patch, Window;
      MemoryLength();
      CoversInside(vs, from, n);
      if vs == [] {
        NoPatch(Memory(), from, data);
        return;
      }
      var m := if vs[0].len >= |data| then |data| else vs[0].len;
      PatchTwice(Memory(), from, data[..m], data[m..]);
      assert data[..m] + data[m..] == data;
      StoreWindow(vs[0], from, data[..m]);
      assert m == |data| ==> data[..m] == data;
      if m < |data| {
        Scatter(vs[1..], from + m, n - m, data[m..]);
      }
    }
  }
}
