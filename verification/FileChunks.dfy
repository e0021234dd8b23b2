/** The chunk arithmetic of `ByteArray::writeToFile`: which stretches of the memory go to the file. */
module FileChunks {
  import opened Words
  import opened Blocks
  import opened Buffers

  /** `len` bytes from offset `addr` of the flat memory on. */
  datatype Chunk = Chunk(addr: nat, len: int)

  /** The chunks written, or the null block followed. */
  datatype Trace = Written(chunks: seq<Chunk>) | NullFollowed

  function Before(cs: seq<Chunk>, t: Trace): Trace {
    match t
    case NullFollowed => NullFollowed
    case Written(ds) => Written(cs + ds)
  }

  /** The loop with the node of block `k` in `cur`, `pos` and `read_size`; `diff` comes off every chunk. */
  function Loop(k: nat, pos: nat, left: int, base: nat, blocks: nat): Trace
    requires base >= 1
    decreases blocks - k
  {
    if left <= 0 then Written([])
    else if k >= blocks then NullFollowed
    else
      var diff := pos % base;
      var len := (if left > base then base else left) - diff;
      Before([Chunk(Offset(k, base) + diff, len)], Loop(k + 1, pos + len, left - len, base, blocks))
  }

  /** The chunks are the `n` bytes from `from` on, in order, each once. */
  predicate Tiles(cs: seq<Chunk>, from: nat, n: int) {
    if cs == [] then n == 0
    else cs[0].addr == from && 0 < cs[0].len <= n && Tiles(cs[1..], from + cs[0].len, n - cs[0].len)
  }

  predicate WritesAll(t: Trace, from: nat, n: nat) {
    t.Written? && Tiles(t.chunks, from, n)
  }

  /** From a block boundary the loop writes every byte. */
  lemma {:induction false} AlignedWritesAll(k: nat, left: nat, base: nat, blocks: nat)
    requires base >= 1 && Offset(k, base) + left <= Offset(blocks, base)
    ensures WritesAll(Loop(k, Offset(k, base), left, base, blocks), Offset(k, base), left)
    decreases left
  {
    if left > 0 {
      if k >= blocks && k > blocks { OffsetMono(blocks, k, base); }
      Locate(Offset(k, base), k, base);
      if left > base {
        AlignedWritesAll(k + 1, left - base, base, blocks);
      }
    }
  }

  /** When the loop can be relied on. */
  predicate Reliable(pos: nat, left: nat, base: nat)
    requires base >= 1
  {
    left == 0 || pos % base == 0 || left >= base
  }

  /**
   * The chunks are exactly the unread bytes if the cursor is at a block boundary, or no byte or at least one
   * block's worth of bytes is unread; in all other cases the loop runs off the chain.
   */
  lemma WritesAllExactly(pos: nat, left: nat, base: nat, blocks: nat)
    requires base >= 1 && pos + left <= Offset(blocks, base)
    ensures var t := Loop(pos / base, pos, left, base, blocks);
            if Reliable(pos, left, base) then WritesAll(t, pos, left) else t == NullFollowed
  {
    var k, diff := pos / base, pos % base;
    OffsetIsProduct(k, base);
    assert pos == Offset(k, base) + diff;
    if k > blocks { OffsetMono(blocks, k, base); }
    var len := (if left > base then base else left) - diff;
    if left == 0 {
    } else if diff == 0 {
      AlignedWritesAll(k, left, base, blocks);
    } else if left >= base {
      assert pos + len == Offset(k + 1, base);
      AlignedWritesAll(k + 1, left - len, base, blocks);
    } else {
      UnalignedRunsOff(k, pos, left, base, blocks);
    }
  }

  /**
   * Inside a block with fewer unread bytes than a block holds: every turn exchanges the offset in the block
   * and the count of bytes left, so the loop ends only at the null block behind the chain.
   */
  lemma {:induction false} UnalignedRunsOff(k: nat, pos: nat, left: nat, base: nat, blocks: nat)
    requires base >= 1 && 0 < pos % base && 0 < left < base
    ensures Loop(k, pos, left, base, blocks) == NullFollowed
    decreases blocks - k
  {
    if k < blocks {
      var diff, q := pos % base, pos / base;
      assert pos == q * base + diff;
      assert pos + (left - diff) == q * base + left;
      DivMod(q, left, base);
      UnalignedRunsOff(k + 1, pos + (left - diff), diff, base, blocks);
    }
  }

  // ---- The loop ------------------------------------------------------------------------------------

  /** What `ofstream::write` appends for a chunk; nothing for a negative length. */
  function Piece(memory: seq<byte>, c: Chunk): seq<byte> {
    if 0 < c.len && c.addr + c.len <= |memory| then memory[c.addr..c.addr + c.len] else []
  }

  function Pieces(memory: seq<byte>, cs: seq<Chunk>): seq<byte> {
    if cs == [] then [] else Pieces(memory, cs[..|cs| - 1]) + Piece(memory, cs[|cs| - 1])
  }

  lemma {:induction false} PiecesFirst(memory: seq<byte>, cs: seq<Chunk>)
    requires cs != []
    ensures Pieces(memory, cs) == Piece(memory, cs[0]) + Pieces(memory, cs[1..])
    decreases |cs|
  {
    hide Piece;
    if |cs| > 1 {
      var front := cs[..|cs| - 1];
      PiecesFirst(memory, front);
      assert front[1..] == cs[1..][..|cs| - 2];
    }
  }

  /** Chunks that tile a stretch of the memory make up its bytes. */
  lemma {:induction false} TilesBytes(memory: seq<byte>, cs: seq<Chunk>, from: nat, n: nat)
    requires Tiles(cs, from, n) && from + n <= |memory|
    ensures Pieces(memory, cs) == memory[from..from + n]
    decreases |cs|
  {
    hide Pieces;
    if cs == [] {
      NoPieces(memory);
    } else {
      var len := cs[0].len;
      PiecesFirst(memory, cs);
      TilesBytes(memory, cs[1..], from + len, n - len);
      Adjacent(memory, from, len, n);
    }
  }

  lemma NoPieces(memory: seq<byte>)
    ensures Pieces(memory, []) == []
  {
  }

  lemma Adjacent(memory: seq<byte>, from: nat, len: nat, n: nat)
    requires from + n <= |memory| && len <= n
    ensures memory[from..from + len] + memory[from + len..from + len + (n - len)] == memory[from..from + n]
  {
  }

  lemma ChunkInBlock(ba: ByteArray, k: nat, lo: nat, hi: nat)
    requires ba.Valid() && k < |ba.nodes| && lo < hi <= ba.baseSize
    ensures hi <= ba.nodes[k].ptr.Length
    ensures ba.nodes[k].ptr[lo..hi] == Piece(ba.Memory(), Chunk(Offset(k, ba.baseSize) + lo, hi - lo))
  {
    ConcatSlice(ba.blocks, ba.baseSize, k, lo, hi);
    assert ba.nodes[k].ptr[..][lo..hi] == ba.nodes[k].ptr[lo..hi];
  }

  /** One turn of the loop. */
  method WriteChunk(ba: ByteArray, cur: Node, ghost k: nat, pos: nat, left: int) returns (len: int, bytes: seq<byte>, next: Node?)
    requires ba.Valid() && k < |ba.nodes| && cur == ba.nodes[k] && left > 0
    ensures len == (if left > ba.baseSize then ba.baseSize else left) - pos % ba.baseSize
    ensures bytes == Piece(ba.Memory(), Chunk(Offset(k, ba.baseSize) + pos % ba.baseSize, len))
    ensures next == NodeOrNull(ba.nodes, k + 1)
  {
    var diff := pos % ba.baseSize;
    len := (if left > ba.baseSize then ba.baseSize else left) - diff;
    bytes := [];
    if len > 0 {
      ChunkInBlock(ba, k, diff, diff + len);
      bytes := cur.ptr[diff..diff + len];
    }
    next := cur.next;
  }

  /** What is known at the head of the loop. */
  ghost predicate AtTurn(memory: seq<byte>, whole: Trace, cs: seq<Chunk>, file: seq<byte>, k: nat, pos: nat, left: int, base: nat, blocks: nat)
    requires base >= 1
  {
    whole == Before(cs, Loop(k, pos, left, base, blocks)) && file == Pieces(memory, cs)
  }

  lemma LoopTurn(k: nat, pos: nat, left: int, base: nat, blocks: nat)
    requires base >= 1 && left > 0 && k < blocks
    ensures var len := (if left > base then base else left) - pos % base;
            pos + len >= 0 && Loop(k, pos, left, base, blocks)
            == Before([Chunk(Offset(k, base) + pos % base, len)], Loop(k + 1, pos + len, left - len, base, blocks))
  {
    var q := pos / base;
    assert pos == q * base + pos % base;
    MulMono(0, q, base);
    hide Before;
  }

  lemma NextTurn(memory: seq<byte>, whole: Trace, cs: seq<Chunk>, file: seq<byte>, k: nat, pos: nat, left: int, base: nat, blocks: nat)
    requires base >= 1 && AtTurn(memory, whole, cs, file, k, pos, left, base, blocks) && left > 0 && k < blocks
    ensures var len := (if left > base then base else left) - pos % base;
            var c := Chunk(Offset(k, base) + pos % base, len);
            pos + len >= 0
            && AtTurn(memory, whole, cs + [c], file + Piece(memory, c), k + 1, pos + len, left - len, base, blocks)
  {
    hide Piece, Loop, Pieces, Before;
    var len := (if left > base then base else left) - pos % base;
    var c := Chunk(Offset(k, base) + pos % base, len);
    LoopTurn(k, pos, left, base, blocks);
    BeforeBoth(cs, c, Loop(k + 1, pos + len, left - len, base, blocks));
    PiecesLast(memory, cs, c);
  }

  lemma BeforeBoth(cs: seq<Chunk>, c: Chunk, t: Trace)
    ensures Before(cs, Before([c], t)) == Before(cs + [c], t)
  {
    if t.Written? { assert cs + ([c] + t.chunks) == (cs + [c]) + t.chunks; }
  }

  lemma PiecesLast(memory: seq<byte>, cs: seq<Chunk>, c: Chunk)
    ensures Pieces(memory, cs + [c]) == Pieces(memory, cs) + Piece(memory, c)
  {
    assert (cs + [c])[..|cs|] == cs;
  }

  /**
   * `writeToFile` into an opened file; `ok` is false when a null block is followed. The file gets exactly
   * the unread bytes whenever the loop ends, and it ends exactly when it can be relied on.
   */
  method WriteToFile(ba: ByteArray) returns (ok: bool, file: seq<byte>)
    requires ba.Valid()
    ensures ok <==> Reliable(ba.position, |ba.Unread()|, ba.baseSize)
    ensures ok ==> file == ba.Unread()
  {
    hide Loop, AtTurn, ByteArray.Linked;
    Begin(ba);
    var left: int := ba.size - ba.position;
    var pos: nat := ba.position;
    var cur := ba.cur;
    ghost var k, cs: seq<Chunk> := ba.at, [];
    ghost var whole := Loop(k, pos, left, ba.baseSize, |ba.nodes|);
    ok, file := true, [];
    while left > 0
      invariant cur == NodeOrNull(ba.nodes, k)
      invariant AtTurn(ba.Memory(), whole, cs, file, k, pos, left, ba.baseSize, |ba.nodes|)
      decreases |ba.nodes| - k
    {
      if cur == null {
        FollowsNull(ba.Memory(), whole, cs, file, k, pos, left, ba.baseSize, |ba.nodes|);
        ok := false;
        break;
      }
      NextTurn(ba.Memory(), whole, cs, file, k, pos, left, ba.baseSize, |ba.nodes|);
      var len, bytes;
      ghost var c := Chunk(Offset(k, ba.baseSize) + pos % ba.baseSize, (if left > ba.baseSize then ba.baseSize else left) - pos % ba.baseSize);
      len, bytes, cur := WriteChunk(ba, cur, k, pos, left);
      file := file + bytes;
      pos, left := pos + len, left - len;
      k, cs := k + 1, cs + [c];
    }
    if ok { Ends(ba.Memory(), whole, cs, file, k, pos, left, ba.baseSize, |ba.nodes|); }
    WholeUnread(ba, whole, file);
  }

  lemma Begin(ba: ByteArray)
    requires ba.Valid()
    ensures ba.at == ba.position / ba.baseSize && ba.cur == NodeOrNull(ba.nodes, ba.at)
    ensures var t := Loop(ba.at, ba.position, ba.size - ba.position, ba.baseSize, |ba.nodes|);
            AtTurn(ba.Memory(), t, [], [], ba.at, ba.position, ba.size - ba.position, ba.baseSize, |ba.nodes|)
  {
    ba.CursorIsQuotient();
    hide Loop;
  }

  lemma FollowsNull(memory: seq<byte>, whole: Trace, cs: seq<Chunk>, file: seq<byte>, k: nat, pos: nat, left: int, base: nat, blocks: nat)
    requires base >= 1 && AtTurn(memory, whole, cs, file, k, pos, left, base, blocks) && left > 0 && k >= blocks
    ensures whole == NullFollowed
  {
  }

  lemma Ends(memory: seq<byte>, whole: Trace, cs: seq<Chunk>, file: seq<byte>, k: nat, pos: nat, left: int, base: nat, blocks: nat)
    requires base >= 1 && AtTurn(memory, whole, cs, file, k, pos, left, base, blocks) && left <= 0
    ensures whole == Written(cs) && file == Pieces(memory, cs)
  {
  }

  lemma WholeUnread(ba: ByteArray, whole: Trace, file: seq<byte>)
    requires ba.Valid()
    requires whole == Loop(ba.position / ba.baseSize, ba.position, ba.size - ba.position, ba.baseSize, |ba.nodes|)
    requires whole.Written? ==> file == Pieces(ba.Memory(), whole.chunks)
    ensures |ba.Unread()| == ba.size - ba.position
    ensures whole.Written? <==> Reliable(ba.position, |ba.Unread()|, ba.baseSize)
    ensures whole.Written? ==> file == ba.Unread()
  {
    hide Loop;
    ba.MemoryLength();
    var left := ba.size - ba.position;
    WritesAllExactly(ba.position, left, ba.baseSize, |ba.nodes|);
    if whole.Written? { TilesBytes(ba.Memory(), whole.chunks, ba.position, left); }
  }
}
