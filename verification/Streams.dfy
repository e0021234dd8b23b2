/**
 * `SocketStream` and the fixed-size loops of `Stream` (`dwframe/socket_stream.cc`, `dwframe/stream.cc`).
 * The peer is a byte sequence that arrives, or is accepted, in pieces of any size.
 */
module Streams {
  import opened Words
  import opened Blocks
  import opened Buffers

  /** What the next call returns when `most` bytes could go. */
  function Allowance(plan: seq<int>, most: nat): (rt: int)
    ensures rt <= most
  {
    if plan == [] then 0 else if plan[0] <= most then plan[0] else most
  }

  function Min(a: nat, b: nat): nat { if a < b then a else b }

  /** All that the calls up to the first refusal let through. */
  function Granted(plan: seq<int>): nat {
    if plan == [] || plan[0] <= 0 then 0 else plan[0] + Granted(plan[1..])
  }

  /** What the refusing call returns, when `avail` bytes are there and more are wanted. */
  function Refusal(plan: seq<int>, avail: nat): (r: int)
    ensures r <= 0
  {
    if plan == [] then 0
    else if plan[0] <= 0 then plan[0]
    else if avail == 0 then 0
    else Refusal(plan[1..], avail - Min(plan[0], avail))
  }

  /** How many of `length` bytes get through. */
  function Through(plan: seq<int>, avail: nat, length: nat): nat {
    Min(Granted(plan), Min(avail, length))
  }

  /** The return value of the fixed-size loops. */
  function Answer(plan: seq<int>, avail: nat, length: nat): int {
    if Through(plan, avail, length) == length then Int32(length) else Refusal(plan, avail)
  }

  /** A call after a call, each letting something through, suffices, however little that is. */
  lemma {:induction false} PatienceSuffices(plan: seq<int>, avail: nat, length: nat)
    requires length <= avail && length <= |plan| && forall i :: 0 <= i < length ==> plan[i] > 0
    ensures Through(plan, avail, length) == length && Answer(plan, avail, length) == Int32(length)
    decreases length
  {
    if length > 0 { PatienceSuffices(plan[1..], avail, length - 1); }
  }

  /** With `done` of `length` bytes through, the rest of the plan leads to the same end as all of it. */
  ghost predicate Ahead(done: nat, plan: seq<int>, avail: nat, all: seq<int>, total: nat, length: nat) {
    && done <= length
    && done + Through(plan, avail, length - done) == Through(all, total, length)
    && (done < length ==> Refusal(plan, avail) == Refusal(all, total))
  }

  lemma OneCall(done: nat, plan: seq<int>, avail: nat, all: seq<int>, total: nat, length: nat)
    requires Ahead(done, plan, avail, all, total, length) && done < length
    ensures var rt := Allowance(plan, Min(length - done, avail));
            if rt <= 0 then done == Through(all, total, length) && rt == Answer(all, total, length)
            else done + rt <= length && rt <= avail && plan != [] && Ahead(done + rt, plan[1..], avail - rt, all, total, length)
  {
  }

  lemma AllAhead(plan: seq<int>, avail: nat, length: nat)
    ensures Ahead(0, plan, avail, plan, avail, length)
  {
  }

  lemma AllCalled(plan: seq<int>, avail: nat, all: seq<int>, total: nat, length: nat)
    requires Ahead(length, plan, avail, all, total, length)
    ensures Through(all, total, length) == length && Answer(all, total, length) == Int32(length)
  {
  }

  /**
   * A connected socket. `input` is what the peer still sends, `output` what it has got. `plan` is the
   * fate of the coming calls: a positive number lets at most so many bytes through, any other
   * number is returned as it is; after the plan the peer has closed.
   */
  class Socket {
    var input: seq<byte>
    var output: seq<byte>
    var plan: seq<int>

    constructor (input: seq<byte>, plan: seq<int>)
      ensures this.input == input && this.plan == plan && output == []
    {
      this.input, this.output, this.plan := input, [], plan;
    }

    method Recv(most: nat) returns (rt: int, data: seq<byte>)
      modifies this`input, this`plan
      ensures rt <= most && (rt <= 0 ==> data == [])
      ensures rt == old(Allowance(plan, Min(most, |input|)))
      ensures rt > 0 ==> |data| == rt
      ensures old(input) == data + input
      ensures plan == old(if plan == [] then [] else plan[1..])
    {
      rt := Allowance(plan, Min(most, |input|));
      data := if rt > 0 then input[..rt] else [];
      input := input[|data|..];
      plan := if plan == [] then [] else plan[1..];
    }

    method Send(data: seq<byte>) returns (rt: int)
      modifies this`output, this`plan
      ensures rt == old(Allowance(plan, |data|))
      ensures output == old(output) + (if rt > 0 then data[..rt] else [])
      ensures plan == old(if plan == [] then [] else plan[1..])
    {
      rt := Allowance(plan, |data|);
      output := output + (if rt > 0 then data[..rt] else []);
      plan := if plan == [] then [] else plan[1..];
    }
  }

  /**
   * The kernel puts `data` into buffers obtained from `getWriteBuffers`, and the cursor is advanced by
   * its length: the data is that of before with `data` written at the cursor.
   */
  method Accept(ba: ByteArray, vs: seq<Iov>, ghost n: nat, data: seq<byte>)
    requires ba.Valid() && ba.Covers(vs, ba.position, n) && |data| <= n
    modifies ba`blocks, ba`cur, ba`at, ba`position, ba`size, ba.Repr
    ensures ba.Valid() && ba.position == old(ba.position) + |data|
    ensures old(ba.position <= |ba.Data()|)
    ensures ba.Data() == Overlay(old(ba.Data()), old(ba.position), data)
  {
    ba.MemoryLength();
    ba.CoversInside(vs, ba.position, n);
    PatchIsOverlay(ba.Memory(), [], ba.size, ba.position, data);
    assert ba.Memory() + [] == ba.Memory();
    ba.Scatter(vs, ba.position, n, data);
    if |data| > 0 {
      var ok := ba.SetPosition(ba.position + |data|);
    }
  }

  /**
   * `SocketStream::read(ByteArray)`: the kernel fills the write buffers and the cursor is advanced by
   * the count. The buffer ends up as if the received bytes had been written.
   */
  method ReadSome(s: Socket, ba: ByteArray, length: nat) returns (rt: int)
    requires ba.Valid() && s !in ba.Repr
    modifies s`input, s`plan, ba, ba.Repr
    ensures ba.Valid() && fresh(ba.Repr - old(ba.Repr)) && s !in ba.Repr
    ensures rt == old(Allowance(s.plan, Min(length, |s.input|)))
    ensures Received(s, ba, if rt > 0 then rt else 0)
    ensures s.plan == old(if s.plan == [] then [] else s.plan[1..])
  {
    ba.MemoryLength();
    var vs := ba.GetWriteBuffers(length);
    assert ba.Data() == old(ba.Data());
    var data;
    rt, data := s.Recv(length);
    Accept(ba, vs, length, data);
  }

  /** The first `got` bytes of the peer's input have been written at the cursor. */
  twostate predicate Received(s: Socket, ba: ByteArray, got: nat)
    reads s, ba
  {
    && got <= |old(s.input)| && s.input == old(s.input)[got..]
    && ba.position == old(ba.position) + got
    && old(ba.position <= |ba.Data()|)
    && ba.Data() == Overlay(old(ba.Data()), old(ba.position), old(s.input)[..got])
  }

  /** Conversion to the 32-bit `int` the members return. */
  function Int32(n: int): (r: int)
    ensures -0x8000_0000 <= r < 0x8000_0000 && (r - n) % 0x1_0000_0000 == 0
    ensures -0x8000_0000 <= n < 0x8000_0000 ==> r == n
  {
    var m := n % 0x1_0000_0000;
    if m < 0x8000_0000 then m else m - 0x1_0000_0000
  }

  /** Lengths for which a successful call looks like a failed one. */
  lemma LengthsLost()
    ensures Int32(0x8000_0000) == -0x8000_0000 && Int32(0x1_0000_0000) == 0
  {
  }

  /** From the state with `data`, `pos` and `input`, the first `got` bytes of `input` have been written. */
  ghost predicate Filled(s: Socket, ba: ByteArray, data: seq<byte>, pos: nat, input: seq<byte>, got: nat)
    reads s`input, ba`position, ba`size, ba`blocks
  {
    && pos <= |data| && got <= |input|
    && s.input == input[got..]
    && ba.position == pos + got
    && ba.Data() == Overlay(data, pos, input[..got])
  }

  /** `got` of `length` bytes have come in, and the rest of the plan decides on the others. */
  ghost predicate Filling(s: Socket, ba: ByteArray, data: seq<byte>, pos: nat, input: seq<byte>, plan: seq<int>, got: nat, length: nat)
    reads s`input, s`plan, ba`position, ba`size, ba`blocks
  {
    Filled(s, ba, data, pos, input, got) && Ahead(got, s.plan, |s.input|, plan, |input|, length)
  }

  /** One round of the loop of `readFixSize`. */
  method ReadMore(s: Socket, ba: ByteArray, left: nat, ghost data: seq<byte>, ghost pos: nat,
                  ghost input: seq<byte>, ghost plan: seq<int>, ghost got: nat, ghost length: nat)
    returns (rt: int)
    requires ba.Valid() && s !in ba.Repr && Filling(s, ba, data, pos, input, plan, got, length)
    requires 0 < left == length - got
    modifies s`input, s`plan, ba, ba.Repr
    ensures ba.Valid() && fresh(ba.Repr - old(ba.Repr)) && s !in ba.Repr
    ensures rt > 0 ==> rt <= left && Filling(s, ba, data, pos, input, plan, got + rt, length)
    ensures rt <= 0 ==>
              Filled(s, ba, data, pos, input, got) && got == Through(plan, |input|, length) && rt == Answer(plan, |input|, length)
  {
    hide Through, Answer, Ahead, Refusal, Allowance, Granted, Overlay, ByteArray.Valid, ByteArray.Data, ByteArray.Unread;
    OneCall(got, s.plan, |s.input|, plan, |input|, length);
    rt := ReadSome(s, ba, left);
    ghost var n := if rt > 0 then rt else 0;
    OverlayTwice(data, pos, input[..got], input[got..][..n]);
    TakeMore(input, got, n);
  }

  /**
   * `readFixSize(ByteArray)`: in however many pieces the bytes arrive, the buffer ends up as if the
   * first `got` of them had been written at once. `got` is `length` unless the peer's bytes, or the calls
   * before the first refusal, do not suffice; then all that gets through is taken.
   */
  method ReadFixSize(s: Socket, ba: ByteArray, length: nat) returns (r: int, ghost got: nat)
    requires ba.Valid() && s !in ba.Repr
    modifies s`input, s`plan, ba, ba.Repr
    ensures ba.Valid() && fresh(ba.Repr - old(ba.Repr)) && s !in ba.Repr
    ensures got == old(Through(s.plan, |s.input|, length)) && r == old(Answer(s.plan, |s.input|, length))
    ensures Filled(s, ba, old(ba.Data()), old(ba.position), old(s.input), got)
  {
    hide *;
    ghost var data, pos, input, plan := ba.Data(), ba.position, s.input, s.plan;
    got := 0;
    var left := length;
    NoneFilled(s, ba, length);
    while left > 0
      invariant ba.Valid() && fresh(ba.Repr - old(ba.Repr)) && s !in ba.Repr
      invariant left == length - got && got <= length
      invariant Filling(s, ba, data, pos, input, plan, got, length)
    {
      var len := ReadMore(s, ba, left, data, pos, input, plan, got, length);
      if len <= 0 {
        return len, got;
      }
      got := got + len;
      left := left - len;
    }
    AllFilled(s, ba, data, pos, input, plan, length);
    r := Int32(length);
  }

  lemma NoneFilled(s: Socket, ba: ByteArray, length: nat)
    requires ba.Valid()
    ensures Filling(s, ba, ba.Data(), ba.position, s.input, s.plan, 0, length)
  {
    ba.MemoryLength();
  }

  lemma AllFilled(s: Socket, ba: ByteArray, data: seq<byte>, pos: nat, input: seq<byte>, plan: seq<int>, length: nat)
    requires Filling(s, ba, data, pos, input, plan, length, length)
    ensures Filled(s, ba, data, pos, input, length)
    ensures Through(plan, |input|, length) == length && Answer(plan, |input|, length) == Int32(length)
  {
  }

  /** Moving the cursor over `n` unread bytes. */
  method Skip(ba: ByteArray, n: nat)
    requires ba.Valid() && n <= |ba.Unread()|
    modifies ba`cur, ba`at, ba`position, ba`size
    ensures ba.Valid() && ba.Data() == old(ba.Data()) && ba.position == old(ba.position) + n
    ensures ba.Unread() == old(ba.Unread())[n..]
  {
    ba.MemoryLength();
    NextBytes(ba.Memory(), ba.position, ba.size, n);
    var ok := ba.SetPosition(ba.position + n);
  }

  /** `SocketStream::write(ByteArray)`: gathers the unread bytes, sends some, skips those. */
  method WriteSome(s: Socket, ba: ByteArray, length: nat) returns (rt: int)
    requires ba.Valid() && s !in ba.Repr
    modifies s`output, s`plan, ba`cur, ba`at, ba`position, ba`size
    ensures ba.Valid() && ba.Data() == old(ba.Data())
    ensures rt == old(Allowance(s.plan, Min(length, |ba.Unread()|)))
    ensures s.plan == old(if s.plan == [] then [] else s.plan[1..])
    ensures var sent := if rt > 0 then rt else 0;
            sent <= |old(ba.Unread())| && ba.Unread() == old(ba.Unread())[sent..]
            && ba.position == old(ba.position) + sent
            && s.output == old(s.output) + old(ba.Unread())[..sent]
  {
    hide ByteArray.Linked, ByteArray.Here, ByteArray.Covers;
    ba.MemoryLength();
    var vs, n := ba.GetReadBuffers(length);
    var bytes := ByteArray.Gathered(vs);
    NextBytes(ba.Memory(), ba.position, ba.size, n);
    rt := s.Send(bytes);
    if rt > 0 {
      assert bytes[..rt] == ba.Unread()[..rt];
      Skip(ba, rt);
    }
  }

  /** From the state with unread `u` and output `o`, the first `sent` bytes of `u` have gone out. */
  ghost predicate Drained(s: Socket, ba: ByteArray, u: seq<byte>, o: seq<byte>, sent: nat)
    reads s`output, ba`position, ba`size, ba`blocks
  {
    sent <= |u| && ba.Unread() == u[sent..] && s.output == o + u[..sent]
  }

  /** `sent` of `length` bytes have gone out, and the rest of the plan decides on the others. */
  ghost predicate Draining(s: Socket, ba: ByteArray, u: seq<byte>, o: seq<byte>, plan: seq<int>, sent: nat, length: nat)
    reads s`output, s`plan, ba`position, ba`size, ba`blocks
  {
    Drained(s, ba, u, o, sent) && Ahead(sent, s.plan, |ba.Unread()|, plan, |u|, length)
  }

  /** One round of the loop of `writeFixSize`. */
  method WriteMore(s: Socket, ba: ByteArray, left: nat, ghost u: seq<byte>, ghost o: seq<byte>, ghost plan: seq<int>,
                   ghost sent: nat, ghost length: nat)
    returns (rt: int)
    requires ba.Valid() && s !in ba.Repr && Draining(s, ba, u, o, plan, sent, length)
    requires 0 < left == length - sent
    modifies s`output, s`plan, ba`cur, ba`at, ba`position, ba`size
    ensures ba.Valid() && ba.Data() == old(ba.Data())
    ensures rt > 0 ==> rt <= left && Draining(s, ba, u, o, plan, sent + rt, length)
    ensures rt <= 0 ==>
              Drained(s, ba, u, o, sent) && sent == Through(plan, |u|, length) && rt == Answer(plan, |u|, length)
  {
    hide Through, Answer, Ahead, Refusal, Allowance, Granted, ByteArray.Valid, ByteArray.Data, ByteArray.Unread;
    OneCall(sent, s.plan, |ba.Unread()|, plan, |u|, length);
    rt := WriteSome(s, ba, left);
    if rt > 0 { TakeMore(u, sent, rt); }
  }

  /**
   * `writeFixSize(ByteArray)`: the peer gets the unread bytes in order, each exactly once, and all that
   * there are up to `length`, unless the calls before the first refusal do not suffice.
   */
  method WriteFixSize(s: Socket, ba: ByteArray, length: nat) returns (r: int, ghost sent: nat)
    requires ba.Valid() && s !in ba.Repr
    modifies s`output, s`plan, ba`cur, ba`at, ba`position, ba`size
    ensures ba.Valid() && ba.Data() == old(ba.Data())
    ensures sent == old(Through(s.plan, |ba.Unread()|, length)) && r == old(Answer(s.plan, |ba.Unread()|, length))
    ensures Drained(s, ba, old(ba.Unread()), old(s.output), sent)
  {
    hide *;
    sent := 0;
    var left := length;
    ghost var u, o, plan := ba.Unread(), s.output, s.plan;
    NoneDrained(s, ba, length);
    while left > 0
      invariant ba.Valid() && ba.Data() == old(ba.Data())
      invariant left == length - sent && sent <= length
      invariant Draining(s, ba, u, o, plan, sent, length)
    {
      var len := WriteMore(s, ba, left, u, o, plan, sent, length);
      if len <= 0 {
        return len, sent;
      }
      sent := sent + len;
      left := left - len;
    }
    AllDrained(s, ba, u, o, plan, length);
    r := Int32(length);
  }

  lemma NoneDrained(s: Socket, ba: ByteArray, length: nat)
    ensures Draining(s, ba, ba.Unread(), s.output, s.plan, 0, length)
  {
  }

  lemma AllDrained(s: Socket, ba: ByteArray, u: seq<byte>, o: seq<byte>, plan: seq<int>, length: nat)
    requires Draining(s, ba, u, o, plan, length, length)
    ensures Drained(s, ba, u, o, length)
    ensures Through(plan, |u|, length) == length && Answer(plan, |u|, length) == Int32(length)
  {
  }

  /** `readFixSize(void*)`: the bytes in order, however they were split. */
  method RecvFixSize(s: Socket, length: nat) returns (r: int, out: seq<byte>)
    modifies s`input, s`plan
    ensures |out| == old(Through(s.plan, |s.input|, length)) && old(s.input) == out + s.input
    ensures r == old(Answer(s.plan, |s.input|, length))
  {
    hide *;
    out := [];
    var left := length;
    ghost var input, plan := s.input, s.plan;
    AllAhead(plan, |input|, length);
    while left > 0
      invariant left == length - |out| && |out| <= length
      invariant input == out + s.input
      invariant Ahead(|out|, s.plan, |s.input|, plan, |input|, length)
    {
      OneCall(|out|, s.plan, |s.input|, plan, |input|, length);
      var len, data := s.Recv(left);
      if len <= 0 {
        return len, out;
      }
      out := out + data;
      left := left - len;
    }
    AllCalled(s.plan, |s.input|, plan, |input|, length);
    r := Int32(length);
  }
}
