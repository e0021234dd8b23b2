/**
 * `HttpSession::recvRequest` (`dwframe/http/http_session.cc`): the read loop over the head automaton and
 * the assembly of the body, over a socket that delivers in pieces of any size.
 */
module HttpSession {
  import opened Words
  import opened Blocks
  import opened HttpMessage
  import opened HttpAutomaton
  import opened HttpSplit
  import opened HttpCuts
  import opened Streams

  // ---- Control does not depend on the split --------------------------------------------------------

  /** The next state of the automaton depends on the state and the character alone. */
  function Ctl(cs: nat, c: char, relaxed: bool): nat {
    Step(NEW_PARSER.(cs := cs), [c], 0, relaxed).cs
  }

  /** State and number of characters consumed, as `Run` leaves them. */
  function CtlRun(cs: nat, t: string, relaxed: bool): (r: (nat, nat))
    ensures r.1 <= |t|
    ensures cs != FINAL && r.0 == FINAL ==> r.1 > 0
    decreases |t|
  {
    if t == "" then (cs, 0)
    else
      var n := Ctl(cs, t[0], relaxed);
      if n == 0 || n == OUTSIDE then (n, 0)
      else if n == FINAL then (n, 1)
      else
        var r := CtlRun(n, t[1..], relaxed);
        (r.0, r.1 + 1)
  }

  lemma CtlStep(m: Parser, buf: string, p: nat, relaxed: bool)
    requires p < |buf|
    ensures Step(m, buf, p, relaxed).cs == Ctl(m.cs, buf[p], relaxed)
  {
  }

  lemma {:induction false} RunCtl(m: Parser, buf: string, p: nat, relaxed: bool)
    requires p <= |buf|
    ensures var r, c := Run(m, buf, p, relaxed), CtlRun(m.cs, buf[p..], relaxed);
            r.0.cs == c.0 && r.1 == p + c.1
    decreases |buf| - p
  {
    hide Step, Ctl;
    if p < |buf| {
      CtlStep(m, buf, p, relaxed);
      var n := Step(m, buf, p, relaxed);
      assert buf[p..][1..] == buf[p + 1..];
      if Live(n.cs) { RunCtl(n, buf, p + 1, relaxed); }
    }
  }

  /** A piece that ends within the head is consumed entirely, and the next piece goes on where it ended. */
  lemma {:induction false} CtlSplit(cs: nat, a: string, b: string, relaxed: bool)
    requires Live(CtlRun(cs, a, relaxed).0)
    ensures var x := CtlRun(cs, a, relaxed);
            x.1 == |a| && CtlRun(cs, a + b, relaxed) == (CtlRun(x.0, b, relaxed).0, |a| + CtlRun(x.0, b, relaxed).1)
    decreases |a|
  {
    hide Ctl;
    if a == "" {
      assert a + b == b;
    } else {
      assert (a + b)[1..] == a[1..] + b;
      CtlSplit(Ctl(cs, a[0], relaxed), a[1..], b, relaxed);
    }
  }

  /** Nothing behind the end of the head matters. */
  lemma {:induction false} CtlEnds(cs: nat, a: string, b: string, relaxed: bool)
    requires cs != FINAL && CtlRun(cs, a, relaxed).0 == FINAL
    ensures CtlRun(cs, a + b, relaxed) == CtlRun(cs, a, relaxed)
    decreases |a|
  {
    hide Ctl;
    assert (a + b)[1..] == a[1..] + b;
    var n := Ctl(cs, a[0], relaxed);
    if Live(n) { CtlEnds(n, a[1..], b, relaxed); }
  }

  // ---- The read loop -------------------------------------------------------------------------------

  /** Bytes as characters. */
  function Text(bytes: seq<byte>): (t: string)
    ensures |t| == |bytes|
    ensures forall i :: 0 <= i < |bytes| ==> t[i] == bytes[i] as int as char
  {
    seq(|bytes|, i requires 0 <= i < |bytes| => bytes[i] as int as char)
  }

  /** What one round of the loop decides; `Outside` when the automaton left the modelled states. */
  datatype Status = Again | Refused | Outside | Done

  lemma TextSlice(bytes: seq<byte>, from: nat, to: nat)
    requires from <= to <= |bytes|
    ensures Text(bytes[from..to]) == Text(bytes)[from..to]
  {
  }

  /** How many bytes the next read delivers when `avail` are there. */
  function NextLength(plan: seq<int>, avail: nat, size: nat): nat {
    var most := if size < avail then size else avail;
    if plan == [] || plan[0] <= 0 then 0 else if plan[0] <= most then plan[0] else most
  }

  /** Where the successive reads into a buffer of `size` bytes end, up to the first that delivers nothing. */
  function Ends(plan: seq<int>, avail: nat, size: nat, from: nat): (ends: seq<nat>)
    ensures forall i :: 0 <= i < |ends| ==> from < ends[i] <= from + avail
    decreases |plan|
  {
    var n := NextLength(plan, avail, size);
    if n == 0 then [] else [from + n] + Ends(plan[1..], avail - n, size, from + n)
  }

  function Whole(t: string, done: nat, relaxed: bool): (Parser, nat)
    requires done <= |t|
  {
    Run(NEW_PARSER, t[..done], 0, relaxed)
  }

  /** A read from `c` to `e` that changes nothing: its first cut goes unnoticed, or its token is cut again. */
  predicate SafePiece(t: string, c: nat, e: nat, relaxed: bool) {
    0 < c < e <= |t| ==>
      var w := Whole(t, c, relaxed).0;
      Live(w.cs) ==> Unseen(w, t, c, relaxed) || StillOpen(w, Whole(t, e, relaxed).0)
  }

  /** The reads that end at `ends` change nothing. */
  predicate Unnoticed(t: string, ends: seq<nat>, relaxed: bool) {
    forall i :: 0 <= i < |ends| - 1 ==> SafePiece(t, ends[i], ends[i + 1], relaxed)
  }

  /** The ends of reads behind which another read followed. */
  function Inner(ends: seq<nat>): seq<nat> {
    if ends == [] then [] else ends[..|ends| - 1]
  }

  /**
   * `done` characters of `t` have been read, in pieces with these ends, and the head goes on in state `m`,
   * which is that of one piece if the cuts go unnoticed.
   */
  ghost predicate Reading(m: Parser, t: string, done: nat, ends: seq<nat>, relaxed: bool) {
    && done <= |t| && Live(m.cs) && m.req.body == "" && CtlRun(START, t[..done], relaxed) == (m.cs, done)
    && (if done == 0 then m == NEW_PARSER && ends == [] else ends != [] && ends[|ends| - 1] == done)
    && (forall c <- ends :: c <= done && Live(CtlRun(START, t[..c], relaxed).0))
    && (Unnoticed(t, ends, relaxed) ==> Same(m, Whole(t, done, relaxed).0))
  }

  /** After `done` characters the head of `head` characters has ended. */
  ghost predicate HeadRead(m: Parser, t: string, done: nat, head: nat, ends: seq<nat>, relaxed: bool) {
    && m.cs == FINAL && m.error == 0 && m.req.body == "" && head <= done <= |t|
    && CtlRun(START, t[..done], relaxed) == (FINAL, head)
    && (Unnoticed(t, ends, relaxed) ==> Same(m, Whole(t, done, relaxed).0))
  }

  /** The state after the next piece is that of one piece, if this piece changes nothing either. */
  lemma PieceSame(m: Parser, t: string, done: nat, len: nat, ends: seq<nat>, relaxed: bool)
    requires Reading(m, t, done, ends, relaxed) && 0 < len && done + len <= |t|
    requires Unnoticed(t, ends + [done + len], relaxed)
    ensures Same(Run(Reset(m), t[done..done + len], 0, relaxed).0, Whole(t, done + len, relaxed).0)
  {
    hide Run, CtlRun, SafePiece, Unseen, StillOpen, Opened;
    UnnoticedFront(t, ends, done + len, relaxed);
    if done == 0 {
      assert t[0..len] == t[..len];
    } else {
      var w := UncutState(t, done, relaxed);
      PieceUnseen(m, w, t, done, done + len, relaxed);
      SafeMeans(t, done, done + len, relaxed);
    }
  }

  lemma SafeMeans(t: string, c: nat, e: nat, relaxed: bool)
    requires 0 < c < e <= |t| && SafePiece(t, c, e, relaxed) && Live(Whole(t, c, relaxed).0.cs)
    ensures Unseen(Whole(t, c, relaxed).0, t, c, relaxed) || StillOpen(Whole(t, c, relaxed).0, Whole(t, e, relaxed).0)
  {
  }

  lemma UnnoticedFront(t: string, ends: seq<nat>, e: nat, relaxed: bool)
    requires Unnoticed(t, ends + [e], relaxed)
    ensures Unnoticed(t, ends, relaxed) && (ends != [] ==> SafePiece(t, ends[|ends| - 1], e, relaxed))
  {
    hide SafePiece;
    var all := ends + [e];
    assert forall i :: 0 <= i < |ends| ==> all[i] == ends[i];
    if ends != [] { assert SafePiece(t, all[|ends| - 1], all[|ends| - 1 + 1], relaxed); }
    forall i | 0 <= i < |ends| - 1 ensures SafePiece(t, ends[i], ends[i + 1], relaxed) {
      assert SafePiece(t, all[i], all[i + 1], relaxed);
    }
  }

  /** One call of `execute` on the next piece. */
  lemma Piece(m: Parser, t: string, done: nat, len: nat, ends: seq<nat>, relaxed: bool)
    requires Reading(m, t, done, ends, relaxed) && 0 < len && done + len <= |t|
    ensures var r := Run(Reset(m), t[done..done + len], 0, relaxed);
            && (Live(r.0.cs) ==> r.1 == len && Reading(r.0, t, done + len, ends + [done + len], relaxed))
            && (r.0.cs == FINAL ==> r.1 > 0)
            && (r.0.cs == FINAL && r.0.error == 0 ==>
                  HeadRead(r.0, t, done + len, done + r.1, ends + [done + len], relaxed))
            && (Unnoticed(t, ends + [done + len], relaxed) ==> Same(r.0, Whole(t, done + len, relaxed).0))
  {
    hide Run, CtlRun, Whole, SafePiece, Unnoticed;
    var piece, taken := t[done..done + len], t[..done];
    var r := Run(Reset(m), piece, 0, relaxed);
    assert piece[0..] == piece;
    RunCtl(Reset(m), piece, 0, relaxed);
    RunKeepsBody(Reset(m), piece, 0, relaxed);
    assert taken + piece == t[..done + len];
    CtlSplit(START, taken, piece, relaxed);
    if Live(r.0.cs) {
      CtlSplit(m.cs, piece, "", relaxed);
    }
    if Unnoticed(t, ends + [done + len], relaxed) { PieceSame(m, t, done, len, ends, relaxed); }
  }

  /** `read` of the stream into the buffer behind `offset`. */
  method Receive(s: Socket, data: array<byte>, offset: nat) returns (len: int)
    requires offset <= data.Length
    modifies s`input, s`plan, data
    ensures len <= data.Length - offset
    ensures len > 0 ==> old(s.input) == data[offset..offset + len] + s.input
    ensures len <= 0 ==> s.input == old(s.input)
    ensures data[..offset] == old(data[..offset])
    ensures s.plan == old(if s.plan == [] then [] else s.plan[1..])
    ensures old(NextLength(s.plan, |s.input|, data.Length - offset)) == if len > 0 then len else 0
  {
    var got;
    len, got := s.Recv(data.Length - offset);
    forall i | 0 <= i < |got| { data[offset + i] := got[i]; }
    assert data[offset..offset + |got|] == got;
  }

  /** `HttpRequestParser`; `relaxed` is the flag that `http_parser_init` leaves as it is. */
  class RequestParser {
    const relaxed: bool
    var state: Parser

    constructor (relaxed: bool)
      ensures this.relaxed == relaxed && state == NEW_PARSER
    {
      this.relaxed, state := relaxed, NEW_PARSER;
    }

    /** `execute`: what was not consumed moves to the front of the buffer. */
    method Execute(data: array<byte>, len: nat) returns (offset: nat)
      requires len <= data.Length
      modifies this`state, data
      ensures len > 0 ==> (state, offset) == Run(Reset(old(state)), Text(old(data[..len])), 0, relaxed)
      ensures offset <= len && data[..len - offset] == old(data[offset..len])
    {
      hide Run, Step, Text;
      state, offset := HttpAutomaton.Execute(state, Text(data[..len]), relaxed);
      forall i | 0 <= i < len - offset { data[i] := data[i + offset]; }
    }

    predicate IsFinished()
      reads this
    {
      state.cs == FINAL
    }

    predicate HasError()
      reads this
    {
      state.error != 0 || state.cs == 0
    }
  }

  /** Where the read loop stands in the text `t`. */
  ghost predicate Placed(s: Socket, input: seq<byte>, t: string, done: nat)
    reads s`input
  {
    done <= |input| && s.input == input[done..] && t == Text(input)
  }

  /** `read` and `execute`: the next piece of the text goes through the parser, from an empty buffer. */
  method Feed(s: Socket, data: array<byte>, parser: RequestParser, ghost input: seq<byte>, ghost t: string, ghost done: nat)
    returns (n: nat, nparse: nat)
    requires Placed(s, input, t, done)
    modifies s`input, s`plan, data, parser`state
    ensures Placed(s, input, t, done + n) && s.plan == old(if s.plan == [] then [] else s.plan[1..])
    ensures n == old(NextLength(s.plan, |s.input|, data.Length)) && nparse <= n <= data.Length
    ensures n == 0 ==> parser.state == old(parser.state)
    ensures n > 0 ==> (parser.state, nparse) == Run(Reset(old(parser.state)), t[done..done + n], 0, parser.relaxed)
    ensures data[..n - nparse] == input[done + nparse..done + n]
  {
    hide Run, NextLength, Reset, Text;
    n, nparse := 0, 0;
    var offset := 0;
    var len := Receive(s, data, offset);
    if len <= 0 {
      return;
    }
    TakeMore(input, done, len);
    TextSlice(input, done, done + len);
    n := len + offset;
    assert data[..n] == input[done..done + n];
    nparse := parser.Execute(data, n);
  }

  /** One round of the loop. */
  method Round(s: Socket, data: array<byte>, parser: RequestParser, ghost input: seq<byte>, ghost t: string, ghost done: nat, ghost ends: seq<nat>)
    returns (offset: nat, status: Status, ghost len: nat)
    requires Placed(s, input, t, done) && Reading(parser.state, t, done, ends, parser.relaxed)
    modifies s`input, s`plan, data, parser`state
    ensures Placed(s, input, t, done + len) && s.plan == old(if s.plan == [] then [] else s.plan[1..])
    ensures len == old(NextLength(s.plan, |s.input|, data.Length)) && (len == 0 ==> status == Refused)
    ensures status == Again ==>
              len > 0 && offset == 0 && Reading(parser.state, t, done + len, ends + [done + len], parser.relaxed)
    ensures status == Done ==>
              offset <= len && offset <= data.Length && data[..offset] == input[done + len - offset..done + len]
    ensures status == Done ==>
              HeadRead(parser.state, t, done + len, done + len - offset, ends + [done + len], parser.relaxed)
    ensures status in {Refused, Outside} && len > 0 && Unnoticed(t, ends + [done + len], parser.relaxed) ==>
              Failed(Whole(t, done + len, parser.relaxed).0)
  {
    hide Run, CtlRun, Step, Text, HeadRead, Reading, Unnoticed, Whole, NextLength, SafePiece, Reset;
    offset, status := 0, Refused;
    ghost var m := parser.state;
    var n, nparse := Feed(s, data, parser, input, t, done);
    len := n;
    if n == 0 {
      return;
    }
    Piece(m, t, done, n, ends, parser.relaxed);
    if parser.state.cs == OUTSIDE {
      status := Outside;
      return;
    }
    if parser.HasError() {
      return;
    }
    offset := n - nparse;
    if offset == data.Length {
      return;
    }
    status := if parser.IsFinished() then Done else Again;
  }

  /** The automaton has refused or left the modelled states. */
  predicate Failed(m: Parser) { m.error != 0 || m.cs == 0 || m.cs == OUTSIDE }

  lemma Begin(t: string, relaxed: bool)
    ensures Reading(NEW_PARSER, t, 0, [], relaxed)
  {
    assert t[..0] == "";
  }

  /** Why a head was not read: the reads ended within it, or the automaton fails on what was read. */
  ghost predicate NotRead(t: string, done: nat, ends: seq<nat>, all: seq<nat>, relaxed: bool) {
    done <= |t| && (Unnoticed(t, ends, relaxed) ==>
      Failed(Whole(t, done, relaxed).0) || (Live(Whole(t, done, relaxed).0.cs) && ends == all))
  }

  /** The ends of reads so far; the head goes on behind all but the last. */
  ghost predicate EndsAt(ends: seq<nat>, t: string, done: nat, relaxed: bool) {
    && (if done == 0 then ends == [] else ends != [] && ends[|ends| - 1] == done)
    && forall c <- Inner(ends) :: c <= |t| && Live(CtlRun(START, t[..c], relaxed).0)
  }

  lemma EndsGrow(m: Parser, t: string, done: nat, len: nat, ends: seq<nat>, relaxed: bool)
    requires Reading(m, t, done, ends, relaxed)
    ensures EndsAt(ends, t, done, relaxed)
    ensures len > 0 ==> EndsAt(ends + [done + len], t, done + len, relaxed)
  {
    hide CtlRun, Unnoticed, Whole;
    assert Inner(ends + [done + len]) == ends;
    assert forall c <- Inner(ends) :: c in ends;
  }

  lemma EndsNext(plan: seq<int>, avail: nat, size: nat, done: nat, ends: seq<nat>)
    ensures NextLength(plan, avail, size) > 0 ==> plan != [] && NextLength(plan, avail, size) <= avail
    ensures var n := NextLength(plan, avail, size);
            ends + Ends(plan, avail, size, done) ==
            if n == 0 then ends else (ends + [done + n]) + Ends(plan[1..], avail - n, size, done + n)
  {
  }

  /** The loop ended for lack of bytes. */
  lemma RanOut(m: Parser, t: string, done: nat, ends: seq<nat>, relaxed: bool)
    requires Reading(m, t, done, ends, relaxed)
    ensures NotRead(t, done, ends, ends, relaxed)
  {
    hide CtlRun, Unnoticed, Whole;
  }

  /** What is known after a round that has decided. */
  ghost predicate Decided(status: Status, parser: RequestParser, rest: seq<byte>, input: seq<byte>, t: string, done: nat,
                          ends: seq<nat>, all: seq<nat>)
    reads parser
  {
    && done <= |input| && EndsAt(ends, t, done, parser.relaxed)
    && (status == Done ==>
          && |rest| <= done && rest == input[done - |rest|..done]
          && HeadRead(parser.state, t, done, done - |rest|, ends, parser.relaxed))
    && (status != Done ==> NotRead(t, done, ends, all, parser.relaxed))
  }

  /** A round with the books of its ends; `all` are the ends of all reads. */
  method Turn(s: Socket, data: array<byte>, parser: RequestParser, ghost input: seq<byte>, ghost t: string, ghost done: nat,
              ghost ends: seq<nat>, ghost all: seq<nat>)
    returns (rest: seq<byte>, status: Status, ghost now: nat, ghost more: seq<nat>)
    requires Placed(s, input, t, done) && Reading(parser.state, t, done, ends, parser.relaxed)
    requires all == ends + Ends(s.plan, |s.input|, data.Length, done)
    modifies s`input, s`plan, data, parser`state
    ensures Placed(s, input, t, now) && more <= all && now >= done
    ensures status in {Again, Done} ==>
              old(s.plan) != [] && s.plan == old(s.plan)[1..] && |more| == |ends| + 1
    ensures status == Again ==>
              && Reading(parser.state, t, now, more, parser.relaxed) && now > done
              && all == more + Ends(s.plan, |s.input|, data.Length, now)
    ensures status != Again ==> Decided(status, parser, rest, input, t, now, more, all)
  {
    hide Run, CtlRun, Step, Text, HeadRead, Reading, EndsAt, NotRead, Unnoticed, Whole, NextLength;
    EndsNext(s.plan, |s.input|, data.Length, done, ends);
    hide Ends;
    ghost var m := parser.state;
    var offset;
    ghost var len;
    offset, status, len := Round(s, data, parser, input, t, done, ends);
    EndsGrow(m, t, done, len, ends, parser.relaxed);
    more, now := ends, done;
    if len == 0 {
      RanOut(m, t, done, ends, parser.relaxed);
    } else {
      more, now := ends + [done + len], done + len;
      if status in {Refused, Outside} { FailedIs(t, now, ends, all, parser.relaxed); }
    }
    rest := if status == Done then data[..offset] else [];
  }

  /**
   * The loop that reads the head. In whatever pieces it arrives, the head ends where the automaton, run
   * over the whole text, ends it; `rest` is what was read beyond.
   */
  method ReadHead(s: Socket, size: nat, relaxed: bool)
    returns (parser: RequestParser, rest: seq<byte>, status: Status, ghost done: nat, ghost ends: seq<nat>)
    modifies s`input, s`plan
    ensures fresh(parser) && parser.relaxed == relaxed && status != Again
    ensures done <= |old(s.input)| && s.input == old(s.input)[done..]
    ensures status == Done ==> s.plan == From(old(s.plan), |ends|)
    ensures ends <= old(Ends(s.plan, |s.input|, size, 0))
    ensures Decided(status, parser, rest, old(s.input), Text(old(s.input)), done, ends, old(Ends(s.plan, |s.input|, size, 0)))
  {
    hide Text, Reading, Decided, Ends;
    ghost var input, t, plan := s.input, Text(s.input), s.plan;
    ghost var all := Ends(s.plan, |s.input|, size, 0);
    Begin(t, relaxed);
    var data := new byte[size];
    parser := new RequestParser(relaxed);
    rest, status, done, ends := [], Again, 0, [];
    while status == Again
      invariant fresh(parser) && fresh(data) && parser.relaxed == relaxed && data.Length == size
      invariant Placed(s, input, t, done) && ends <= all
      invariant status in {Again, Done} ==> |ends| <= |plan| && s.plan == plan[|ends|..]
      invariant status == Again ==> all == ends + Ends(s.plan, |s.input|, size, done)
      invariant status == Again ==> Reading(parser.state, t, done, ends, relaxed)
      invariant status != Again ==> Decided(status, parser, rest, input, t, done, ends, all)
      decreases |s.input|, status == Again
    {
      rest, status, done, ends := Turn(s, data, parser, input, t, done, ends, all);
    }
  }

  lemma FailedIs(t: string, done: nat, before: seq<nat>, all: seq<nat>, relaxed: bool)
    requires done <= |t| && (Unnoticed(t, before + [done], relaxed) ==> Failed(Whole(t, done, relaxed).0))
    ensures NotRead(t, done, before + [done], all, relaxed)
  {
  }

  // ---- The body ------------------------------------------------------------------------------------

  /** Conversion to `int64_t`. */
  function Int64(u: nat): int
    requires u < UINT64
  {
    if u < 0x8000_0000_0000_0000 then u else u - UINT64
  }

  /** The body length that `recvRequest` goes by. */
  function BodyLength(r: Request): int {
    Int64(CastUint64(GetHeader(r.headers, "content-length")))
  }

  /** A number in the header is the body length as a signed 64-bit integer; anything else counts as none. */
  lemma BodyLengthIs(r: Request, n: nat)
    requires n < 0x1_0000_0000_0000_0000
    ensures GetHeader(r.headers, "content-length") == Decimal(n) ==>
              BodyLength(r) == if n < 0x8000_0000_0000_0000 then n else n - 0x1_0000_0000_0000_0000
    ensures !AllDigits(GetHeader(r.headers, "content-length")) ==> BodyLength(r) == 0
  {
    hide Decimal, GetHeader;
    DecimalRoundTrip(n);
  }

  /** What comes of a parsed head of `head` bytes, given all the input. */
  predicate Assembled(req: Request, parsed: Request, input: seq<byte>, head: nat) {
    var n := BodyLength(parsed);
    if n > 0 then head + n <= |input| && req == Init(parsed.(body := Text(input[head..head + n])))
    else req == Init(parsed)
  }

  datatype Received = Closed | Unmodelled | Got(request: Request)

  /** What is left of a plan after `n` calls. */
  function From(plan: seq<int>, n: nat): seq<int> { if n <= |plan| then plan[n..] else [] }

  /** `left` more bytes arrive, and the value returned for them counts as success. */
  predicate Completes(plan: seq<int>, avail: nat, left: int) {
    left <= 0 || (Through(plan, avail, left) == left && Int32(left) > 0)
  }

  /** The body after the head: the bytes read beyond the head, cut or completed from the stream. */
  method ReadBody(s: Socket, length: int, rest: seq<byte>, ghost input: seq<byte>, ghost head: nat)
    returns (ok: bool, body: seq<byte>, ghost more: seq<byte>)
    requires head + |rest| <= |input| && input[head..head + |rest|] == rest && s.input == input[head + |rest|..]
    requires length > 0
    modifies s`input, s`plan
    ensures old(s.input) == more + s.input
    ensures ok ==> head + length <= |input| && body == input[head..head + length]
    ensures ok <==> old(Completes(s.plan, |s.input|, length - |rest|))
    ensures |more| == if length <= |rest| then 0 else old(Through(s.plan, |s.input|, length - |rest|))
  {
    more := [];
    body := if length >= |rest| then rest else rest[..length];
    var left := length - |rest|;
    if left > 0 {
      var r, out := RecvFixSize(s, left);
      more := out;
      if r <= 0 {
        return false, body, more;
      }
      assert input[head + |rest|..][..left] == out;
      body := body + out;
    }
    ok := true;
  }

  /** What `recvRequest` gives, by the automaton on the whole input, if the cuts between the reads go unnoticed. */
  ghost predicate AsWhole(res: Received, m: Parser, head: nat, at: nat, ends: seq<nat>, input: seq<byte>, plan: seq<int>,
                          size: nat, relaxed: bool)
    requires at <= |input|
  {
    Unnoticed(Text(input), ends, relaxed) ==>
      var r := Run(NEW_PARSER, Text(input), 0, relaxed);
      var left := BodyLength(r.0.req) - (at - r.1);
      && (res.Got? ==> Same(m, r.0) && head == r.1)
      && (res.Got? <==> Accepted(r, at) && Completes(From(plan, |ends|), |input| - at, left))
      && (r.0.cs == FINAL && r.0.error == 0 && r.1 > at ==> ends == Ends(plan, |input|, size, 0))
  }

  /**
   * `recvRequest`. However the stream is split into reads, a request that is returned carries exactly the
   * content-length bytes that follow the head, and the head ends where the automaton ends it on the
   * whole stream. If the cuts between the reads go unnoticed, the request is what the automaton makes of the
   * stream, and it is returned exactly if the automaton accepts a head that was read, the calls behind those
   * let the rest of the body through and its length survives the conversion to the `int` that
   * `readFixSize` returns.
   */
  method RecvRequest(s: Socket, size: nat, relaxed: bool)
    returns (res: Received, ghost m: Parser, ghost head: nat, ghost at: nat, ghost taken: nat, ghost ends: seq<nat>)
    modifies s`input, s`plan
    ensures at <= taken <= |old(s.input)| && s.input == old(s.input)[taken..]
    ensures EndsAt(ends, Text(old(s.input)), at, relaxed) && ends <= old(Ends(s.plan, |s.input|, size, 0))
    ensures res.Got? ==> CtlRun(START, Text(old(s.input)), relaxed) == (FINAL, head)
    ensures res.Got? ==> m.error == 0 && Assembled(res.request, m.req, old(s.input), head)
    ensures res.Got? && BodyLength(m.req) <= 0 ==> res.request.body == ""
    ensures res.Got? ==> taken == if head + BodyLength(m.req) > at then head + BodyLength(m.req) else at
    ensures AsWhole(res, m, head, at, ends, old(s.input), old(s.plan), size, relaxed)
  {
    hide Run, CtlRun, Step, Text, HeadRead, BodyLength, Assembled, Init, Completes, From, EndsAt, NotRead, Unnoticed, Accepted, Ends;
    ghost var input, t, all := s.input, Text(s.input), Ends(s.plan, |s.input|, size, 0);
    var rest, status, parser;
    parser, rest, status, at, ends := ReadHead(s, size, relaxed);
    m, head, taken := parser.state, 0, at;
    if status != Done {
      NotReadIs(t, at, ends, all, relaxed);
      return if status == Outside then Unmodelled else Closed, m, head, at, taken, ends;
    }
    head := at - |rest|;
    HeadIs(m, t, at, head, ends, relaxed);
    ghost var more;
    res, more := Finish(s, parser.state.req, rest, input, head);
    taken := at + |more|;
    if res.Got? { NoBody(res.request, m.req, input, head); }
    assert s.input == input[at..][|more|..];
  }

  lemma NoBody(req: Request, parsed: Request, input: seq<byte>, head: nat)
    requires Assembled(req, parsed, input, head) && parsed.body == ""
    ensures BodyLength(parsed) <= 0 ==> req.body == ""
  {
  }

  /** The automaton accepts a head that lies within the first `at` characters. */
  predicate Accepted(r: (Parser, nat), at: nat) {
    r.0.cs == FINAL && r.0.error == 0 && r.1 <= at
  }

  /** The part of `recvRequest` behind the loop. */
  method Finish(s: Socket, parsed: Request, rest: seq<byte>, ghost input: seq<byte>, ghost head: nat)
    returns (res: Received, ghost more: seq<byte>)
    requires head + |rest| <= |input| && input[head..head + |rest|] == rest && s.input == input[head + |rest|..]
    modifies s`input, s`plan
    ensures old(s.input) == more + s.input && res != Unmodelled
    ensures res.Got? ==> Assembled(res.request, parsed, input, head)
    ensures var left := BodyLength(parsed) - |rest|;
            && (res.Got? <==> old(Completes(s.plan, |s.input|, left)))
            && (res.Got? ==> |more| == if left > 0 then left else 0)
  {
    hide BodyLength, Text, Init, Int32, Through;
    more := [];
    var length := BodyLength(parsed);
    var req := parsed;
    if length > 0 {
      var ok, body;
      ok, body, more := ReadBody(s, length, rest, input, head);
      if !ok {
        return Closed, more;
      }
      req := req.(body := Text(body));
    }
    res := Got(Init(req));
  }

  /** A head that was read is the head of the whole text. */
  lemma HeadIs(m: Parser, t: string, done: nat, head: nat, ends: seq<nat>, relaxed: bool)
    requires HeadRead(m, t, done, head, ends, relaxed)
    ensures m.error == 0 && m.req.body == "" && head <= done && CtlRun(START, t, relaxed) == (FINAL, head)
    ensures Unnoticed(t, ends, relaxed) ==>
              var r := Run(NEW_PARSER, t, 0, relaxed); Same(m, r.0) && r.1 == head && Accepted(r, done)
  {
    hide Run, CtlRun, Step, Unnoticed;
    var a, b := t[..done], t[done..];
    assert a + b == t && t[0..] == t;
    CtlEnds(START, a, b, relaxed);
    RunBefore(NEW_PARSER, a, b, 0, relaxed);
    RunCtl(NEW_PARSER, t, 0, relaxed);
  }

  /** If no head was read, there is none within what was read. */
  lemma NotReadIs(t: string, done: nat, ends: seq<nat>, all: seq<nat>, relaxed: bool)
    requires NotRead(t, done, ends, all, relaxed)
    ensures Unnoticed(t, ends, relaxed) ==>
              var r := Run(NEW_PARSER, t, 0, relaxed);
              !Accepted(r, done) && (r.0.cs == FINAL && r.0.error == 0 ==> ends == all)
  {
    hide Run, Step, Unnoticed;
    var a, b := t[..done], t[done..];
    assert a + b == t;
    RunBefore(NEW_PARSER, a, b, 0, relaxed);
    var w := Run(NEW_PARSER, a, 0, relaxed).0;
    if Live(w.cs) {
      ErrorSticks(w, t, done, relaxed);
      FinalAdvances(w, t, done, relaxed);
    }
  }
}
