/** A printed request, sent over a socket and received by `recvRequest`, is the request that was printed. */
module HttpExchange {
  import opened Words
  import opened HttpMessage
  import opened HttpAutomaton
  import opened HttpSplit
  import opened HttpCuts
  import opened HttpRoundTrip
  import opened Streams
  import opened HttpSession

  /** What the automaton makes of a printed head. */
  function ParsedHead(r: Request): Request {
    NEW_REQUEST.(verb := r.verb, version := r.version, path := r.path, query := r.query, fragment := r.fragment,
                 headers := Sent(r))
  }

  /** The request that comes out at the other end: that of before, with the headers `dump` adds. */
  function Delivered(r: Request): Request {
    Init(ParsedHead(r).(body := r.body))
  }

  /**
   * All fields but the headers and the websocket flag are those of the sender, and the close flag is in all
   * cases but that of `SentClose`. The headers are the sender's and the added ones.
   */
  lemma DeliveredIs(r: Request)
    ensures Delivered(r) == r.(headers := Sent(r), websocket := false, close := Delivered(r).close)
    ensures Delivered(r).close == r.close <==> !r.websocket || r.close == OwnClose(r.headers)
    ensures forall k :: k != "content-length" && (r.websocket || k != "connection") ==>
              (k in Sent(r) <==> k in r.headers) && (k in r.headers ==> Sent(r)[k] == r.headers[k])
  {
    hide Fold, Decimal, Init, OwnClose;
    FoldConstants();
    var q := ParsedHead(r).(body := r.body);
    SentClose(r, q);
    InitKeeps(q);
  }

  lemma InitKeeps(q: Request)
    ensures Init(q) == q.(close := Init(q).close)
  {
  }

  /** The request that arrives: its body is as long as the content-length header says. */
  function Arrived(r: Request, tail: string): Request {
    var n := BodyLength(ParsedHead(r));
    Init(if 0 < n <= |r.body + tail| then ParsedHead(r).(body := (r.body + tail)[..n]) else ParsedHead(r))
  }

  lemma SentBody(r: Request)
    requires |r.body| < 0x8000_0000_0000_0000
    ensures BodyLength(ParsedHead(r)) == if r.body != "" then |r.body| else BodyLength(r)
  {
    hide Fold, Decimal, CastUint64;
    FoldConstants();
    DecimalRoundTrip(|r.body|);
  }

  /**
   * It is the printed one unless that had no body and announced one; then what follows it in the stream
   * is taken for the body.
   */
  lemma ArrivedIsDelivered(r: Request, tail: string)
    requires |r.body| < 0x8000_0000_0000_0000
    requires BodyLength(ParsedHead(r)) <= |r.body + tail|
    ensures Arrived(r, tail) == Delivered(r) <==> r.body != "" || BodyLength(r) <= 0
  {
    hide BodyLength, Init;
    SentBody(r);
    var n := BodyLength(ParsedHead(r));
    if r.body != "" { assert (r.body + tail)[..n] == r.body; }
    InitBody(ParsedHead(r).(body := r.body));
    InitBody(ParsedHead(r));
    if 0 < n <= |r.body + tail| { InitBody(ParsedHead(r).(body := (r.body + tail)[..n])); }
  }

  lemma InitBody(q: Request)
    ensures Init(q).body == q.body
  {
  }

  /** What the receiver makes of the printed bytes. */
  lemma Assembles(r: Request, keys: seq<string>, input: seq<byte>, tail: string, req: Request)
    requires forall k <- keys :: k in r.headers
    requires Text(input) == Dump(r, keys) + tail
    ensures Assembled(req, ParsedHead(r), input, |Head(r, keys)|) ==> req == Arrived(r, tail)
  {
    hide Head, Text, Init, ParsedHead, BodyLength;
    var h, n := |Head(r, keys)|, BodyLength(ParsedHead(r));
    if 0 < n && h + n <= |input| {
      TextSlice(input, h, h + n);
      Behind(Head(r, keys), r.body, tail, Text(input), n);
    }
  }

  lemma Behind(head: string, body: string, tail: string, t: string, n: nat)
    requires t == (head + body) + tail && |head| + n <= |t|
    ensures n <= |body + tail| && t[|head|..|head| + n] == (body + tail)[..n]
  {
    assert t == head + (body + tail);
  }

  /** How many reads it takes to get to `h`; none if they do not suffice. */
  function Needed(ends: seq<nat>, h: nat): (k: nat)
    ensures k <= |ends|
    ensures k > 0 ==> ends[k - 1] >= h && forall i :: 0 <= i < k - 1 ==> ends[i] < h
    ensures k == 0 ==> forall i :: 0 <= i < |ends| ==> ends[i] < h
  {
    if ends == [] then 0
    else if ends[0] >= h then 1
    else if Needed(ends[1..], h) == 0 then 0 else 1 + Needed(ends[1..], h)
  }

  /**
   * The calls let a head of `head` bytes through, in reads of at most `size`, and those behind them let the
   * rest of the body through, if its length survives the conversion to `int`.
   */
  predicate Suffices(plan: seq<int>, avail: nat, size: nat, head: nat, body: int) {
    var ends := Ends(plan, avail, size, 0);
    var k := Needed(ends, head);
    k > 0 && Completes(From(plan, k), avail - ends[k - 1], head + body - ends[k - 1])
  }

  /**
   * For a sender's request `r` in printed form at the front of the stream, read in pieces that change
   * nothing: nothing but `Arrived(r, tail)` is ever returned, and it is returned exactly if the
   * calls of the socket suffice for it.
   */
  method ReceivePrinted(s: Socket, size: nat, relaxed: bool, ghost r: Request, ghost keys: seq<string>, ghost tail: string)
    returns (res: Received, ghost taken: nat)
    requires Legal(r) && Lists(keys, r.headers) && Text(s.input) == Dump(r, keys) + tail
    requires Unnoticed(Text(s.input), Ends(s.plan, |s.input|, size, 0), relaxed)
    modifies s`input, s`plan
    ensures taken <= |old(s.input)| && s.input == old(s.input)[taken..]
    ensures res.Got? ==> res.request == Arrived(r, tail)
    ensures res.Got? <==> old(Suffices(s.plan, |s.input|, size, |Head(r, keys)|, BodyLength(ParsedHead(r))))
  {
    hide Run, CtlRun, Step, Text, BodyLength, Assembled, Init, Int32, Head, Legal, Arrived, ParsedHead, EndsAt, Ends, Unnoticed;
    ghost var input, t, all := s.input, Text(s.input), Ends(s.plan, |s.input|, size, 0);
    ghost var m, head, at, ends;
    res, m, head, at, taken, ends := RecvRequest(s, size, relaxed);
    HeadInFront(r, keys, t, tail, relaxed);
    InnerBefore(t, |Head(r, keys)|, at, ends, all, relaxed);
    AtIs(ends, all, at, |Head(r, keys)|, t, relaxed);
    Assembles(r, keys, input, tail, if res.Got? then res.request else r);
  }

  /** The automaton on the whole text. */
  lemma HeadInFront(r: Request, keys: seq<string>, t: string, tail: string, relaxed: bool)
    requires Legal(r) && Lists(keys, r.headers) && t == Dump(r, keys) + tail
    ensures |Head(r, keys)| > 0
    ensures var x := Run(NEW_PARSER, t, 0, relaxed);
            && x.0.cs == FINAL && x.0.error == 0 && x.1 == |Head(r, keys)| && x.0.req == ParsedHead(r)
            && CtlRun(START, t, relaxed) == (FINAL, |Head(r, keys)|)
  {
    hide Run, CtlRun, Step, Head, Legal, Sent;
    assert t[..|Head(r, keys)|] == Head(r, keys);
    var n := HeadRoundTrip(r, keys, t, relaxed);
    assert t[0..] == t;
    RunCtl(NEW_PARSER, t, 0, relaxed);
  }

  /** Behind all but the last of the reads the head goes on, so these end before it does. */
  lemma InnerBefore(t: string, h: nat, at: nat, ends: seq<nat>, all: seq<nat>, relaxed: bool)
    requires CtlRun(START, t, relaxed) == (FINAL, h) && EndsAt(ends, t, at, relaxed) && ends <= all
    requires Unnoticed(t, all, relaxed)
    ensures forall c <- Inner(ends) :: c < h
    ensures Unnoticed(t, ends, relaxed)
  {
    hide CtlRun, SafePiece;
    forall c | c in Inner(ends) ensures c < h {
      var a, b := t[..c], t[c..];
      assert a + b == t;
      CtlSplit(START, a, b, relaxed);
    }
    forall i | 0 <= i < |ends| - 1 ensures SafePiece(t, ends[i], ends[i + 1], relaxed) {
      assert SafePiece(t, all[i], all[i + 1], relaxed);
    }
  }

  lemma AtIs(ends: seq<nat>, all: seq<nat>, at: nat, h: nat, t: string, relaxed: bool)
    requires EndsAt(ends, t, at, relaxed) && ends <= all && (forall c <- Inner(ends) :: c < h) && h > 0
    requires h > at ==> ends == all
    ensures if h <= at then |ends| > 0 && Needed(all, h) == |ends| && all[|ends| - 1] == at else Needed(all, h) == 0
  {
    hide CtlRun;
    if h <= at {
      assert all[|ends| - 1] == at;
      assert forall i :: 0 <= i < |ends| - 1 ==> all[i] == ends[i] && all[i] == Inner(ends)[i] && Inner(ends)[i] in Inner(ends);
    } else {
      assert forall i :: 0 <= i < |ends| - 1 ==> ends[i] == Inner(ends)[i] && Inner(ends)[i] in Inner(ends);
    }
  }
}
