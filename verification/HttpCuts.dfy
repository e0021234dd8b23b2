/**
 * Exactly which cuts of a head between two reads go unnoticed. A call of the automaton starts without marks, so
 * a token that is cut is taken from the start of the second piece.
 */
module HttpCuts {
  import opened HttpMessage
  import opened HttpAutomaton
  import opened HttpSplit

  // ---- Tokens --------------------------------------------------------------------------------------

  predicate InPath(cs: nat) { 26 <= cs <= 28 || cs == 33 }

  predicate InFragment(cs: nat) { 21 <= cs <= 23 }

  predicate InVersion(cs: nat) { 5 <= cs <= 12 }

  /** The token that is open in a state: method, path, query, fragment, version, header line, or none. */
  function Token(cs: nat): nat {
    if InMethod(cs) then 1 else if InPath(cs) then 2 else if NeedsQuery(cs) then 3
    else if InFragment(cs) then 4 else if InVersion(cs) then 5 else if NeedsField(cs) then 6 else 0
  }

  /** The token `k` of the request line has been read; it does not come again. */
  predicate Past(k: nat, cs: nat) {
    || cs == 0 || cs == OUTSIDE || cs == FINAL || 13 <= cs <= 18
    || (k <= 4 && 4 <= cs <= 12)
    || (k <= 3 && 20 <= cs <= 23)
    || (k <= 2 && 29 <= cs <= 32)
    || (k <= 1 && (cs == 3 || InPath(cs)))
  }

  predicate SameToken(k: nat, r: Request, s: Request) {
    match k
    case 1 => r.verb == s.verb
    case 2 => r.path == s.path
    case 3 => r.query == s.query
    case 4 => r.fragment == s.fragment
    case _ => r.version == s.version
  }

  lemma HeaderPast(k: nat, m: Parser, buf: string, p: nat, relaxed: bool)
    requires p < |buf| && 1 <= k <= 5 && (13 <= m.cs <= 18 || m.cs == FINAL)
    ensures Past(k, Step(m, buf, p, relaxed).cs) && SameToken(k, Step(m, buf, p, relaxed).req, m.req)
  {
    hide Slice, SetHeader, NameChar, NameStart, ValueChar, StepMethod, StepTarget, StepPath, StepQuery, StepFragment, StepHex, StepVersion;
  }

  lemma StepPast(k: nat, m: Parser, buf: string, p: nat, relaxed: bool)
    requires p < |buf| && 1 <= k <= 5 && Past(k, m.cs)
    ensures Past(k, Step(m, buf, p, relaxed).cs) && SameToken(k, Step(m, buf, p, relaxed).req, m.req)
  {
    if 13 <= m.cs <= 18 || m.cs == FINAL {
      HeaderPast(k, m, buf, p, relaxed);
    } else {
      hide Slice, SameUpTo, UriChar, QueryChar, Hex, StepMethod, StepHeader;
    }
  }

  /** A token that has been read is not changed any more. */
  lemma {:induction false} RunPast(k: nat, m: Parser, buf: string, p: nat, relaxed: bool)
    requires p <= |buf| && 1 <= k <= 5 && Past(k, m.cs)
    ensures Past(k, Run(m, buf, p, relaxed).0.cs) && SameToken(k, Run(m, buf, p, relaxed).0.req, m.req)
    decreases |buf| - p
  {
    hide Step, Past, SameToken;
    if p < |buf| {
      StepPast(k, m, buf, p, relaxed);
      var n := Step(m, buf, p, relaxed);
      if Live(n.cs) { RunPast(k, n, buf, p + 1, relaxed); }
      TokenTransitive(k, Run(m, buf, p, relaxed).0.req, n.req, m.req);
    } else {
      TokenReflexive(k, m.req);
    }
  }

  lemma TokenReflexive(k: nat, r: Request)
    ensures SameToken(k, r, r)
  {
  }

  lemma TokenTransitive(k: nat, r: Request, s: Request, t: Request)
    requires SameToken(k, s, t)
    ensures SameToken(k, r, s) ==> SameToken(k, r, t)
    ensures SameToken(k, s, s)
  {
  }

  lemma PastClosed(k: nat, cs: nat)
    requires 1 <= k <= 5 && Past(k, cs)
    ensures Token(cs) != k
  {
  }

  /** The run has neither failed nor left the modelled states. */
  predicate Fine(m: Parser) { m.error == 0 && m.cs != 0 && m.cs != OUTSIDE }

  /** Two runs that go on behind token `k`, and differ in it or in the error, end differently. */
  lemma StaysDifferent(k: nat, x: Parser, y: Parser, a: string, b: string, p: nat, relaxed: bool)
    requires p <= |b| && 1 <= k <= 5 && Past(k, x.cs) && Past(k, y.cs)
    requires !SameToken(k, x.req, y.req) || x.error != 0
    ensures var X, Y := Run(x, b, p, relaxed).0, Run(y, a + b, p + |a|, relaxed).0;
            Fine(Y) ==> !Same(X, Y)
    ensures Token(Run(y, a + b, p + |a|, relaxed).0.cs) != k
  {
    hide Run, Past, Step;
    RunPast(k, x, b, p, relaxed);
    RunPast(k, y, a + b, p + |a|, relaxed);
    ErrorSticks(x, b, p, relaxed);
    PastClosed(k, Run(y, a + b, p + |a|, relaxed).0.cs);
  }

  /** Two runs that go on behind token `k` and are the same end the same. */
  lemma StaysSame(k: nat, x: Parser, y: Parser, a: string, b: string, p: nat, relaxed: bool)
    requires p <= |b| && 1 <= k <= 5 && Past(k, y.cs) && Same(x, y) && x.cs in {3, 4, 13, 17, 20, 29}
    ensures var X, Y := Run(x, b, p, relaxed).0, Run(y, a + b, p + |a|, relaxed).0;
            Same(X, Y) && Token(Y.cs) != k
  {
    hide Run, Past, Step;
    RunMoved(x, y, a, b, p, relaxed);
    RunPast(k, y, a + b, p + |a|, relaxed);
    PastClosed(k, Run(y, a + b, p + |a|, relaxed).0.cs);
  }

  /** What is left of two runs behind token `k`. */
  lemma BehindToken(k: nat, r: Parser, s: Parser, a: string, b: string, p: nat, relaxed: bool)
    requires p <= |b| && 1 <= k <= 5 && r.cs == s.cs && r.cs in {3, 4, 13, 17, 20, 29} && Past(k, s.cs)
    ensures var X, Y := Run(r, b, p, relaxed).0, Run(s, a + b, p + |a|, relaxed).0;
            && Token(Y.cs) != k && (Same(r, s) ==> Same(X, Y))
            && (!SameToken(k, r.req, s.req) || r.error != 0 ==> (Fine(Y) ==> !Same(X, Y)))
            && (Fine(Y) ==> s.error == 0)
  {
    hide Run, Step, SameToken, Past, Token;
    ErrorSticks(s, a + b, p + |a|, relaxed);
    RunPast(k, s, a + b, p + |a|, relaxed);
    PastClosed(k, Run(s, a + b, p + |a|, relaxed).0.cs);
    if Same(r, s) { StaysSame(k, r, s, a, b, p, relaxed); }
    if !SameToken(k, r.req, s.req) || r.error != 0 { StaysDifferent(k, r, s, a, b, p, relaxed); }
  }

  // ---- The method ----------------------------------------------------------------------------------

  lemma MethodTurn(x: Parser, y: Parser, a: string, b: string, p: nat, relaxed: bool)
    requires p < |b| && Same(x, y) && InMethod(x.cs) && b[p] != ' '
    ensures var r, s := Step(x, b, p, relaxed), Step(y, a + b, p + |a|, relaxed);
            Same(r, s) && r.mark == x.mark && s.mark == y.mark && (r.cs == 0 || InMethod(r.cs))
  {
  }

  lemma MethodBlank(m: Parser, buf: string, p: nat, relaxed: bool)
    requires p < |buf| && InMethod(m.cs) && buf[p] == ' ' && m.mark <= |buf|
    ensures Step(m, buf, p, relaxed) == WithMethod(m, FindMethod(buf[m.mark..], 0))
  {
    hide FindMethod;
  }

  /** The parser behind the method when `f` is what was found. */
  function WithMethod(m: Parser, f: nat): Parser {
    if f == INVALID_METHOD then m.(error := 1000, cs := 3) else m.(req := m.req.(verb := f), cs := 3)
  }

  lemma MethodsDiffer(x: Parser, y: Parser, f: nat, g: nat)
    requires Same(x, y)
    ensures var r, s := WithMethod(x, f), WithMethod(y, g);
            && r.cs == 3 && s.cs == 3 && (f == g ==> Same(r, s))
            && (f != g && s.error == 0 ==> !SameToken(1, r.req, s.req) || r.error != 0)
  {
  }

  lemma MethodClose(x: Parser, y: Parser, a: string, b: string, p: nat, relaxed: bool)
    requires p < |b| && Same(x, y) && InMethod(x.cs) && b[p] == ' ' && x.mark == 0 && y.mark <= |a|
    ensures Step(x, b, p, relaxed) == WithMethod(x, FindMethod(b, 0))
    ensures Step(y, a + b, p + |a|, relaxed) == WithMethod(y, FindMethod((a + b)[y.mark..], 0))
  {
    hide FindMethod, MethodName, Step, WithMethod;
    assert (a + b)[p + |a|] == ' ' && b[0..] == b;
    MethodBlank(x, b, p, relaxed);
    MethodBlank(y, a + b, p + |a|, relaxed);
  }

  lemma MethodToken(cs: nat)
    ensures InMethod(cs) <==> Token(cs) == 1
    ensures cs == 0 ==> Token(cs) == 0
    ensures cs == 3 ==> Past(1, cs)
  {
  }

  /** From inside the method on: the method must be found as it is from its mark. */
  lemma {:induction false} MethodCut(x: Parser, y: Parser, a: string, b: string, p: nat, relaxed: bool)
    requires p <= |b| && Same(x, y) && InMethod(x.cs) && x.mark == 0 && y.mark <= |a|
    ensures var X, Y := Run(x, b, p, relaxed).0, Run(y, a + b, p + |a|, relaxed).0;
            var same := FindMethod(b, 0) == FindMethod((a + b)[y.mark..], 0);
            && (Token(Y.cs) == 1 || ' ' !in b[p..] || same ==> Same(X, Y))
            && (Fine(Y) && Same(X, Y) ==> Token(Y.cs) == 1 || same)
            && (' ' !in b[p..] && Fine(Y) ==> Token(Y.cs) == 1)
    decreases |b| - p
  {
    hide FindMethod, MethodName, Step, Token, Past, SameToken, Same;
    MethodToken(x.cs);
    SameState(x, y);
    if p < |b| {
      var r, s := Step(x, b, p, relaxed), Step(y, a + b, p + |a|, relaxed);
      assert b[p..] == [b[p]] + b[p + 1..];
      if b[p] != ' ' {
        MethodTurn(x, y, a, b, p, relaxed);
        SameState(r, s);
        MethodToken(r.cs);
        if r.cs != 0 { MethodCut(r, s, a, b, p + 1, relaxed); }
      } else {
        MethodClose(x, y, a, b, p, relaxed);
        MethodsDiffer(x, y, FindMethod(b, 0), FindMethod((a + b)[y.mark..], 0));
        MethodToken(3);
        BehindToken(1, r, s, a, b, p + 1, relaxed);
      }
    }
  }

  // ---- Path, query, fragment -----------------------------------------------------------------------

  /** A state in which the path, the query or the fragment has been opened. */
  predicate InPart(k: nat, cs: nat) { 2 <= k <= 4 && Token(cs) == k }

  /** Where the text of the part starts. */
  function PartStart(k: nat, m: Parser): nat { if k == 3 then m.queryStart else m.mark }

  lemma PathTurn(x: Parser, y: Parser, a: string, b: string, p: nat, relaxed: bool)
    requires p < |b| && Same(x, y) && InPart(2, x.cs) && PartStart(2, y) < |a| && x.mark == 0
    ensures var r, s := Step(x, b, p, relaxed), Step(y, a + b, p + |a|, relaxed);
            && r.cs == s.cs && r.error == s.error
            && (InPart(2, r.cs) ==> r.req == s.req && PartStart(2, r) == PartStart(2, x) && PartStart(2, s) == PartStart(2, y))
            && (!InPart(2, r.cs) ==> r.cs in {0, OUTSIDE, 4, 20, 29} && (r.cs in {4, 20, 29} ==>
                  Past(2, s.cs) && !SameToken(2, r.req, s.req)))
            && (r.cs in {0, OUTSIDE} ==> Same(r, s))
  {
    hide QueryChar, UriChar, Hex, StepQuery, StepFragment, StepVersion, StepHeader, StepMethod;
  }

  lemma QueryTurn(x: Parser, y: Parser, a: string, b: string, p: nat, relaxed: bool)
    requires p < |b| && Same(x, y) && InPart(3, x.cs) && PartStart(3, y) < |a|
    ensures var r, s := Step(x, b, p, relaxed), Step(y, a + b, p + |a|, relaxed);
            && r.cs == s.cs && r.error == s.error
            && (InPart(3, r.cs) ==> r.req == s.req && PartStart(3, r) == PartStart(3, x) && PartStart(3, s) == PartStart(3, y))
            && (!InPart(3, r.cs) ==> r.cs in {0, OUTSIDE, 4, 20, 29} && (r.cs in {4, 20, 29} ==>
                  Past(3, s.cs) && !SameToken(3, r.req, s.req)))
            && (r.cs in {0, OUTSIDE} ==> Same(r, s))
  {
    hide QueryChar, UriChar, Hex, StepPath, StepTarget, StepFragment, StepVersion, StepHeader, StepMethod;
  }

  lemma FragmentTurn(x: Parser, y: Parser, a: string, b: string, p: nat, relaxed: bool)
    requires p < |b| && Same(x, y) && InPart(4, x.cs) && PartStart(4, y) < |a| && x.mark == 0
    ensures var r, s := Step(x, b, p, relaxed), Step(y, a + b, p + |a|, relaxed);
            && r.cs == s.cs && r.error == s.error
            && (InPart(4, r.cs) ==> r.req == s.req && PartStart(4, r) == PartStart(4, x) && PartStart(4, s) == PartStart(4, y))
            && (!InPart(4, r.cs) ==> r.cs in {0, OUTSIDE, 4, 20, 29} && (r.cs in {4, 20, 29} ==>
                  Past(4, s.cs) && !SameToken(4, r.req, s.req)))
            && (r.cs in {0, OUTSIDE} ==> Same(r, s))
  {
    hide QueryChar, UriChar, Hex, StepPath, StepTarget, StepQuery, StepVersion, StepHeader, StepMethod;
  }

  lemma PartTurn(k: nat, x: Parser, y: Parser, a: string, b: string, p: nat, relaxed: bool)
    requires p < |b| && Same(x, y) && InPart(k, x.cs) && PartStart(k, y) < |a| && (k != 3 ==> x.mark == 0)
    ensures var r, s := Step(x, b, p, relaxed), Step(y, a + b, p + |a|, relaxed);
            && r.cs == s.cs && r.error == s.error
            && (InPart(k, r.cs) ==> r.req == s.req && PartStart(k, r) == PartStart(k, x) && PartStart(k, s) == PartStart(k, y))
            && (!InPart(k, r.cs) ==> r.cs in {0, OUTSIDE, 4, 20, 29} && (r.cs in {4, 20, 29} ==>
                  Past(k, s.cs) && !SameToken(k, r.req, s.req)))
            && (r.cs in {0, OUTSIDE} ==> Same(r, s))
  {
    hide Step, Past, SameToken;
    match k
    case 2 => PathTurn(x, y, a, b, p, relaxed);
    case 3 => QueryTurn(x, y, a, b, p, relaxed);
    case _ => FragmentTurn(x, y, a, b, p, relaxed);
  }

  /** From inside path, query or fragment on: the part is always different once it has been read. */
  lemma {:induction false} PartCut(k: nat, x: Parser, y: Parser, a: string, b: string, p: nat, relaxed: bool)
    requires p <= |b| && Same(x, y) && InPart(k, x.cs) && PartStart(k, y) < |a| && (k != 3 ==> x.mark == 0)
    ensures var X, Y := Run(x, b, p, relaxed).0, Run(y, a + b, p + |a|, relaxed).0;
            && (Token(Y.cs) == k ==> Same(X, Y))
            && (Fine(Y) && Same(X, Y) ==> Token(Y.cs) == k)
    decreases |b| - p
  {
    hide Step, Past, SameToken, Token;
    if p < |b| {
      var r, s := Step(x, b, p, relaxed), Step(y, a + b, p + |a|, relaxed);
      PartTurn(k, x, y, a, b, p, relaxed);
      if InPart(k, r.cs) {
        PartLive(k, r.cs);
        PartCut(k, r, s, a, b, p + 1, relaxed);
      } else if r.cs in {4, 20, 29} {
        BehindToken(k, r, s, a, b, p + 1, relaxed);
      } else {
        NoToken(r.cs);
      }
    }
  }

  lemma PartLive(k: nat, cs: nat)
    requires InPart(k, cs)
    ensures Live(cs)
  {
  }

  lemma NoToken(cs: nat)
    requires cs in {0, OUTSIDE}
    ensures Token(cs) == 0
  {
  }

  // ---- The version ---------------------------------------------------------------------------------

  lemma VersionTurn(x: Parser, y: Parser, a: string, b: string, p: nat, relaxed: bool)
    requires p < |b| && Same(x, y) && InVersion(x.cs) && (x.cs == 12 ==> b[p] != '\r' && b[p] != '\n')
    ensures var r, s := Step(x, b, p, relaxed), Step(y, a + b, p + |a|, relaxed);
            && Same(r, s) && r.mark == x.mark && s.mark == y.mark && (r.cs == 0 || InVersion(r.cs))
            && (r.cs != 0 ==> b[p] != 'H' && x.cs != 12)
  {
    hide StepMethod, StepTarget, StepPath, StepQuery, StepFragment, StepHex, StepHeader;
  }

  lemma VersionLine(m: Parser, buf: string, p: nat, relaxed: bool)
    requires p < |buf| && m.cs == 12 && (buf[p] == '\r' || buf[p] == '\n')
    ensures Step(m, buf, p, relaxed) == OnVersion(m, buf, p).(cs := if buf[p] == '\n' then 13 else 17)
  {
    hide StepMethod, StepTarget, StepPath, StepQuery, StepFragment, StepHex, StepHeader, OnVersion;
  }

  /** Text that does not start as a version is refused. */
  lemma BadVersion(m: Parser, buf: string, p: nat)
    requires 0 < p <= |buf| && m.mark == 0 && buf[0] != 'H'
    ensures OnVersion(m, buf, p).error != 0
  {
    var v := Slice(buf, 0, p);
    assert v[0] == buf[0] && "HTTP/1.1"[0] == 'H' && "HTTP/1.0"[0] == 'H';
  }

  /** From inside the version on, with a part of it in the piece. */
  lemma {:induction false} VersionRest(x: Parser, y: Parser, a: string, b: string, p: nat, relaxed: bool)
    requires 0 < p <= |b| && Same(x, y) && InVersion(x.cs) && x.mark == 0 && b[0] != 'H'
    ensures var X, Y := Run(x, b, p, relaxed).0, Run(y, a + b, p + |a|, relaxed).0;
            && (Token(Y.cs) == 5 ==> Same(X, Y))
            && (Fine(Y) && Same(X, Y) ==> Token(Y.cs) == 5)
    decreases |b| - p
  {
    hide Step, OnVersion;
    if p < |b| {
      var r, s := Step(x, b, p, relaxed), Step(y, a + b, p + |a|, relaxed);
      if x.cs == 12 && (b[p] == '\r' || b[p] == '\n') {
        assert (a + b)[p + |a|] == b[p];
        VersionLine(x, b, p, relaxed);
        VersionLine(y, a + b, p + |a|, relaxed);
        BadVersion(x, b, p);
        BehindToken(5, r, s, a, b, p + 1, relaxed);
      } else {
        VersionTurn(x, y, a, b, p, relaxed);
        if r.cs != 0 { VersionRest(r, s, a, b, p + 1, relaxed); }
      }
    }
  }

  /** What `on_request_version` takes for the newer version. */
  predicate ReadsNew(v: string) { SameUpTo(v, "HTTP/1.1") }

  /** Behind the whole version an empty text is left, which counts as `HTTP/1.1`. */
  lemma EmptyVersion(x: Parser, y: Parser, a: string, b: string, cs: nat)
    requires b != "" && Same(x, y) && x.mark == 0 && y.mark <= |a|
    ensures var r, s := OnVersion(x, b, 0).(cs := cs), OnVersion(y, a + b, |a|).(cs := cs);
            && (ReadsNew(a[y.mark..]) ==> Same(r, s))
            && (!ReadsNew(a[y.mark..]) && s.error == 0 ==> !SameToken(5, r.req, s.req))
  {
    assert Slice(b, 0, 0) == "" && Slice(a + b, y.mark, |a|) == a[y.mark..];
  }

  /** At the line end behind the version. */
  lemma VersionCutOff(x: Parser, y: Parser, a: string, b: string, relaxed: bool)
    requires b != "" && (b[0] == '\r' || b[0] == '\n')
    requires Same(x, y) && x.cs == 12 && x.mark == 0 && y.mark <= |a|
    ensures var X, Y := Run(x, b, 0, relaxed).0, Run(y, a + b, |a|, relaxed).0;
            && Token(Y.cs) != 5
            && (ReadsNew(a[y.mark..]) ==> Same(X, Y))
            && (Fine(Y) && Same(X, Y) ==> ReadsNew(a[y.mark..]))
  {
    hide Run, Step, OnVersion, ReadsNew, Token, Past, SameToken, Same;
    var r, s := Step(x, b, 0, relaxed), Step(y, a + b, |a|, relaxed);
    assert (a + b)[|a|] == b[0];
    SameState(x, y);
    VersionLine(x, b, 0, relaxed);
    VersionLine(y, a + b, |a|, relaxed);
    OneStep(x, b, 0, relaxed);
    OneStep(y, a + b, |a|, relaxed);
    EmptyVersion(x, y, a, b, s.cs);
    LinePast(s.cs);
    BehindToken(5, r, s, a, b, 1, relaxed);
  }

  lemma SameState(x: Parser, y: Parser)
    requires Same(x, y)
    ensures x.cs == y.cs
  {
  }

  lemma OneStep(m: Parser, buf: string, p: nat, relaxed: bool)
    requires p < |buf| && Live(Step(m, buf, p, relaxed).cs)
    ensures Run(m, buf, p, relaxed) == Run(Step(m, buf, p, relaxed), buf, p + 1, relaxed)
  {
    hide Step;
  }

  lemma LinePast(cs: nat)
    requires cs == 13 || cs == 17
    ensures Past(5, cs)
  {
  }

  lemma DeadStep(m: Parser, buf: string, p: nat, relaxed: bool)
    requires p < |buf| && Step(m, buf, p, relaxed).cs == 0
    ensures Run(m, buf, p, relaxed).0 == Step(m, buf, p, relaxed)
  {
    hide Step;
  }

  /** Before the end of the version. */
  lemma VersionCutIn(x: Parser, y: Parser, a: string, b: string, relaxed: bool)
    requires b != "" && Same(x, y) && InVersion(x.cs) && x.mark == 0 && (x.cs == 12 ==> b[0] != '\r' && b[0] != '\n')
    ensures var X, Y := Run(x, b, 0, relaxed).0, Run(y, a + b, |a|, relaxed).0;
            && (Token(Y.cs) == 5 || x.cs == 12 ==> Same(X, Y))
            && (Fine(Y) && Same(X, Y) ==> Token(Y.cs) == 5)
  {
    hide Run, Step, Token;
    var r, s := Step(x, b, 0, relaxed), Step(y, a + b, |a|, relaxed);
    VersionTurn(x, y, a, b, 0, relaxed);
    if r.cs != 0 {
      VersionLive(r.cs);
      OneStep(x, b, 0, relaxed);
      OneStep(y, a + b, |a|, relaxed);
      VersionRest(r, s, a, b, 1, relaxed);
    } else {
      DeadStep(x, b, 0, relaxed);
      DeadStep(y, a + b, |a|, relaxed);
    }
  }

  lemma VersionLive(cs: nat)
    requires InVersion(cs)
    ensures Live(cs) && Token(cs) == 5
  {
  }

  lemma RunNothing(m: Parser, buf: string, relaxed: bool)
    ensures Run(m, buf, |buf|, relaxed).0 == m
  {
  }

  /** From inside the version on: only all of `HTTP/1.1` may be cut off. */
  lemma VersionCut(x: Parser, y: Parser, a: string, b: string, relaxed: bool)
    requires Same(x, y) && InVersion(x.cs) && x.mark == 0 && y.mark <= |a|
    ensures var X, Y := Run(x, b, 0, relaxed).0, Run(y, a + b, |a|, relaxed).0;
            var same := x.cs == 12 && ReadsNew(a[y.mark..]);
            && (Token(Y.cs) == 5 || same ==> Same(X, Y))
            && (Fine(Y) && Same(X, Y) ==> Token(Y.cs) == 5 || same)
  {
    hide Run, Step, ReadsNew, Token;
    if b == "" {
      RunNothing(x, b, relaxed);
      RunNothing(y, a + b, relaxed);
      VersionLive(x.cs);
    } else if x.cs == 12 && (b[0] == '\r' || b[0] == '\n') {
      VersionCutOff(x, y, a, b, relaxed);
    } else {
      VersionCutIn(x, y, a, b, relaxed);
    }
  }

  // ---- Header lines --------------------------------------------------------------------------------

  /** The run up to the end of a header line. */
  function LineEnd(m: Parser, buf: string, p: nat, relaxed: bool): (r: (Parser, nat))
    requires p <= |buf|
    ensures p <= r.1 <= |buf|
    decreases |buf| - p
  {
    if p == |buf| then (m, p)
    else
      var n := Step(m, buf, p, relaxed);
      if n.cs == 0 || n.cs == OUTSIDE then (n, p)
      else if n.cs in {FINAL, 13, 17} then (n, p + 1)
      else LineEnd(n, buf, p + 1, relaxed)
  }

  predicate AtLineEnd(m: Parser) { m.cs == 13 || m.cs == 17 }

  lemma {:induction false} RunFromLine(m: Parser, buf: string, p: nat, relaxed: bool)
    requires p <= |buf|
    ensures var l := LineEnd(m, buf, p, relaxed);
            Run(m, buf, p, relaxed) == if AtLineEnd(l.0) then Run(l.0, buf, l.1, relaxed) else l
    decreases |buf| - p
  {
    hide Step;
    if p < |buf| {
      var n := Step(m, buf, p, relaxed);
      if Live(n.cs) && !AtLineEnd(n) { RunFromLine(n, buf, p + 1, relaxed); }
    }
  }

  /** Two line ends that differ at most in the headers. */
  predicate HeadersApart(x: Parser, y: Parser, r: (Parser, nat), s: (Parser, nat), d: nat) {
    && r.0.cs == s.0.cs && r.0.error == s.0.error && s.1 == r.1 + d
    && r.0.req == x.req.(headers := r.0.req.headers) && s.0.req == y.req.(headers := s.0.req.headers)
    && (!AtLineEnd(r.0) ==> Same(r.0, s.0))
  }

  lemma LostTurn(x: Parser, y: Parser, a: string, b: string, p: nat, relaxed: bool)
    requires p < |b| && Same(x, y) && x.cs in {15, 16} && x.fieldLen == 0
    ensures var r, s := Step(x, b, p, relaxed), Step(y, a + b, p + |a|, relaxed);
            && r.cs == s.cs && r.cs in {0, 13, 15, 16, 17} && r.error == s.error && r.req == x.req
            && (r.cs in {0, 15, 16} ==> Same(r, s) && r.fieldLen == 0)
            && s.req == y.req.(headers := s.req.headers)
  {
    hide StepMethod, StepTarget, StepPath, StepQuery, StepFragment, StepHex, StepVersion, Slice, SetHeader;
  }

  /** A line cut behind its name is not recorded. */
  lemma {:induction false} ValueLost(x: Parser, y: Parser, a: string, b: string, p: nat, relaxed: bool)
    requires p <= |b| && Same(x, y) && x.cs in {15, 16} && x.fieldLen == 0
    ensures var r, s := LineEnd(x, b, p, relaxed), LineEnd(y, a + b, p + |a|, relaxed);
            HeadersApart(x, y, r, s, |a|) && r.0.req.headers == x.req.headers
    decreases |b| - p
  {
    hide Step;
    if p < |b| {
      LostTurn(x, y, a, b, p, relaxed);
      var r, s := Step(x, b, p, relaxed), Step(y, a + b, p + |a|, relaxed);
      if r.cs in {15, 16} { ValueLost(r, s, a, b, p + 1, relaxed); }
    }
  }

  /** The headers with one more line; a line without a name is not recorded. */
  function WithLine(h: Headers, name: string, value: string): Headers {
    if name == "" then h else SetHeader(h, name, value)
  }

  /** Both runs are in the value of the same line, its name being cut off at the left in one of them. */
  predicate NameCut(x: Parser, y: Parser, a: string, k: nat, p: nat) {
    && x.cs in {15, 16} && Same(x, y) && k <= p && y.fieldStart < |a|
    && x.fieldStart == 0 && x.fieldLen == k && y.fieldLen == |a| + k - y.fieldStart
    && (x.cs == 16 ==> y.mark == x.mark + |a|)
  }

  lemma CutFields(x: Parser, y: Parser, a: string, b: string, k: nat, p: nat)
    requires p <= |b| && NameCut(x, y, a, k, p) && y.mark == x.mark + |a|
    ensures var V, N := Slice(b, x.mark, p), Slice(a + b, y.fieldStart, |a| + k);
            && OnField(x, b, p) == x.(req := x.req.(headers := WithLine(x.req.headers, b[..k], V)))
            && OnField(y, a + b, p + |a|) == y.(req := y.req.(headers := WithLine(y.req.headers, N, V)))
  {
    hide SetHeader;
    SliceMoved(a, b, x.mark, p);
    assert Slice(b, 0, k) == b[..k];
  }

  lemma CutTurn(x: Parser, y: Parser, a: string, b: string, k: nat, p: nat, relaxed: bool) returns (V: string)
    requires p < |b| && NameCut(x, y, a, k, p)
    ensures var r, s := Step(x, b, p, relaxed), Step(y, a + b, p + |a|, relaxed);
            && r.cs == s.cs && r.cs in {0, 13, 15, 16, 17} && r.error == s.error
            && (r.cs == 0 ==> Same(r, s) && r.req == x.req)
            && (r.cs in {15, 16} ==> NameCut(r, s, a, k, p + 1) && s.fieldStart == y.fieldStart && r.req == x.req)
            && (r.cs in {13, 17} ==>
                  && r.req == x.req.(headers := WithLine(x.req.headers, b[..k], V))
                  && s.req == y.req.(headers := WithLine(y.req.headers, Slice(a + b, y.fieldStart, |a| + k), V)))
  {
    hide StepMethod, StepTarget, StepPath, StepQuery, StepFragment, StepHex, StepVersion, Slice, WithLine, OnField, ValueChar;
    var x', y' := if x.cs == 15 then x.(mark := p) else x, if x.cs == 15 then y.(mark := p + |a|) else y;
    CutFields(x', y', a, b, k, p);
    V := Slice(b, x'.mark, p);
  }

  lemma {:induction false} ValueCut(x: Parser, y: Parser, a: string, b: string, k: nat, p: nat, relaxed: bool) returns (V: string)
    requires p <= |b| && NameCut(x, y, a, k, p)
    ensures var r, s := LineEnd(x, b, p, relaxed), LineEnd(y, a + b, p + |a|, relaxed);
            && HeadersApart(x, y, r, s, |a|)
            && (AtLineEnd(r.0) ==>
                  && r.0.req.headers == WithLine(x.req.headers, b[..k], V)
                  && s.0.req.headers == WithLine(y.req.headers, Slice(a + b, y.fieldStart, |a| + k), V))
    decreases |b| - p
  {
    hide Step, WithLine, Slice;
    V := "";
    if p < |b| {
      V := CutTurn(x, y, a, b, k, p, relaxed);
      var r, s := Step(x, b, p, relaxed), Step(y, a + b, p + |a|, relaxed);
      if r.cs in {15, 16} { V := ValueCut(r, s, a, b, k, p + 1, relaxed); }
    }
  }

  /** The length of the text before the first colon. */
  function ColonAt(s: string): (n: nat)
    ensures n <= |s| && forall i :: 0 <= i < n ==> s[i] != ':'
    ensures n < |s| ==> s[n] == ':'
  {
    if s == "" || s[0] == ':' then 0 else 1 + ColonAt(s[1..])
  }

  lemma NameTurn(x: Parser, y: Parser, a: string, b: string, p: nat, relaxed: bool)
    requires p < |b| && Same(x, y) && x.cs in {14, 18} && x.fieldStart == 0 && y.fieldStart < |a|
    requires x.cs == 18 ==> b[p] != '\n'
    ensures var r, s := Step(x, b, p, relaxed), Step(y, a + b, p + |a|, relaxed);
            && Same(r, s) && r.req == x.req && r.cs in {0, 14, 15} && r.fieldStart == 0 && s.fieldStart == y.fieldStart
            && (r.cs == 14 ==> b[p] != ':')
            && (r.cs == 15 ==> b[p] == ':' && NameCut(r, s, a, p, p + 1))
  {
    hide StepMethod, StepTarget, StepPath, StepQuery, StepFragment, StepHex, StepVersion;
  }

  /** A line cut within its name is recorded under what is left of the name. */
  lemma {:induction false} NameCutLine(x: Parser, y: Parser, a: string, b: string, p: nat, relaxed: bool) returns (V: string)
    requires p <= |b| && Same(x, y) && x.cs in {14, 18} && x.fieldStart == 0 && y.fieldStart < |a|
    requires x.cs == 18 && p < |b| ==> b[p] != '\n'
    requires forall i :: 0 <= i < p ==> b[i] != ':'
    ensures var r, s := LineEnd(x, b, p, relaxed), LineEnd(y, a + b, p + |a|, relaxed);
            && HeadersApart(x, y, r, s, |a|)
            && (AtLineEnd(r.0) ==>
                  var k := ColonAt(b);
                  && k < |b| && r.0.req.headers == WithLine(x.req.headers, b[..k], V)
                  && s.0.req.headers == WithLine(y.req.headers, Slice(a + b, y.fieldStart, |a| + k), V))
    decreases |b| - p
  {
    hide Step, WithLine, Slice;
    V := "";
    if p < |b| {
      NameTurn(x, y, a, b, p, relaxed);
      var r, s := Step(x, b, p, relaxed), Step(y, a + b, p + |a|, relaxed);
      if r.cs == 14 {
        V := NameCutLine(r, s, a, b, p + 1, relaxed);
      } else if r.cs == 15 {
        V := ValueCut(r, s, a, b, p, p + 1, relaxed);
      }
    }
  }

  lemma SetUnchanged(h: Headers, name: string, value: string)
    ensures SetHeader(h, name, value) == h <==> Fold(name) in h && h[Fold(name)].value == value
  {
    hide Fold;
  }

  /** A line under a shorter name has the same effect exactly if both repeat what is there. */
  lemma ShorterName(h: Headers, whole: string, rest: string, value: string)
    requires |rest| < |whole|
    ensures WithLine(h, whole, value) == WithLine(h, rest, value) <==>
            && SetHeader(h, whole, value) == h
            && (rest == "" || (Fold(rest) in h && h[Fold(rest)].value == h[Fold(whole)].value))
  {
    SetUnchanged(h, whole, value);
    SetUnchanged(h, rest, value);
    assert Fold(whole) != Fold(rest);
    hide Fold;
    var u, v := WithLine(h, whole, value), WithLine(h, rest, value);
    if u == v && rest != "" {
      assert Fold(whole) in u && Fold(rest) in u;
      assert Fold(whole) in v && Fold(rest) in v;
    }
  }

  /**
   * A header line that may be cut in front of `c`: it repeats what is already set, and so does, for a cut in
   * the name, the line with what is left of the name.
   */
  predicate Repeats(w: Parser, t: string, c: nat, relaxed: bool)
    requires c <= |t|
  {
    var h, g := w.req.headers, LineEnd(w, t, c, relaxed).0.req.headers;
    g == h &&
    (w.cs in {14, 18} ==>
       var k := ColonAt(t[c..]);
       var rest, whole := t[c..c + k], Slice(t, w.fieldStart, c + k);
       k == 0 || (Fold(rest) in h && Fold(whole) in h && h[Fold(rest)].value == h[Fold(whole)].value))
  }

  /** The agreement of two line ends is that of their headers. */
  lemma HeadersDecide(x: Parser, y: Parser, r: (Parser, nat), s: (Parser, nat), d: nat)
    requires Same(x, y) && HeadersApart(x, y, r, s, d)
    ensures Same(r.0, s.0) <==> r.0.req.headers == s.0.req.headers
  {
  }

  lemma RepeatsName(y: Parser, a: string, b: string, g: Headers, k: nat, V: string, relaxed: bool)
    requires y.cs in {14, 18} && k == ColonAt(b) && k < |b| && y.fieldStart < |a|
    requires g == LineEnd(y, a + b, |a|, relaxed).0.req.headers
    requires g == WithLine(y.req.headers, Slice(a + b, y.fieldStart, |a| + k), V)
    ensures Repeats(y, a + b, |a|, relaxed) <==> g == WithLine(y.req.headers, b[..k], V)
  {
    hide Fold, SetHeader, LineEnd, WithLine, ColonAt;
    assert (a + b)[|a|..] == b && (a + b)[|a|..|a| + k] == b[..k];
    var whole := Slice(a + b, y.fieldStart, |a| + k);
    WithName(y.req.headers, whole, V);
    ShorterName(y.req.headers, whole, b[..k], V);
    SetUnchanged(y.req.headers, whole, V);
  }

  lemma WithName(h: Headers, name: string, value: string)
    requires name != ""
    ensures WithLine(h, name, value) == SetHeader(h, name, value)
  {
  }

  /** From inside a header line on, up to its end. */
  lemma FieldCut(x: Parser, y: Parser, a: string, b: string, relaxed: bool)
    requires Same(x, y) && NeedsField(x.cs) && (x.cs == 18 && b != "" ==> b[0] != '\n')
    requires x.fieldStart == 0 && x.fieldLen == 0 && y.fieldStart < |a|
    ensures var r, s := LineEnd(x, b, 0, relaxed), LineEnd(y, a + b, |a|, relaxed);
            && HeadersApart(x, y, r, s, |a|)
            && (AtLineEnd(r.0) ==> (Same(r.0, s.0) <==> Repeats(y, a + b, |a|, relaxed)))
            && (AtLineEnd(r.0) && x.cs in {14, 18} ==> ColonAt(b) < |b|)
  {
    hide LineEnd, HeadersApart, WithLine, Slice, ColonAt, Same;
    var r, s := LineEnd(x, b, 0, relaxed), LineEnd(y, a + b, |a|, relaxed);
    SameHeaders(x, y);
    if x.cs in {15, 16} {
      ValueLost(x, y, a, b, 0, relaxed);
      HeadersDecide(x, y, r, s, |a|);
    } else {
      var V := NameCutLine(x, y, a, b, 0, relaxed);
      HeadersDecide(x, y, r, s, |a|);
      hide Repeats;
      if AtLineEnd(r.0) { RepeatsName(y, a, b, s.0.req.headers, ColonAt(b), V, relaxed); }
    }
  }

  lemma SameHeaders(x: Parser, y: Parser)
    requires Same(x, y)
    ensures x.cs == y.cs && x.req.headers == y.req.headers
  {
  }

  // ---- Marks of an uncut run -----------------------------------------------------------------------

  /** Tokens that are open have been opened before the position. */
  predicate Opened(m: Parser, p: nat) {
    && Behind(m, p)
    && (InPath(m.cs) || InFragment(m.cs) || InVersion(m.cs) ==> m.mark < p)
    && (NeedsQuery(m.cs) ==> m.queryStart < p)
    && (NeedsField(m.cs) ==> m.fieldStart < p)
  }

  lemma OpenedLine(m: Parser, buf: string, p: nat, relaxed: bool)
    requires p < |buf| && Opened(m, p) && (InMethod(m.cs) || m.cs == 1 || 4 <= m.cs <= 18)
    ensures Opened(Step(m, buf, p, relaxed), p + 1)
  {
    hide FindMethod, Slice, SameUpTo, SetHeader, NameChar, NameStart, ValueChar, StepTarget, StepPath, StepQuery, StepFragment, StepHex;
  }

  lemma StepOpened(m: Parser, buf: string, p: nat, relaxed: bool)
    requires p < |buf| && Opened(m, p) && Live(m.cs)
    ensures Opened(Step(m, buf, p, relaxed), p + 1)
  {
    if InMethod(m.cs) || m.cs == 1 || 4 <= m.cs <= 18 {
      OpenedLine(m, buf, p, relaxed);
    } else {
      hide StepMethod, StepVersion, StepHeader, Slice, UriChar, QueryChar, Hex;
    }
  }

  lemma {:induction false} RunOpened(m: Parser, buf: string, p: nat, relaxed: bool)
    requires p <= |buf| && Opened(m, p) && Live(m.cs)
    ensures var r := Run(m, buf, p, relaxed); Live(r.0.cs) ==> r.1 == |buf| && Opened(r.0, |buf|)
    decreases |buf| - p
  {
    hide Step, Opened;
    if p < |buf| {
      StepOpened(m, buf, p, relaxed);
      var n := Step(m, buf, p, relaxed);
      if Live(n.cs) { RunOpened(n, buf, p + 1, relaxed); }
    }
  }

  /** Every later header line starts later. */
  predicate LaterLine(m: Parser, q: nat) {
    (13 <= m.cs <= 18 || m.cs == 0 || m.cs == FINAL) && (NeedsField(m.cs) ==> m.fieldStart >= q)
  }

  lemma StepLater(m: Parser, buf: string, p: nat, q: nat, relaxed: bool)
    requires q <= p < |buf| && LaterLine(m, q) && Live(m.cs)
    ensures LaterLine(Step(m, buf, p, relaxed), q)
  {
    hide StepMethod, StepTarget, StepPath, StepQuery, StepFragment, StepHex, StepVersion, Slice, SetHeader, NameChar, NameStart, ValueChar;
  }

  lemma {:induction false} RunLater(m: Parser, buf: string, p: nat, q: nat, relaxed: bool)
    requires q <= p <= |buf| && LaterLine(m, q) && Live(m.cs)
    ensures LaterLine(Run(m, buf, p, relaxed).0, q)
    decreases |buf| - p
  {
    hide Step, LaterLine;
    if p < |buf| {
      StepLater(m, buf, p, q, relaxed);
      var n := Step(m, buf, p, relaxed);
      if Live(n.cs) { RunLater(n, buf, p + 1, q, relaxed); }
    }
  }

  /** A line that ends in a text ends there in every longer text. */
  lemma {:induction false} LineBefore(m: Parser, a: string, b: string, p: nat, relaxed: bool)
    requires p <= |a| && Behind(m, p) && Live(m.cs)
    ensures var l := LineEnd(m, a, p, relaxed); AtLineEnd(l.0) && l.1 > p ==> LineEnd(m, a + b, p, relaxed) == l
    decreases |a| - p
  {
    hide Step, Behind;
    if p < |a| {
      StepBefore(m, a, b, p, relaxed);
      var n := Step(m, a, p, relaxed);
      if Live(n.cs) && !AtLineEnd(n) { LineBefore(n, a, b, p + 1, relaxed); }
    }
  }

  // ---- Which cuts go unnoticed ---------------------------------------------------------------------

  /**
   * A cut of `t` in front of `c`, where the uncut run is in state `w`, that changes nothing: between tokens;
   * in the method, if the rest of the text starts with the method that all of it starts with; behind
   * `HTTP/1.1`; in a header line that repeats what is set.
   */
  predicate Unseen(w: Parser, t: string, c: nat, relaxed: bool)
    requires c < |t|
  {
    || SafeAt(w.cs, t[c])
    || (InMethod(w.cs) && w.mark <= |t| && FindMethod(t[c..], 0) == FindMethod(t[w.mark..], 0))
    || (w.cs == 12 && w.mark <= c && ReadsNew(t[w.mark..c]))
    || (NeedsField(w.cs) && Repeats(w, t, c, relaxed))
  }

  /** The token that is open in state `w` is still open in the later state `v`. */
  predicate StillOpen(w: Parser, v: Parser) {
    Token(w.cs) != 0 && Token(v.cs) == Token(w.cs) && (Token(w.cs) == 6 ==> v.fieldStart == w.fieldStart)
  }

  /** In a piece that ends at `e`. */
  lemma MethodPiece(m: Parser, w: Parser, t: string, c: nat, e: nat, relaxed: bool)
    requires c < e <= |t| && Opened(w, c) && Same(m, w) && InMethod(w.cs)
    ensures var X, Y := Run(Reset(m), t[c..e], 0, relaxed).0, Run(w, t[..e], c, relaxed).0;
            && (StillOpen(w, Y) || Unseen(w, t, c, relaxed) ==> Same(X, Y))
            && (Fine(Y) && Same(X, Y) ==> StillOpen(w, Y) || Unseen(w, t, c, relaxed))
  {
    hide Run, FindMethod, MethodName, Repeats, ReadsNew;
    var a, b := t[..c], t[c..e];
    assert a + b == t[..e];
    MethodCut(Reset(m), w, a, b, 0, relaxed);
    assert b[0..] == b;
    if ' ' in b {
      var k :| 0 <= k < |b| && b[k] == ' ';
      FindBehind(b, t[e..], k, 0);
      assert b + t[e..] == t[c..];
      var u := (a + b)[w.mark..];
      assert u[c - w.mark + k] == ' ';
      FindBehind(u, t[e..], c - w.mark + k, 0);
      assert u + t[e..] == t[w.mark..];
    }
  }

  lemma PartPiece(m: Parser, w: Parser, t: string, c: nat, e: nat, relaxed: bool)
    requires c < e <= |t| && Opened(w, c) && Same(m, w) && 2 <= Token(w.cs) <= 4
    ensures var X, Y := Run(Reset(m), t[c..e], 0, relaxed).0, Run(w, t[..e], c, relaxed).0;
            && (StillOpen(w, Y) || Unseen(w, t, c, relaxed) ==> Same(X, Y))
            && (Fine(Y) && Same(X, Y) ==> StillOpen(w, Y) || Unseen(w, t, c, relaxed))
  {
    hide Run, Repeats, ReadsNew, FindMethod;
    var a, b := t[..c], t[c..e];
    assert a + b == t[..e];
    PartCut(Token(w.cs), Reset(m), w, a, b, 0, relaxed);
  }

  lemma VersionPiece(m: Parser, w: Parser, t: string, c: nat, e: nat, relaxed: bool)
    requires c < e <= |t| && Opened(w, c) && Same(m, w) && InVersion(w.cs)
    ensures var X, Y := Run(Reset(m), t[c..e], 0, relaxed).0, Run(w, t[..e], c, relaxed).0;
            && (StillOpen(w, Y) || Unseen(w, t, c, relaxed) ==> Same(X, Y))
            && (Fine(Y) && Same(X, Y) ==> StillOpen(w, Y) || Unseen(w, t, c, relaxed))
  {
    hide Run, Repeats, ReadsNew, FindMethod;
    var a, b := t[..c], t[c..e];
    assert a + b == t[..e] && a[w.mark..] == t[w.mark..c];
    VersionCut(Reset(m), w, a, b, relaxed);
  }

  lemma ColonBefore(s: string, u: string)
    requires ColonAt(s) < |s|
    ensures ColonAt(s + u) == ColonAt(s)
  {
    hide ColonAt;
    var k := ColonAt(s);
    assert (s + u)[k] == ':' && forall i :: 0 <= i < k ==> (s + u)[i] == s[i];
  }

  /** What a line repeats is seen in every text that contains its end. */
  lemma RepeatsBefore(w: Parser, t: string, c: nat, e: nat, relaxed: bool)
    requires c < e <= |t| && Opened(w, c) && NeedsField(w.cs) && AtLineEnd(LineEnd(w, t[..e], c, relaxed).0)
    requires w.cs in {14, 18} ==> ColonAt(t[c..e]) < |t[c..e]|
    ensures Repeats(w, t, c, relaxed) <==> Repeats(w, t[..e], c, relaxed)
  {
    hide LineEnd, ColonAt, Fold;
    assert t[..e] + t[e..] == t && t[c..e] + t[e..] == t[c..] && t[..e][c..] == t[c..e];
    LineMoves(w, t[..e], c, relaxed);
    LineBefore(w, t[..e], t[e..], c, relaxed);
    if w.cs in {14, 18} {
      ColonBefore(t[c..e], t[e..]);
      var k := ColonAt(t[c..e]);
      assert t[..e][c..c + k] == t[c..c + k];
      assert Slice(t[..e], w.fieldStart, c + k) == Slice(t, w.fieldStart, c + k);
    }
  }

  lemma LineMoves(m: Parser, buf: string, p: nat, relaxed: bool)
    requires p <= |buf| && !AtLineEnd(m)
    ensures AtLineEnd(LineEnd(m, buf, p, relaxed).0) ==> LineEnd(m, buf, p, relaxed).1 > p
  {
    hide Step;
  }

  lemma AfterLine(r: (Parser, nat), s: (Parser, nat), a: string, b: string, relaxed: bool)
    requires r.1 <= |b| && s.1 == r.1 + |a| && AtLineEnd(s.0) && Same(r.0, s.0)
    ensures Same(Run(r.0, b, r.1, relaxed).0, Run(s.0, a + b, s.1, relaxed).0)
  {
    hide Run;
    RunMoved(r.0, s.0, a, b, r.1, relaxed);
  }

  lemma FieldPiece(m: Parser, w: Parser, t: string, c: nat, e: nat, relaxed: bool)
    requires c < e <= |t| && Opened(w, c) && Same(m, w) && NeedsField(w.cs) && !SafeAt(w.cs, t[c])
    ensures var X, Y := Run(Reset(m), t[c..e], 0, relaxed).0, Run(w, t[..e], c, relaxed).0;
            StillOpen(w, Y) || Repeats(w, t, c, relaxed) ==> Same(X, Y)
  {
    hide Run, LineEnd, Repeats, ColonAt, Same;
    var a, b := t[..c], t[c..e];
    assert a + b == t[..e] && b[0] == t[c];
    SameState(m, w);
    ResetSame(m, w);
    FieldCut(Reset(m), w, a, b, relaxed);
    RunFromLine(Reset(m), b, 0, relaxed);
    RunFromLine(w, a + b, |a|, relaxed);
    var r, s := LineEnd(Reset(m), b, 0, relaxed), LineEnd(w, a + b, |a|, relaxed);
    if AtLineEnd(s.0) {
      RunLater(s.0, a + b, s.1, c, relaxed);
      NotOpen(w, Run(s.0, a + b, s.1, relaxed).0, c);
      RepeatsBefore(w, t, c, e, relaxed);
      if Same(r.0, s.0) { AfterLine(r, s, a, b, relaxed); }
    }
  }

  lemma ResetSame(m: Parser, w: Parser)
    requires Same(m, w)
    ensures Same(Reset(m), w)
  {
  }

  lemma NotOpen(w: Parser, v: Parser, c: nat)
    requires Opened(w, c) && NeedsField(w.cs) && LaterLine(v, c)
    ensures !StillOpen(w, v)
  {
  }

  /** A piece whose first cut goes unnoticed, or that ends within the token that was cut, changes nothing. */
  lemma PieceUnseen(m: Parser, w: Parser, t: string, c: nat, e: nat, relaxed: bool)
    requires c < e <= |t| && Live(w.cs) && Opened(w, c) && Same(m, w)
    ensures var X, Y := Run(Reset(m), t[c..e], 0, relaxed).0, Run(w, t[..e], c, relaxed).0;
            Unseen(w, t, c, relaxed) || StillOpen(w, Y) ==> Same(X, Y)
  {
    hide Run, Same, Opened, Repeats, ReadsNew, FindMethod, MethodName;
    assert t[..c] + t[c..e] == t[..e] && t[c..e][0] == t[c];
    SameState(m, w);
    if SafeAt(w.cs, t[c]) { CutUnseen(m, w, t[..c], t[c..e], relaxed); }
    else if InMethod(w.cs) { MethodPiece(m, w, t, c, e, relaxed); }
    else if 2 <= Token(w.cs) <= 4 { PartPiece(m, w, t, c, e, relaxed); }
    else if InVersion(w.cs) { VersionPiece(m, w, t, c, e, relaxed); }
    else if NeedsField(w.cs) { FieldPiece(m, w, t, c, e, relaxed); }
  }

  /**
   * Cuts in the tokens of the request line go unnoticed exactly in these cases, as long as the uncut run does not fail
   * within the piece.
   */
  lemma RequestLineExact(m: Parser, w: Parser, t: string, c: nat, e: nat, relaxed: bool)
    requires c < e <= |t| && Opened(w, c) && Same(m, w) && 1 <= Token(w.cs) <= 5
    requires Fine(Run(w, t[..e], c, relaxed).0)
    ensures var X, Y := Run(Reset(m), t[c..e], 0, relaxed).0, Run(w, t[..e], c, relaxed).0;
            Same(X, Y) <==> Unseen(w, t, c, relaxed) || StillOpen(w, Y)
  {
    hide Run, Same, Opened, Unseen, StillOpen, Fine;
    if InMethod(w.cs) { MethodPiece(m, w, t, c, e, relaxed); }
    else if 2 <= Token(w.cs) <= 4 { PartPiece(m, w, t, c, e, relaxed); }
    else { VersionPiece(m, w, t, c, e, relaxed); }
  }

  /** A cut in a header line gives the same request at the end of the line exactly in these cases. */
  lemma HeaderLineExact(m: Parser, w: Parser, t: string, c: nat, relaxed: bool)
    requires c < |t| && Opened(w, c) && Same(m, w) && NeedsField(w.cs)
    requires !SafeAt(w.cs, t[c]) && AtLineEnd(LineEnd(w, t, c, relaxed).0)
    ensures Same(LineEnd(Reset(m), t[c..], 0, relaxed).0, LineEnd(w, t, c, relaxed).0) <==> Unseen(w, t, c, relaxed)
  {
    hide LineEnd, Repeats, Same, FindMethod, ReadsNew;
    var a, b := t[..c], t[c..];
    assert a + b == t && b[0] == t[c];
    SameState(m, w);
    ResetSame(m, w);
    FieldCut(Reset(m), w, a, b, relaxed);
  }

  /**
   * One cut of an accepted head: in a token of its request line, it goes unnoticed if and only if it does so by
   * `Unseen`.
   */
  lemma CutExact(t: string, c: nat, relaxed: bool)
    requires 0 < c < |t|
    requires var w := Run(NEW_PARSER, t[..c], 0, relaxed).0; Live(w.cs) && 1 <= Token(w.cs) <= 5
    requires var r := Run(NEW_PARSER, t, 0, relaxed).0; r.cs == FINAL && r.error == 0
    ensures var w := Run(NEW_PARSER, t[..c], 0, relaxed).0;
            Same(Run(Reset(w), t[c..], 0, relaxed).0, Run(NEW_PARSER, t, 0, relaxed).0) <==> Unseen(w, t, c, relaxed)
  {
    var w := UncutState(t, c, relaxed);
    hide Run, Unseen, Opened;
    assert t[..|t|] == t && t[c..|t|] == t[c..];
    RequestLineExact(w, w, t, c, |t|, relaxed);
  }

  /** The state in which the uncut run is at a cut. */
  lemma UncutState(t: string, c: nat, relaxed: bool) returns (w: Parser)
    requires c <= |t|
    ensures w == Run(NEW_PARSER, t[..c], 0, relaxed).0
    ensures Live(w.cs) ==> Opened(w, c) && forall e :: c <= e <= |t| ==>
              Run(NEW_PARSER, t[..e], 0, relaxed) == Run(w, t[..e], c, relaxed)
  {
    w := Run(NEW_PARSER, t[..c], 0, relaxed).0;
    hide Run;
    RunOpened(NEW_PARSER, t[..c], 0, relaxed);
    forall e | c <= e <= |t| && Live(w.cs) ensures Run(NEW_PARSER, t[..e], 0, relaxed) == Run(w, t[..e], c, relaxed) {
      assert t[..c] + t[c..e] == t[..e];
      RunBefore(NEW_PARSER, t[..c], t[c..e], 0, relaxed);
    }
  }

  // ---- Inputs --------------------------------------------------------------------------------------

  /** Letters up to a blank, within the length of a method. */
  lemma {:induction false} RunToBlank(m: Parser, buf: string, p: nat, q: nat, relaxed: bool) returns (n: Parser)
    requires p <= q < |buf| && buf[q] == ' ' && 175 <= m.cs && m.cs + (q - p) <= 193 && m.mark <= |buf|
    requires forall i :: p <= i < q ==> UpperOrDigit(buf[i])
    ensures Run(m, buf, p, relaxed) == Run(n, buf, q + 1, relaxed) && n.cs == 3
    ensures n == WithMethod(m.(cs := n.cs), FindMethod(buf[m.mark..], 0)).(cs := 3)
    decreases q - p
  {
    hide FindMethod, MethodName, UpperOrDigit;
    if p == q {
      MethodBlank(m, buf, p, relaxed);
      n := Step(m, buf, p, relaxed);
      OneStep(m, buf, p, relaxed);
    } else {
      LetterStep(m, buf, p, relaxed);
      OneStep(m, buf, p, relaxed);
      n := RunToBlank(m.(cs := m.cs + 1), buf, p + 1, q, relaxed);
    }
  }

  lemma LetterStep(m: Parser, buf: string, p: nat, relaxed: bool)
    requires p < |buf| && 175 <= m.cs < 193 && UpperOrDigit(buf[p])
    ensures Step(m, buf, p, relaxed) == m.(cs := m.cs + 1)
  {
  }

  function Subscribe(): string { "SUBSCRIBE " }

  /** A cut behind `UN` of UNSUBSCRIBE is accepted, as SUBSCRIBE, which is method 26. */
  lemma Misread(piece: string, relaxed: bool) returns (n: Parser)
    requires Subscribe() <= piece
    ensures var m := Run(NEW_PARSER, "UN", 0, relaxed).0;
            Live(m.cs) && Run(Reset(m), piece, 0, relaxed) == Run(n, piece, 10, relaxed)
    ensures n.cs == 3 && n.error == 0 && n.req.verb == 26
  {
    hide Run, Step, Subscribe;
    var m := TwoLetters(relaxed);
    n := SecondPart(m, piece, relaxed);
  }

  lemma SecondPart(m: Parser, piece: string, relaxed: bool) returns (n: Parser)
    requires Subscribe() <= piece && m.cs == 175 && m.error == 0
    ensures Run(Reset(m), piece, 0, relaxed) == Run(n, piece, 10, relaxed)
    ensures n.cs == 3 && n.error == 0 && n.req.verb == 26
  {
    hide Run, Step, FindMethod, MethodName, WithMethod, Subscribe, UpperOrDigit;
    SubscribeLetters(piece);
    FoundSubscribe(piece);
    n := RunToBlank(Reset(m), piece, 0, 9, relaxed);
    assert piece[0..] == piece;
    WithFound(Reset(m).(cs := 3), 26);
  }

  lemma WithFound(m: Parser, f: nat)
    requires f < INVALID_METHOD
    ensures WithMethod(m, f) == m.(req := m.req.(verb := f), cs := 3)
  {
  }

  lemma TwoLetters(relaxed: bool) returns (m: Parser)
    ensures m == Run(NEW_PARSER, "UN", 0, relaxed).0 && m.cs == 175 && m.mark == 0 && m.error == 0
  {
    var n := Step(NEW_PARSER, "UN", 0, relaxed);
    assert n == NEW_PARSER.(mark := 0, cs := 2);
    m := Step(n, "UN", 1, relaxed);
  }

  lemma SubscribeLetters(piece: string)
    requires Subscribe() <= piece
    ensures |piece| >= 10 && piece[9] == ' ' && forall i :: 0 <= i < 9 ==> UpperOrDigit(piece[i])
  {
    var s := "SUBSCRIBE ";
    assert forall i :: 0 <= i < 10 ==> piece[i] == s[i];
  }

  lemma FoundSubscribe(piece: string)
    requires Subscribe() <= piece
    ensures FindMethod(piece, 0) == 26
  {
    assert MethodName(26) <= Subscribe();
    MethodFound(26, piece);
  }
}
