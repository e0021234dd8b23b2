/**
 * A head that arrives in several pieces. The automaton's marks are reset on every call; where no mark is
 * pending, a cut between two pieces goes unnoticed.
 */
module HttpSplit {
  import opened HttpMessage
  import opened HttpAutomaton

  predicate Live(cs: nat) { cs != 0 && cs != OUTSIDE && cs != FINAL }

  // ---- The same run further right ------------------------------------------------------------------

  predicate InMethod(cs: nat) { cs == 2 || 175 <= cs <= 193 }

  /** States in which the mark will be used. */
  predicate NeedsMark(cs: nat) { InMethod(cs) || 5 <= cs <= 12 || cs == 16 || 21 <= cs <= 23 || 26 <= cs <= 28 || cs == 33 }

  /** States in which the start of the header name will be used. */
  predicate NeedsField(cs: nat) { cs in {14, 15, 16, 18} }

  predicate NeedsQuery(cs: nat) { 30 <= cs <= 32 }

  /** All that a run hands on to its callers. */
  predicate Same(x: Parser, y: Parser) {
    x.cs == y.cs && x.error == y.error && x.req == y.req
  }

  /** `y` is `x` with every mark that matters moved by `d`. */
  predicate Moved(x: Parser, y: Parser, d: nat) {
    && Same(x, y)
    && (NeedsMark(x.cs) ==> y.mark == x.mark + d)
    && (NeedsField(x.cs) ==> y.fieldStart == x.fieldStart + d)
    && (x.cs in {15, 16} ==> y.fieldLen == x.fieldLen)
    && (NeedsQuery(x.cs) ==> y.queryStart == x.queryStart + d)
  }

  lemma SliceMoved(a: string, b: string, from: nat, to: nat)
    ensures Slice(a + b, from + |a|, to + |a|) == Slice(b, from, to)
  {
  }

  lemma MethodMoved(x: Parser, y: Parser, a: string, b: string, p: nat)
    requires p < |b| && Moved(x, y, |a|) && (x.cs == 1 || InMethod(x.cs))
    ensures Moved(StepMethod(x, b, p), StepMethod(y, a + b, p + |a|), |a|)
  {
    hide FindMethod, Slice;
    SliceMoved(a, b, x.mark, |b|);
  }

  lemma TargetMoved(x: Parser, y: Parser, a: string, b: string, p: nat, relaxed: bool)
    requires p < |b| && Moved(x, y, |a|) && x.cs in {3, 26, 33}
    ensures x.cs != 26 ==> Moved(StepTarget(x, b, p, relaxed), StepTarget(y, a + b, p + |a|, relaxed), |a|)
    ensures x.cs == 26 ==> Moved(StepPath(x, b, p, relaxed), StepPath(y, a + b, p + |a|, relaxed), |a|)
  {
    hide Slice, UriChar;
    SliceMoved(a, b, x.mark, p);
    SliceMoved(a, b, p, p);
  }

  lemma QueryMoved(x: Parser, y: Parser, a: string, b: string, p: nat, relaxed: bool)
    requires p < |b| && Moved(x, y, |a|) && x.cs in {29, 30}
    ensures Moved(StepQuery(x, b, p, relaxed), StepQuery(y, a + b, p + |a|, relaxed), |a|)
  {
    hide Slice, QueryChar;
    SliceMoved(a, b, x.queryStart, p);
    SliceMoved(a, b, p, p);
  }

  lemma FragmentMoved(x: Parser, y: Parser, a: string, b: string, p: nat, relaxed: bool)
    requires p < |b| && Moved(x, y, |a|) && x.cs in {20, 21}
    ensures Moved(StepFragment(x, b, p, relaxed), StepFragment(y, a + b, p + |a|, relaxed), |a|)
  {
    hide Slice, QueryChar;
    SliceMoved(a, b, x.mark, p);
    SliceMoved(a, b, p, p);
  }

  lemma HexMoved(x: Parser, y: Parser, a: string, b: string, p: nat)
    requires p < |b| && Moved(x, y, |a|) && x.cs in {22, 23, 27, 28, 31, 32}
    ensures Moved(StepHex(x, b, p), StepHex(y, a + b, p + |a|), |a|)
  {
    hide Hex;
  }

  lemma VersionMoved(x: Parser, y: Parser, a: string, b: string, p: nat)
    requires p < |b| && Moved(x, y, |a|) && 4 <= x.cs <= 12
    ensures Moved(StepVersion(x, b, p), StepVersion(y, a + b, p + |a|), |a|)
  {
    hide Slice, SameUpTo;
    SliceMoved(a, b, x.mark, p);
  }

  lemma FieldMoved(x: Parser, y: Parser, a: string, b: string, p: nat)
    requires p < |b| && Moved(x.(mark := 0), y.(mark := |a|), |a|) && x.cs in {15, 16} && y.mark == x.mark + |a|
    ensures Same(OnField(x, b, p), OnField(y, a + b, p + |a|))
  {
    hide Slice, SetHeader;
    SliceMoved(a, b, x.mark, p);
    SliceMoved(a, b, x.fieldStart, x.fieldStart + x.fieldLen);
  }

  lemma ValueMoved(x: Parser, y: Parser, a: string, b: string, p: nat)
    requires p < |b| && Moved(x, y, |a|) && x.cs in {15, 16}
    ensures Moved(StepHeader(x, b, p), StepHeader(y, a + b, p + |a|), |a|)
  {
    hide OnField, ValueChar;
    var d := |a|;
    if x.cs == 16 { FieldMoved(x, y, a, b, p); } else { FieldMoved(x.(mark := p), y.(mark := p + d), a, b, p); }
  }

  lemma HeaderMoved(x: Parser, y: Parser, a: string, b: string, p: nat)
    requires p < |b| && Moved(x, y, |a|) && x.cs in {13, 14, 17, 18}
    ensures Moved(StepHeader(x, b, p), StepHeader(y, a + b, p + |a|), |a|)
  {
    hide OnField, NameChar, NameStart;
  }

  lemma StepMoved(x: Parser, y: Parser, a: string, b: string, p: nat, relaxed: bool)
    requires p < |b| && Moved(x, y, |a|) && Live(x.cs)
    ensures Moved(Step(x, b, p, relaxed), Step(y, a + b, p + |a|, relaxed), |a|)
  {
    hide StepMethod, StepTarget, StepPath, StepQuery, StepFragment, StepHex, StepVersion, StepHeader;
    if x.cs == 1 || InMethod(x.cs) { MethodMoved(x, y, a, b, p); }
    else if x.cs in {3, 26, 33} { TargetMoved(x, y, a, b, p, relaxed); }
    else if x.cs in {29, 30} { QueryMoved(x, y, a, b, p, relaxed); }
    else if x.cs in {20, 21} { FragmentMoved(x, y, a, b, p, relaxed); }
    else if x.cs in {22, 23, 27, 28, 31, 32} { HexMoved(x, y, a, b, p); }
    else if 4 <= x.cs <= 12 { VersionMoved(x, y, a, b, p); }
    else if x.cs in {15, 16} { ValueMoved(x, y, a, b, p); }
    else if 13 <= x.cs <= 18 { HeaderMoved(x, y, a, b, p); }
  }

  /** The run over a piece is the run over it behind another text. */
  lemma {:induction false} RunMoved(x: Parser, y: Parser, a: string, b: string, p: nat, relaxed: bool)
    requires p <= |b| && Moved(x, y, |a|) && Live(x.cs)
    ensures var r, w := Run(x, b, p, relaxed), Run(y, a + b, p + |a|, relaxed);
            Same(r.0, w.0) && w.1 == r.1 + |a|
    decreases |b| - p
  {
    hide Step;
    if p < |b| {
      StepMoved(x, y, a, b, p, relaxed);
      var n := Step(x, b, p, relaxed);
      if Live(n.cs) { RunMoved(n, Step(y, a + b, p + |a|, relaxed), a, b, p + 1, relaxed); }
    }
  }

  // ---- More text behind ----------------------------------------------------------------------------

  lemma NoBlankBelow(m: nat)
    requires m < 17
    ensures ' ' !in MethodName(m)
  {
  }

  lemma NoBlank(m: nat)
    ensures ' ' !in MethodName(m)
  {
    if m < 17 { NoBlankBelow(m); }
  }

  /** Text behind a blank does not change which method is found. */
  lemma {:induction false} FindBehind(t: string, u: string, k: nat, from: nat)
    requires from <= INVALID_METHOD && k < |t| && t[k] == ' '
    ensures FindMethod(t + u, from) == FindMethod(t, from)
    decreases INVALID_METHOD - from
  {
    hide MethodName;
    if from < INVALID_METHOD {
      NoBlank(from);
      var n := MethodName(from);
      assert (t + u)[k] == ' ';
      assert n <= t + u ==> forall i :: 0 <= i < |n| ==> (t + u)[i] == n[i] && n[i] in n;
      assert n <= t + u <==> n <= t;
      FindBehind(t, u, k, from + 1);
    }
  }

  /** Marks that will be used lie behind the position. */
  predicate Behind(m: Parser, p: nat) {
    && (InMethod(m.cs) ==> m.mark <= p)
    && (NeedsField(m.cs) ==> m.fieldStart <= p)
    && (m.cs in {15, 16} ==> m.fieldStart + m.fieldLen <= p)
  }

  lemma MethodBefore(m: Parser, a: string, b: string, p: nat)
    requires p < |a| && (m.cs == 1 || InMethod(m.cs)) && Behind(m, p)
    ensures StepMethod(m, a + b, p) == StepMethod(m, a, p) && Behind(StepMethod(m, a, p), p + 1)
  {
    hide FindMethod;
    if InMethod(m.cs) && a[p] == ' ' {
      var t := a[m.mark..];
      assert (a + b)[m.mark..] == t + b;
      FindBehind(t, b, p - m.mark, 0);
    }
  }

  lemma SliceBefore(a: string, b: string, from: nat, to: nat)
    requires to <= |a|
    ensures Slice(a + b, from, to) == Slice(a, from, to)
  {
  }

  lemma TargetBefore(m: Parser, a: string, b: string, p: nat, relaxed: bool)
    requires p < |a| && m.cs in {3, 20, 21, 26, 29, 30, 33}
    ensures Step(m, a + b, p, relaxed) == Step(m, a, p, relaxed) && Behind(Step(m, a, p, relaxed), p + 1)
  {
    hide Slice, UriChar, QueryChar;
    SliceBefore(a, b, m.mark, p);
    SliceBefore(a, b, p, p);
    SliceBefore(a, b, m.queryStart, p);
  }

  lemma VersionBefore(m: Parser, a: string, b: string, p: nat, relaxed: bool)
    requires p < |a| && (4 <= m.cs <= 12 || m.cs in {22, 23, 27, 28, 31, 32})
    ensures Step(m, a + b, p, relaxed) == Step(m, a, p, relaxed) && Behind(Step(m, a, p, relaxed), p + 1)
  {
    hide Slice, SameUpTo, Hex;
    SliceBefore(a, b, m.mark, p);
  }

  lemma FieldBefore(m: Parser, a: string, b: string, p: nat)
    requires p < |a| && m.fieldStart + m.fieldLen <= p
    ensures OnField(m, a + b, p) == OnField(m, a, p) && OnField(m, a, p).cs == m.cs
  {
    hide Slice, SetHeader;
    SliceBefore(a, b, m.mark, p);
    SliceBefore(a, b, m.fieldStart, m.fieldStart + m.fieldLen);
  }

  lemma HeaderBefore(m: Parser, a: string, b: string, p: nat)
    requires p < |a| && 13 <= m.cs <= 18 && Behind(m, p)
    ensures StepHeader(m, a + b, p) == StepHeader(m, a, p) && Behind(StepHeader(m, a, p), p + 1)
  {
    hide OnField, NameChar, NameStart, ValueChar;
    if m.cs in {15, 16} {
      FieldBefore(m, a, b, p);
      FieldBefore(m.(mark := p), a, b, p);
    }
  }

  lemma StepBefore(m: Parser, a: string, b: string, p: nat, relaxed: bool)
    requires p < |a| && Behind(m, p) && Live(m.cs)
    ensures Step(m, a + b, p, relaxed) == Step(m, a, p, relaxed) && Behind(Step(m, a, p, relaxed), p + 1)
  {
    hide StepMethod, StepHeader;
    if m.cs == 1 || InMethod(m.cs) { MethodBefore(m, a, b, p); }
    else if m.cs in {3, 20, 21, 26, 29, 30, 33} { TargetBefore(m, a, b, p, relaxed); }
    else if 4 <= m.cs <= 12 || m.cs in {22, 23, 27, 28, 31, 32} { VersionBefore(m, a, b, p, relaxed); }
    else if 13 <= m.cs <= 18 { HeaderBefore(m, a, b, p); }
  }

  /** A run that ends within the head goes on in more text from where it ended; one that is over is the same. */
  lemma {:induction false} RunBefore(m: Parser, a: string, b: string, p: nat, relaxed: bool)
    requires p <= |a| && Behind(m, p) && Live(m.cs)
    ensures var r := Run(m, a, p, relaxed);
            if Live(r.0.cs) then r.1 == |a| && Run(m, a + b, p, relaxed) == Run(r.0, a + b, |a|, relaxed)
            else Run(m, a + b, p, relaxed) == r
    decreases |a| - p
  {
    hide Step, Behind;
    if p < |a| {
      StepBefore(m, a, b, p, relaxed);
      var n := Step(m, a, p, relaxed);
      if Live(n.cs) { RunBefore(n, a, b, p + 1, relaxed); }
    }
  }

  // ---- Cuts ----------------------------------------------------------------------------------------

  /** What every call of `http_parser_execute` starts from. */
  function Reset(m: Parser): Parser { m.(mark := 0, fieldStart := 0, fieldLen := 0) }

  /**
   * A cut in front of `next` that goes unnoticed: before the method, target, query, fragment or version, at
   * the start of a header line, or inside the end of a line.
   */
  predicate SafeAt(cs: nat, next: char) {
    cs in {1, 3, 4, 13, 17, 20, 29} || (cs == 18 && next == '\n')
  }

  lemma LineEndUnseen(m: Parser, w: Parser, taken: string, piece: string, relaxed: bool)
    requires Same(m, w) && m.cs == 18 && piece != "" && piece[0] == '\n'
    ensures var r, s := Run(Reset(m), piece, 0, relaxed), Run(w, taken + piece, |taken|, relaxed);
            Same(r.0, s.0) && s.1 == r.1 + |taken|
  {
    hide StepMethod, StepTarget, StepPath, StepQuery, StepFragment, StepHex, StepVersion, NameChar, NameStart, ValueChar, OnField;
    assert (taken + piece)[|taken|] == piece[0];
  }

  lemma ResetMoved(m: Parser, w: Parser, d: nat)
    requires Same(m, w) && m.cs in {1, 3, 4, 13, 17, 20, 29}
    ensures Moved(Reset(m), w, d)
  {
  }

  /** The next piece does what it would do behind the text read so far. */
  lemma CutUnseen(m: Parser, w: Parser, taken: string, piece: string, relaxed: bool)
    requires Same(m, w) && Live(m.cs) && piece != "" && SafeAt(m.cs, piece[0])
    ensures var r, s := Run(Reset(m), piece, 0, relaxed), Run(w, taken + piece, |taken|, relaxed);
            Same(r.0, s.0) && s.1 == r.1 + |taken|
  {
    if m.cs == 18 {
      LineEndUnseen(m, w, taken, piece, relaxed);
    } else {
      ResetMoved(m, w, |taken|);
      hide Run, Step, Moved, Same, SafeAt;
      RunMoved(Reset(m), w, taken, piece, 0, relaxed);
    }
  }

  /** A cut inside the method is noticed: behind `GE`, the piece that starts with `T ` is refused. */
  lemma CutInMethod(piece: string, relaxed: bool)
    requires |piece| >= 2 && piece[0] == 'T' && piece[1] == ' '
    ensures var m := Run(NEW_PARSER, "GE", 0, relaxed).0;
            Live(m.cs) && m.error == 0 && Run(Reset(m), piece, 0, relaxed).0.error != 0
  {
    var k := NEW_PARSER.(mark := 0, cs := 175);
    hide Run, Step;
    TwoSteps(relaxed);
    var b := TwoMore(k, piece, relaxed);
    ErrorSticks(b, piece, 2, relaxed);
  }

  lemma TwoMore(k: Parser, piece: string, relaxed: bool) returns (b: Parser)
    requires |piece| >= 2 && piece[0] == 'T' && piece[1] == ' ' && k.cs == 175 && k.mark == 0
    ensures b.error != 0 && Run(k, piece, 0, relaxed) == Run(b, piece, 2, relaxed)
  {
    NoneFound(piece);
    hide FindMethod;
    var a := Step(k, piece, 0, relaxed);
    assert a == k.(cs := 176);
    b := Step(a, piece, 1, relaxed);
  }

  lemma TwoSteps(relaxed: bool)
    ensures Run(NEW_PARSER, "GE", 0, relaxed) == (NEW_PARSER.(mark := 0, cs := 175), 2)
  {
    var m := Step(NEW_PARSER, "GE", 0, relaxed);
    assert m == NEW_PARSER.(mark := 0, cs := 2);
    assert Step(m, "GE", 1, relaxed) == NEW_PARSER.(mark := 0, cs := 175);
  }

  lemma NoneFound(piece: string)
    requires |piece| >= 2 && piece[0] == 'T' && piece[1] == ' '
    ensures FindMethod(Slice(piece, 0, |piece|), 0) == INVALID_METHOD
  {
    assert Slice(piece, 0, |piece|) == piece;
    assert MethodName(7)[1] == 'R';
    var m := FindMethod(piece, 0);
    if m < INVALID_METHOD { DecideRight(m, piece); }
  }

  lemma StepSticks(m: Parser, buf: string, p: nat, relaxed: bool)
    requires p < |buf| && m.error != 0
    ensures Step(m, buf, p, relaxed).error != 0
  {
    hide FindMethod, Slice, SameUpTo, SetHeader, UriChar, QueryChar, NameChar, NameStart, ValueChar, Hex;
  }

  /** An error is never taken back. */
  lemma {:induction false} ErrorSticks(m: Parser, buf: string, p: nat, relaxed: bool)
    requires p <= |buf|
    ensures m.error != 0 ==> Run(m, buf, p, relaxed).0.error != 0
    decreases |buf| - p
  {
    hide Step;
    if m.error != 0 && p < |buf| {
      StepSticks(m, buf, p, relaxed);
      if Live(Step(m, buf, p, relaxed).cs) { ErrorSticks(Step(m, buf, p, relaxed), buf, p + 1, relaxed); }
    }
  }

  /** A run that finishes the head has consumed something. */
  lemma FinalAdvances(m: Parser, buf: string, p: nat, relaxed: bool)
    requires p <= |buf| && m.cs != FINAL
    ensures Run(m, buf, p, relaxed).0.cs == FINAL ==> Run(m, buf, p, relaxed).1 > p
  {
    hide Step;
  }

  lemma StepKeepsBody(m: Parser, buf: string, p: nat, relaxed: bool)
    requires p < |buf|
    ensures Step(m, buf, p, relaxed).req.body == m.req.body
  {
    hide FindMethod, Slice, SameUpTo, SetHeader, UriChar, QueryChar, NameChar, NameStart, ValueChar, Hex;
  }

  /** The automaton never touches the body. */
  lemma {:induction false} RunKeepsBody(m: Parser, buf: string, p: nat, relaxed: bool)
    requires p <= |buf|
    ensures Run(m, buf, p, relaxed).0.req.body == m.req.body
    decreases |buf| - p
  {
    hide Step;
    if p < |buf| {
      StepKeepsBody(m, buf, p, relaxed);
      if Live(Step(m, buf, p, relaxed).cs) { RunKeepsBody(Step(m, buf, p, relaxed), buf, p + 1, relaxed); }
    }
  }
}
