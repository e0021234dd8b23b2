/**
 * The language of the head automaton: it accepts exactly the heads of the grammar, consumes exactly the head, and
 * what it hands to the callbacks are the parts of the head.
 */
module HttpLanguage {
  import opened Options
  import opened HttpGrammar
  import opened HttpMessage
  import opened HttpAutomaton
  import opened HttpRoundTrip

  function OrEmpty(s: Option<string>): string { match s case None => "" case Some(t) => t }

  /** The headers that the lines set, one after the other. */
  function LinesSet(h: Headers, ls: seq<LineText>): Headers
    decreases |ls|
  {
    if ls == [] then h else LinesSet(SetHeader(h, ls[0].name, ls[0].value), ls[1..])
  }

  // ---- From the parts to the run -------------------------------------------------------------------

  /** The end of a line behind a value (15, 16) or the version (12). */
  lemma RunEnd(m: Parser, buf: string, q: nat, end: string, relaxed: bool) returns (n: Parser)
    requires m.cs in {12, 15, 16} && IsEnd(end) && Sits(buf, q, end)
    ensures Run(m, buf, q, relaxed) == Run(n, buf, q + |end|, relaxed)
    ensures n == (if m.cs == 12 then OnVersion(m, buf, q)
                  else OnField(if m.cs == 15 then m.(mark := q) else m, buf, q)).(cs := 13)
  {
    hide Run, OnField, OnVersion, StepMethod, StepTarget, StepPath, StepQuery, StepFragment, StepHex, NameChar;
    SitsAt(buf, q, end, 0);
    var k := if m.cs == 12 then OnVersion(m, buf, q) else OnField(if m.cs == 15 then m.(mark := q) else m, buf, q);
    n := k.(cs := 13);
    One(m, buf, q, relaxed);
    if end == "\r\n" {
      SitsAt(buf, q, end, 1);
      One(k.(cs := 17), buf, q + 1, relaxed);
    }
  }

  lemma BlankStep(m: Parser, buf: string, p: nat, relaxed: bool)
    requires p < |buf| && m.cs == 15 && Blank(buf[p])
    ensures Run(m, buf, p, relaxed) == Run(m.(mark := p), buf, p + 1, relaxed)
  {
    One(m, buf, p, relaxed);
  }

  lemma {:induction false} RunBlanks(m: Parser, buf: string, p: nat, s: string, relaxed: bool) returns (n: Parser)
    requires m.cs == 15 && Sits(buf, p, s) && forall i :: 0 <= i < |s| ==> Blank(s[i])
    ensures Run(m, buf, p, relaxed) == Run(n, buf, p + |s|, relaxed)
    ensures n == m.(mark := n.mark)
    decreases |s|
  {
    hide Run, Step, Blank;
    n := m;
    if s != "" {
      SitsAt(buf, p, s, 0);
      assert s == s[..1] + s[1..];
      SitsSplit(buf, p, s[..1], s[1..]);
      BlankStep(m, buf, p, relaxed);
      n := RunBlanks(m.(mark := p), buf, p + 1, s[1..], relaxed);
    }
  }

  /** From the first character of the value to the end of the line. */
  lemma RunValueEnd(m: Parser, buf: string, p: nat, value: string, end: string, relaxed: bool) returns (n: Parser)
    requires m.cs == 15 && FieldValue(value) && IsEnd(end) && Sits(buf, p, value + end)
    ensures Run(m, buf, p, relaxed) == Run(n, buf, p + |value| + |end|, relaxed)
    ensures n == OnField(m.(mark := p), buf, p + |value|).(cs := 13)
  {
    hide Run, Step, SetHeader, Slice, FieldValueChar, Blank, IsEnd;
    var q := p + |value|;
    SitsSplit(buf, p, value, end);
    if value == "" {
      n := RunEnd(m, buf, q, end, relaxed);
    } else {
      SitsAt(buf, p, value, 0);
      assert value == value[..1] + value[1..];
      SitsSplit(buf, p, value[..1], value[1..]);
      ValueStart(m, buf, p, relaxed);
      var k := m.(mark := p, cs := 16);
      RunValue(k, buf, p + 1, value[1..], relaxed);
      n := RunEnd(k, buf, q, end, relaxed);
    }
  }

  /** The first character of a name: a carriage return may still turn out to end the head. */
  lemma NameFirst(m: Parser, buf: string, p: nat, relaxed: bool) returns (n: Parser)
    requires m.cs == 13 && p < |buf| && FieldNameChar(buf[p]) && buf[p] != '\n'
    ensures Run(m, buf, p, relaxed) == Run(n, buf, p + 1, relaxed)
    ensures n == m.(fieldStart := p, cs := if buf[p] == '\r' then 18 else 14)
  {
    FieldCharsRead(buf[p]);
    hide FieldNameChar;
    n := Step(m, buf, p, relaxed);
    One(m, buf, p, relaxed);
  }

  lemma NameSecond(m: Parser, buf: string, p: nat, relaxed: bool)
    requires m.cs == 18 && p < |buf| && FieldNameChar(buf[p]) && buf[p] != '\n'
    ensures Run(m, buf, p, relaxed) == Run(m.(cs := 14), buf, p + 1, relaxed)
  {
    FieldCharsRead(buf[p]);
    assert buf[p] != ':';
    hide FieldNameChar;
    One(m, buf, p, relaxed);
  }

  lemma Colon(m: Parser, buf: string, p: nat, relaxed: bool)
    requires m.cs in {14, 18} && p < |buf| && buf[p] == ':' && m.fieldStart <= p
    ensures Run(m, buf, p, relaxed) == Run(m.(fieldLen := p - m.fieldStart, cs := 15), buf, p + 1, relaxed)
  {
    hide NameChar, OnField, StepMethod, StepTarget, StepPath, StepQuery, StepFragment, StepHex, StepVersion;
    One(m, buf, p, relaxed);
  }

  /** A name and its colon. */
  lemma RunNameColon(m: Parser, buf: string, p: nat, name: string, relaxed: bool) returns (n: Parser)
    requires m.cs == 13 && ProperName(name) && Sits(buf, p, name + ":")
    ensures Run(m, buf, p, relaxed) == Run(n, buf, p + |name| + 1, relaxed)
    ensures n == m.(fieldStart := p, fieldLen := |name|, cs := 15)
  {
    hide Run, Step, FieldNameChar;
    SitsSplit(buf, p, name, ":");
    SitsAt(buf, p + |name|, ":", 0);
    SitsAt(buf, p, name, 0);
    n := NameFirst(m, buf, p, relaxed);
    var k := 1;
    if n.cs == 18 && |name| > 1 {
      SitsAt(buf, p, name, 1);
      NameSecond(n, buf, p + 1, relaxed);
      n := n.(cs := 14);
      k := 2;
    }
    assert name == name[..k] + name[k..];
    SitsSplit(buf, p, name[..k], name[k..]);
    if n.cs == 14 { RunName(n, buf, p + k, name[k..], relaxed); }
    Colon(n, buf, p + |name|, relaxed);
    n := n.(fieldLen := |name|, cs := 15);
  }

  /** What `on_request_http_field` is given. */
  lemma FieldGiven(m: Parser, buf: string, name: string, value: string)
    requires name != "" && m.fieldLen == |name| && Sits(buf, m.fieldStart, name) && Sits(buf, m.mark, value)
    ensures OnField(m, buf, m.mark + |value|)
            == m.(req := m.req.(headers := SetHeader(m.req.headers, name, value)))
  {
    hide SetHeader;
  }

  lemma ProperParts(l: LineText)
    requires ProperLine(l)
    ensures l.name != "" && ProperName(l.name) && FieldValue(l.value) && IsEnd(l.end)
    ensures forall i :: 0 <= i < |l.blanks| ==> Blank(l.blanks[i])
  {
  }

  /** Where the parts of a line sit. */
  lemma LineSits(buf: string, p: nat, l: LineText)
    requires Sits(buf, p, LineOf(l))
    ensures var q := p + |l.name| + 1;
            && Sits(buf, p, l.name + ":") && Sits(buf, p, l.name) && Sits(buf, q, l.blanks)
            && Sits(buf, q + |l.blanks|, l.value + l.end) && Sits(buf, q + |l.blanks|, l.value)
    ensures |LineOf(l)| == |l.name| + 1 + |l.blanks| + |l.value| + |l.end|
  {
    hide Sits;
    var q := p + |l.name| + 1;
    SitsSplit(buf, p, l.name + ":", l.blanks + (l.value + l.end));
    SitsSplit(buf, p, l.name, ":");
    SitsSplit(buf, q, l.blanks, l.value + l.end);
    SitsSplit(buf, q + |l.blanks|, l.value, l.end);
  }

  /** A header line of any form sets exactly this header. */
  lemma RunAnyLine(m: Parser, buf: string, p: nat, l: LineText, relaxed: bool) returns (n: Parser)
    requires m.cs == 13 && ProperLine(l) && Sits(buf, p, LineOf(l))
    ensures Run(m, buf, p, relaxed) == Run(n, buf, p + |LineOf(l)|, relaxed)
    ensures n.cs == 13 && n.error == m.error
    ensures n.req == m.req.(headers := SetHeader(m.req.headers, l.name, l.value))
  {
    hide *;
    LineSits(buf, p, l);
    ProperParts(l);
    n := RunNameColon(m, buf, p, l.name, relaxed);
    var q := p + |l.name| + 1;
    n := RunBlanks(n, buf, q, l.blanks, relaxed);
    q := q + |l.blanks|;
    FieldGiven(n.(mark := q), buf, l.name, l.value);
    n := RunValueEnd(n, buf, q, l.value, l.end, relaxed);
  }

  lemma {:induction false} RunAnyLines(m: Parser, buf: string, p: nat, ls: seq<LineText>, relaxed: bool) returns (n: Parser)
    requires m.cs == 13 && (forall i :: 0 <= i < |ls| ==> ProperLine(ls[i])) && Sits(buf, p, LinesOf(ls))
    ensures Run(m, buf, p, relaxed) == Run(n, buf, p + |LinesOf(ls)|, relaxed)
    ensures n.cs == 13 && n.error == m.error && n.req == m.req.(headers := LinesSet(m.req.headers, ls))
    decreases |ls|
  {
    hide Run, Step, SetHeader, ProperLine, LineOf, Sits;
    n := m;
    if ls != [] {
      SitsSplit(buf, p, LineOf(ls[0]), LinesOf(ls[1..]));
      n := RunAnyLine(m, buf, p, ls[0], relaxed);
      n := RunAnyLines(n, buf, p + |LineOf(ls[0])|, ls[1..], relaxed);
    }
  }

  /** The line end that ends the head. */
  lemma RunLast(m: Parser, buf: string, p: nat, last: string, relaxed: bool) returns (n: Parser)
    requires m.cs == 13 && IsEnd(last) && Sits(buf, p, last)
    ensures Run(m, buf, p, relaxed) == (n, p + |last|)
    ensures n.cs == FINAL && n.error == m.error && n.req == m.req
  {
    SitsAt(buf, p, last, 0);
    if last == "\r\n" {
      n := RunBlank(m, buf, p, relaxed);
    } else {
      n := Step(m, buf, p, relaxed);
    }
  }

  /** What follows the path, and what follows the query. */
  function Tail(f: Option<string>): (t: string)
    ensures t != "" && t[0] == if f.Some? then '#' else ' '
  {
    FragmentPart(f) + " "
  }

  function LongTail(q: Option<string>, f: Option<string>): (t: string)
    ensures t != "" && t[0] == if q.Some? then '?' else Tail(f)[0]
  {
    QueryPart(q) + Tail(f)
  }

  lemma RunAnyPath(m: Parser, buf: string, p: nat, path: string, c: char, relaxed: bool) returns (n: Parser)
    requires m.cs == 3 && (path == "" || OriginForm(path, relaxed)) && c in {' ', '#', '?'} && Sits(buf, p, path + [c])
    ensures Run(m, buf, p, relaxed) == Run(n, buf, p + |path| + 1, relaxed)
    ensures n.cs == Behind(c) && n.req == m.req.(path := path) && n.error == m.error
  {
    if path == "" {
      NoPath(m, buf, p, c, relaxed);
      n := OnPath(m.(mark := p), buf, p).(cs := Behind(c));
    } else {
      n := RunPath(m, buf, p, path, c, relaxed);
    }
  }

  lemma NoPath(m: Parser, buf: string, p: nat, c: char, relaxed: bool)
    requires m.cs == 3 && c in {' ', '#', '?'} && Sits(buf, p, "" + [c])
    ensures Run(m, buf, p, relaxed) == Run(OnPath(m.(mark := p), buf, p).(cs := Behind(c)), buf, p + 1, relaxed)
  {
    SitsAt(buf, p, [c], 0);
    One(m, buf, p, relaxed);
  }

  lemma RunAnyQuery(m: Parser, buf: string, p: nat, q: string, c: char, relaxed: bool) returns (n: Parser)
    requires m.cs == 29 && TargetText(q, true, relaxed) && c in {' ', '#'} && Sits(buf, p, q + [c])
    ensures Run(m, buf, p, relaxed) == Run(n, buf, p + |q| + 1, relaxed)
    ensures n.cs == Behind(c) && n.req == m.req.(query := q) && n.error == m.error
  {
    if q == "" {
      NoQuery(m, buf, p, c, relaxed);
      n := OnQuery(m.(queryStart := p), buf, p).(cs := Behind(c));
    } else {
      n := RunQuery(m, buf, p, q, c, relaxed);
    }
  }

  lemma NoQuery(m: Parser, buf: string, p: nat, c: char, relaxed: bool)
    requires m.cs == 29 && c in {' ', '#'} && Sits(buf, p, "" + [c])
    ensures Run(m, buf, p, relaxed) == Run(OnQuery(m.(queryStart := p), buf, p).(cs := Behind(c)), buf, p + 1, relaxed)
  {
    SitsAt(buf, p, [c], 0);
    One(m, buf, p, relaxed);
  }

  lemma RunTail(m: Parser, buf: string, p: nat, f: Option<string>, relaxed: bool) returns (n: Parser)
    requires m.cs == Behind(Tail(f)[0]) && (f.Some? ==> TargetText(f.value, true, relaxed)) && Sits(buf, p, Tail(f)[1..])
    requires m.req.fragment == ""
    ensures Run(m, buf, p, relaxed) == Run(n, buf, p + |Tail(f)| - 1, relaxed)
    ensures n.cs == 4 && n.req == m.req.(fragment := OrEmpty(f)) && n.error == m.error
  {
    hide Run, Step, TargetText;
    n := m;
    if f.Some? {
      assert Tail(f)[1..] == f.value + " ";
      if f.value == "" { n := NoFragment(m, buf, p, relaxed); } else { n := RunFragment(m, buf, p, f.value, relaxed); }
    }
  }

  lemma NoFragment(m: Parser, buf: string, p: nat, relaxed: bool) returns (n: Parser)
    requires m.cs == 20 && Sits(buf, p, "" + " ")
    ensures Run(m, buf, p, relaxed) == Run(n, buf, p + 1, relaxed)
    ensures n.cs == 4 && n.req == m.req.(fragment := "") && n.error == m.error
  {
    SitsAt(buf, p, " ", 0);
    n := OnFragment(m.(mark := p), buf, p).(cs := 4);
    One(m, buf, p, relaxed);
  }

  lemma Regrouped(a: string, b: string, c: char, d: string)
    requires |a| == 1
    ensures ((a + b) + ([c] + d))[1..] == (b + [c]) + d
  {
  }

  lemma LongTailIs(q: Option<string>, f: Option<string>)
    requires q.Some?
    ensures LongTail(q, f)[1..] == (q.value + [Tail(f)[0]]) + Tail(f)[1..]
    ensures |LongTail(q, f)| == 1 + |q.value| + |Tail(f)|
  {
    var t := Tail(f);
    assert QueryPart(q) == "?" + q.value;
    hide Tail, QueryPart;
    Regrouped("?", q.value, t[0], t[1..]);
    assert t == [t[0]] + t[1..];
  }

  lemma RunLongTail(m: Parser, buf: string, p: nat, q: Option<string>, f: Option<string>, relaxed: bool) returns (n: Parser)
    requires m.cs == Behind(LongTail(q, f)[0]) && Sits(buf, p, LongTail(q, f)[1..])
    requires (q.Some? ==> TargetText(q.value, true, relaxed)) && (f.Some? ==> TargetText(f.value, true, relaxed))
    requires m.req.query == "" && m.req.fragment == ""
    ensures Run(m, buf, p, relaxed) == Run(n, buf, p + |LongTail(q, f)| - 1, relaxed)
    ensures n.cs == 4 && n.req == m.req.(query := OrEmpty(q), fragment := OrEmpty(f)) && n.error == m.error
  {
    hide Run, Step, TargetText;
    if q.Some? {
      LongTailIs(q, f);
      SitsSplit(buf, p, q.value + [Tail(f)[0]], Tail(f)[1..]);
      n := RunAnyQuery(m, buf, p, q.value, Tail(f)[0], relaxed);
      n := RunTail(n, buf, p + |q.value| + 1, f, relaxed);
    } else {
      assert LongTail(q, f) == Tail(f);
      n := RunTail(m, buf, p, f, relaxed);
    }
  }

  lemma TargetOfIs(h: HeadText)
    ensures var t := LongTail(h.query, h.fragment);
            TargetOf(h) == (h.path + [t[0]]) + t[1..] && |TargetOf(h)| == |h.path| + |t|
  {
    var t := LongTail(h.query, h.fragment);
    assert t == [t[0]] + t[1..];
  }

  lemma RunAnyTarget(m: Parser, buf: string, p: nat, h: HeadText, relaxed: bool) returns (n: Parser)
    requires m.cs == 3 && ProperTarget(h, relaxed) && Sits(buf, p, TargetOf(h))
    requires m.req.query == "" && m.req.fragment == ""
    ensures Run(m, buf, p, relaxed) == Run(n, buf, p + |TargetOf(h)|, relaxed)
    ensures n.cs == 4 && n.error == m.error
    ensures n.req == m.req.(path := h.path, query := OrEmpty(h.query), fragment := OrEmpty(h.fragment))
  {
    hide Run, Step, TargetText, OriginForm, TargetOf, LongTail, Sits;
    var t := LongTail(h.query, h.fragment);
    TargetOfIs(h);
    SitsSplit(buf, p, h.path + [t[0]], t[1..]);
    n := RunAnyPath(m, buf, p, h.path, t[0], relaxed);
    n := RunLongTail(n, buf, p + |h.path| + 1, h.query, h.fragment, relaxed);
  }

  /** The version and the end of its line. */
  lemma RunAnyVersion(m: Parser, buf: string, p: nat, h: HeadText, relaxed: bool) returns (n: Parser)
    requires m.cs == 4 && h.minor in {'0', '1'} && IsEnd(h.end) && Sits(buf, p, VersionOf(h))
    ensures Run(m, buf, p, relaxed) == Run(n, buf, p + |VersionOf(h)|, relaxed)
    ensures n.cs == 13 && n.error == m.error && n.req == m.req.(version := if h.minor == '1' then 0x11 else 0x10)
  {
    hide Run, Step, SameUpTo, IsEnd;
    SitsSplit(buf, p, "HTTP/", ['1', '.', h.minor] + h.end);
    SitsSplit(buf, p + 5, ['1', '.', h.minor], h.end);
    RunFive(m, buf, p, relaxed);
    RunDigits(m.(mark := p, cs := 9), buf, p + 5, h.minor, relaxed);
    var k := m.(mark := p, cs := 12);
    n := RunEnd(k, buf, p + 8, h.end, relaxed);
    var v := if h.minor == '1' then 0x11 else 0x10;
    VersionSlice(buf, p, h.minor);
    VersionRead(v);
  }

  lemma VersionSlice(buf: string, p: nat, minor: char)
    requires Sits(buf, p, "HTTP/") && Sits(buf, p + 5, ['1', '.', minor]) && minor in {'0', '1'}
    ensures Slice(buf, p, p + 8) == VersionText(if minor == '1' then 0x11 else 0x10)
  {
    assert buf[p..p + 8] == buf[p..p + 5] + buf[p + 5..p + 8];
  }

  lemma VerbReadable(verb: string)
    requires ProperVerb(verb)
    ensures 1 <= |verb| <= 20 && forall i :: 0 <= i < |verb| ==> UpperOrDigit(verb[i])
  {
  }

  /** Every head of the grammar is accepted, as a whole, and its parts are what the callbacks are given. */
  lemma HeadRead(h: HeadText, buf: string, relaxed: bool) returns (n: Parser)
    requires ProperHead(h, relaxed) && TextOf(h) <= buf
    ensures Run(NEW_PARSER, buf, 0, relaxed) == (n, |TextOf(h)|) && n.cs == FINAL
    ensures var m := FindMethod(buf, 0);
            && n.error == (if m == INVALID_METHOD then 1000 else 0)
            && n.req == NEW_REQUEST.(
                 verb := if m == INVALID_METHOD then NEW_REQUEST.verb else m, path := h.path, query := OrEmpty(h.query),
                 fragment := OrEmpty(h.fragment), version := if h.minor == '1' then 0x11 else 0x10,
                 headers := LinesSet(map[], h.lines))
  {
    hide Run, Step, FindMethod, OnMethod, UpperOrDigit, ProperTarget, ProperHead, ProperVerb, TargetOf, VersionOf, LinesOf, TextOf,
      LinesSet, ProperLine, IsEnd, Sits, Slice, OrEmpty;
    ProperHeadParts(h, relaxed);
    VerbReadable(h.verb);
    HeadSits(h, buf);
    var p := |h.verb| + 1;
    RunMethod(NEW_PARSER, buf, h.verb, 0, relaxed);
    MethodGiven(buf);
    n := OnMethod(NEW_PARSER, buf).(cs := 3);
    n := RunAnyTarget(n, buf, p, h, relaxed);
    p := p + |TargetOf(h)|;
    n := RunAnyVersion(n, buf, p, h, relaxed);
    p := p + |VersionOf(h)|;
    n := RunAnyLines(n, buf, p, h.lines, relaxed);
    n := RunLast(n, buf, p + |LinesOf(h.lines)|, h.last, relaxed);
  }

  lemma ProperHeadParts(h: HeadText, relaxed: bool)
    requires ProperHead(h, relaxed)
    ensures ProperVerb(h.verb) && ProperTarget(h, relaxed) && h.minor in {'0', '1'} && IsEnd(h.end) && IsEnd(h.last)
    ensures forall i :: 0 <= i < |h.lines| ==> ProperLine(h.lines[i])
  {
  }

  lemma MethodGiven(buf: string)
    ensures var m, n := FindMethod(buf, 0), OnMethod(NEW_PARSER, buf);
            && n == NEW_PARSER.(error := n.error, req := n.req)
            && n.error == (if m == INVALID_METHOD then 1000 else 0)
            && n.req == NEW_REQUEST.(verb := if m == INVALID_METHOD then NEW_REQUEST.verb else m)
  {
    hide FindMethod;
    assert Slice(buf, 0, |buf|) == buf;
  }

  /** Where the parts of a head sit. */
  lemma HeadSits(h: HeadText, buf: string)
    requires TextOf(h) <= buf
    ensures var p := |h.verb| + 1; var q := p + |TargetOf(h)|; var r := q + |VersionOf(h)|; var x := r + |LinesOf(h.lines)|;
            && Sits(buf, 0, h.verb + " ") && Sits(buf, p, TargetOf(h)) && Sits(buf, q, VersionOf(h))
            && Sits(buf, r, LinesOf(h.lines)) && Sits(buf, x, h.last) && |TextOf(h)| == x + |h.last|
  {
    hide TargetOf, VersionOf, LinesOf;
    var a, t, v, x := h.verb + " ", TargetOf(h), VersionOf(h), LinesOf(h.lines);
    assert Sits(buf, 0, a + (t + (v + (x + h.last))));
    hide Sits;
    SitsSplit(buf, 0, a, t + (v + (x + h.last)));
    SitsSplit(buf, |a|, t, v + (x + h.last));
    SitsSplit(buf, |a| + |t|, v, x + h.last);
    SitsSplit(buf, |a| + |t| + |v|, x, h.last);
  }

  // ---- From the run to the parts -------------------------------------------------------------------

  /** The run ends behind a head. */
  predicate Accepts(m: Parser, buf: string, p: nat, relaxed: bool) {
    p <= |buf| && m.cs != FINAL && Run(m, buf, p, relaxed).0.cs == FINAL
  }

  /** Then the next transition does not fail, and the run goes on behind it unless it ends the head. */
  lemma Forth(m: Parser, buf: string, p: nat, relaxed: bool)
    requires Accepts(m, buf, p, relaxed)
    ensures p < |buf|
    ensures var n := Step(m, buf, p, relaxed);
            && n.cs != 0 && n.cs != OUTSIDE
            && (n.cs != FINAL ==> Run(m, buf, p, relaxed) == Run(n, buf, p + 1, relaxed) && Accepts(n, buf, p + 1, relaxed))
  {
    hide Step;
  }

  /** `buf` from `p` on for `n` characters. */
  function Part(buf: string, p: nat, n: nat): string
    requires p + n <= |buf|
  {
    buf[p..p + n]
  }

  lemma VerbForth(m: Parser, buf: string, k: nat, relaxed: bool)
    requires Accepts(m, buf, k, relaxed) && k <= 20 && m.cs == MethodState(k) && (k > 0 ==> m.mark == 0)
    ensures k < |buf| && (UpperOrDigit(buf[k]) || (k > 0 && buf[k] == ' '))
    ensures UpperOrDigit(buf[k]) ==> k < 20 && Accepts(m.(mark := 0, cs := MethodState(k + 1)), buf, k + 1, relaxed)
  {
    Forth(m, buf, k, relaxed);
    if UpperOrDigit(buf[k]) && k < 20 { MethodStep(m, buf, k, relaxed); }
  }

  lemma {:induction false} FindVerb(m: Parser, buf: string, k: nat, relaxed: bool) returns (len: nat)
    requires Accepts(m, buf, k, relaxed) && k <= 20 && m.cs == MethodState(k) && (k > 0 ==> m.mark == 0)
    requires forall i :: 0 <= i < k ==> UpperOrDigit(buf[i])
    ensures 1 <= len <= 20 && len < |buf| && buf[len] == ' ' && forall i :: 0 <= i < len ==> UpperOrDigit(buf[i])
    decreases 20 - k
  {
    hide Run, Step, UpperOrDigit, MethodState, Accepts;
    VerbForth(m, buf, k, relaxed);
    len := k;
    if UpperOrDigit(buf[k]) {
      len := FindVerb(m.(mark := 0, cs := MethodState(k + 1)), buf, k + 1, relaxed);
    }
  }

  /** What ends a path (26), a query (30) or a fragment (21). */
  predicate Stops(cs: nat, c: char) { c == ' ' || (cs != 21 && c == '#') || (cs == 26 && c == '?') }

  lemma TextForth(m: Parser, buf: string, p: nat, relaxed: bool)
    requires Accepts(m, buf, p, relaxed) && m.cs in {21, 26, 30}
    ensures p < |buf| && (Stops(m.cs, buf[p]) || buf[p] == '%' || PlainChar(buf[p], m.cs != 26, relaxed))
    ensures !Stops(m.cs, buf[p]) && buf[p] != '%' ==> Accepts(m, buf, p + 1, relaxed)
    ensures buf[p] == '%' ==> Accepts(m.(cs := m.cs + 1), buf, p + 1, relaxed)
  {
    Forth(m, buf, p, relaxed);
    TargetCharsRead(buf[p]);
    hide TargetChar, Run;
  }

  lemma HexForth(m: Parser, buf: string, p: nat, relaxed: bool)
    requires Accepts(m, buf, p, relaxed) && m.cs in {22, 23, 27, 28, 31, 32}
    ensures p < |buf| && HexDigit(buf[p])
    ensures Accepts(m.(cs := if m.cs in {22, 27, 31} then m.cs + 1 else m.cs - 2), buf, p + 1, relaxed)
  {
    Forth(m, buf, p, relaxed);
    TargetCharsRead(buf[p]);
  }

  lemma TextGrows(buf: string, p: nat, n: nat, k: nat, query: bool, loose: bool)
    requires p + n + k <= |buf| && n > 0 && TargetText(Part(buf, p + n, k), query, loose)
    requires if buf[p] == '%' then n == 3 && HexDigit(buf[p + 1]) && HexDigit(buf[p + 2])
             else n == 1 && PlainChar(buf[p], query, loose)
    ensures TargetText(Part(buf, p, n + k), query, loose)
  {
    hide HexDigit, PlainChar;
    var s := Part(buf, p, n + k);
    assert s[n..] == Part(buf, p + n, k);
  }

  lemma {:induction false} FindText(m: Parser, buf: string, p: nat, relaxed: bool) returns (k: nat)
    requires Accepts(m, buf, p, relaxed) && m.cs in {21, 26, 30}
    ensures p + k < |buf| && TargetText(Part(buf, p, k), m.cs != 26, relaxed) && Stops(m.cs, buf[p + k])
    decreases |buf| - p
  {
    hide Run, Step, Accepts, HexDigit, PlainChar, TargetText, Part, Stops;
    TextForth(m, buf, p, relaxed);
    k := 0;
    if Stops(m.cs, buf[p]) {
      NoText(buf, p, m.cs != 26, relaxed);
    } else {
      var n := 1;
      if buf[p] == '%' {
        HexForth(m.(cs := m.cs + 1), buf, p + 1, relaxed);
        HexForth(m.(cs := m.cs + 2), buf, p + 2, relaxed);
        n := 3;
      }
      k := FindText(m, buf, p + n, relaxed);
      TextGrows(buf, p, n, k, m.cs != 26, relaxed);
      k := n + k;
    }
  }

  lemma NoText(buf: string, p: nat, query: bool, loose: bool)
    requires p <= |buf|
    ensures TargetText(Part(buf, p, 0), query, loose)
  {
  }

  lemma SitsPart(buf: string, p: nat, k: nat)
    requires p + k < |buf|
    ensures Sits(buf, p, Part(buf, p, k) + [buf[p + k]]) && Sits(buf, p, Part(buf, p, k))
  {
    assert buf[p..p + k + 1] == buf[p..p + k] + [buf[p + k]];
  }

  lemma SitsJoin(buf: string, p: nat, a: string, b: string)
    requires Sits(buf, p, a) && Sits(buf, p + |a|, b)
    ensures Sits(buf, p, a + b)
  {
    assert buf[p..p + |a| + |b|] == buf[p..p + |a|] + buf[p + |a|..p + |a| + |b|];
  }

  /** The first character of a query (29) or fragment (20) that is not empty. */
  lemma StartForth(m: Parser, buf: string, p: nat, relaxed: bool)
    requires Accepts(m, buf, p, relaxed) && m.cs in {20, 29}
    ensures p < |buf|
    ensures buf[p] == ' ' || (m.cs == 29 && buf[p] == '#') ||
            Accepts(if m.cs == 20 then m.(cs := 21, mark := p) else m.(cs := 30, queryStart := p), buf, p, relaxed)
  {
    Forth(m, buf, p, relaxed);
    TargetCharsRead(buf[p]);
    if buf[p] == '%' || PlainChar(buf[p], true, relaxed) {
      if m.cs == 20 { FragmentStart(m, buf, p, relaxed); } else { QueryStart(m, buf, p, relaxed); }
    }
  }

  lemma FindPiece(m: Parser, buf: string, p: nat, relaxed: bool) returns (s: string, c: char)
    requires Accepts(m, buf, p, relaxed) && m.cs in {20, 29}
    ensures TargetText(s, true, relaxed) && Sits(buf, p, s + [c]) && (c == ' ' || (m.cs == 29 && c == '#'))
  {
    hide Run, Step, Accepts, HexDigit, PlainChar, TargetText, Part, Sits;
    StartForth(m, buf, p, relaxed);
    var k := 0;
    if buf[p] == ' ' || (m.cs == 29 && buf[p] == '#') {
      NoText(buf, p, true, relaxed);
    } else {
      k := FindText(if m.cs == 20 then m.(cs := 21, mark := p) else m.(cs := 30, queryStart := p), buf, p, relaxed);
    }
    s, c := Part(buf, p, k), buf[p + k];
    SitsPart(buf, p, k);
  }

  lemma PathForth(m: Parser, buf: string, p: nat, relaxed: bool)
    requires Accepts(m, buf, p, relaxed) && m.cs == 3
    ensures p < |buf| && buf[p] in {' ', '#', '?', '/'}
    ensures buf[p] == '/' ==> p + 1 < |buf| && buf[p + 1] != '/' && Accepts(m.(mark := p, cs := 26), buf, p + 1, relaxed)
  {
    Forth(m, buf, p, relaxed);
    if buf[p] == '/' {
      var k := m.(mark := p, cs := 33);
      Forth(k, buf, p + 1, relaxed);
      PathStart(k, buf, p + 1, relaxed);
    }
  }

  lemma SlashBefore(buf: string, p: nat, k: nat, loose: bool)
    requires p + 1 + k < |buf| && buf[p] == '/' && buf[p + 1] != '/' && TargetText(Part(buf, p + 1, k), false, loose)
    ensures OriginForm(Part(buf, p, 1 + k), loose)
  {
    hide TargetText;
    var s := Part(buf, p, 1 + k);
    assert s[1..] == Part(buf, p + 1, k);
  }

  lemma FindPath(m: Parser, buf: string, p: nat, relaxed: bool) returns (path: string, c: char)
    requires Accepts(m, buf, p, relaxed) && m.cs == 3
    ensures (path == "" || OriginForm(path, relaxed)) && c in {' ', '#', '?'} && Sits(buf, p, path + [c])
  {
    hide Run, Step, Accepts, TargetText, Sits, OriginForm;
    PathForth(m, buf, p, relaxed);
    var k := 0;
    if buf[p] == '/' {
      k := FindText(m.(mark := p, cs := 26), buf, p + 1, relaxed);
      SlashBefore(buf, p, k, relaxed);
      k := 1 + k;
    }
    path, c := Part(buf, p, k), buf[p + k];
    SitsPart(buf, p, k);
  }

  lemma FindTail(m: Parser, buf: string, p: nat, c: char, relaxed: bool) returns (f: Option<string>)
    requires c in {' ', '#'} && m.cs == Behind(c) && Accepts(m, buf, p, relaxed)
    ensures f.Some? ==> TargetText(f.value, true, relaxed)
    ensures Tail(f)[0] == c && Sits(buf, p, Tail(f)[1..])
  {
    hide Run, Step, TargetText;
    f := None;
    if c == '#' {
      var s, d := FindPiece(m, buf, p, relaxed);
      f := Some(s);
      assert Tail(f)[1..] == s + [d];
    } else {
      assert Tail(f)[1..] == "";
    }
  }

  lemma FindLongTail(m: Parser, buf: string, p: nat, c: char, relaxed: bool) returns (q: Option<string>, f: Option<string>)
    requires c in {' ', '#', '?'} && m.cs == Behind(c) && Accepts(m, buf, p, relaxed)
    ensures (q.Some? ==> TargetText(q.value, true, relaxed)) && (f.Some? ==> TargetText(f.value, true, relaxed))
    ensures LongTail(q, f)[0] == c && Sits(buf, p, LongTail(q, f)[1..])
  {
    hide Run, Step, TargetText, Sits, Tail;
    q := None;
    if c == '?' {
      var s, d := FindPiece(m, buf, p, relaxed);
      q := Some(s);
      var n := RunAnyQuery(m, buf, p, s, d, relaxed);
      f := FindTail(n, buf, p + |s| + 1, d, relaxed);
      SitsJoin(buf, p, s + [d], Tail(f)[1..]);
      LongTailIs(q, f);
    } else {
      f := FindTail(m, buf, p, c, relaxed);
      assert LongTail(q, f) == Tail(f);
    }
  }

  lemma FindTarget(m: Parser, buf: string, p: nat, relaxed: bool) returns (h: HeadText)
    requires Accepts(m, buf, p, relaxed) && m.cs == 3
    ensures ProperTarget(h, relaxed) && Sits(buf, p, TargetOf(h))
  {
    hide Run, Step, TargetText, OriginForm, Sits, TargetOf, LongTail;
    var path, c := FindPath(m, buf, p, relaxed);
    var n := RunAnyPath(m, buf, p, path, c, relaxed);
    var q, f := FindLongTail(n, buf, p + |path| + 1, c, relaxed);
    h := HeadText("", path, q, f, '1', "", [], "");
    TargetOfIs(h);
    SitsJoin(buf, p, path + [c], LongTail(q, f)[1..]);
  }

  // ---- Version and header lines --------------------------------------------------------------------

  /** The character that is read in state 4 to 10. */
  function VersionChar(cs: nat): char {
    match cs
    case 4 => 'H' case 5 => 'T' case 6 => 'T' case 7 => 'P' case 8 => '/' case 9 => '1' case _ => '.'
  }

  lemma VersionForth(m: Parser, buf: string, p: nat, relaxed: bool)
    requires Accepts(m, buf, p, relaxed) && 4 <= m.cs <= 11
    ensures p < |buf| && if m.cs == 11 then buf[p] in {'0', '1'} else buf[p] == VersionChar(m.cs)
    ensures Accepts(m.(mark := if m.cs == 4 then p else m.mark, cs := m.cs + 1), buf, p + 1, relaxed)
  {
    Forth(m, buf, p, relaxed);
  }

  /** The line end behind the version (12), or behind a header value. */
  lemma FindEnd(m: Parser, buf: string, q: nat, relaxed: bool) returns (end: string)
    requires Accepts(m, buf, q, relaxed) && m.cs in {12, 15, 16}
    requires m.cs != 12 ==> q < |buf| && LineEnd(buf[q])
    ensures IsEnd(end) && Sits(buf, q, end)
  {
    hide OnField, OnVersion, Run;
    Forth(m, buf, q, relaxed);
    if buf[q] == '\r' {
      Forth(Step(m, buf, q, relaxed), buf, q + 1, relaxed);
      end := "\r\n";
    } else {
      end := "\n";
    }
  }

  lemma FindVersion(m: Parser, buf: string, p: nat, relaxed: bool) returns (h: HeadText)
    requires Accepts(m, buf, p, relaxed) && m.cs == 4
    ensures h.minor in {'0', '1'} && IsEnd(h.end) && Sits(buf, p, VersionOf(h))
  {
    hide Run, Step, Accepts, IsEnd;
    VersionForth(m, buf, p, relaxed);
    var k := m.(mark := p);
    VersionForth(k.(cs := 5), buf, p + 1, relaxed);
    VersionForth(k.(cs := 6), buf, p + 2, relaxed);
    VersionForth(k.(cs := 7), buf, p + 3, relaxed);
    VersionForth(k.(cs := 8), buf, p + 4, relaxed);
    VersionForth(k.(cs := 9), buf, p + 5, relaxed);
    VersionForth(k.(cs := 10), buf, p + 6, relaxed);
    VersionForth(k.(cs := 11), buf, p + 7, relaxed);
    var end := FindEnd(k.(cs := 12), buf, p + 8, relaxed);
    h := HeadText("", "", None, None, buf[p + 7], end, [], "");
    assert Sits(buf, p, "HTTP/");
    assert Sits(buf, p + 5, ['1', '.', h.minor]);
    SitsJoin(buf, p + 5, ['1', '.', h.minor], end);
    SitsJoin(buf, p, "HTTP/", ['1', '.', h.minor] + end);
  }

  lemma NameForth(m: Parser, buf: string, p: nat, relaxed: bool)
    requires Accepts(m, buf, p, relaxed) && m.cs == 14
    ensures p < |buf| && (buf[p] == ':' || (FieldNameChar(buf[p]) && Accepts(m, buf, p + 1, relaxed)))
  {
    Forth(m, buf, p, relaxed);
    FieldCharsRead(buf[p]);
    hide FieldNameChar;
  }

  lemma {:induction false} FindName(m: Parser, buf: string, p: nat, relaxed: bool) returns (k: nat)
    requires Accepts(m, buf, p, relaxed) && m.cs == 14
    ensures p + k < |buf| && buf[p + k] == ':' && forall i :: p <= i < p + k ==> FieldNameChar(buf[i])
    decreases |buf| - p
  {
    hide Run, Step, Accepts, FieldNameChar;
    NameForth(m, buf, p, relaxed);
    k := 0;
    if buf[p] != ':' {
      k := FindName(m, buf, p + 1, relaxed);
      k := 1 + k;
    }
  }

  /** The start of a line (13): the end of the head or a name. */
  lemma LineForth(m: Parser, buf: string, p: nat, relaxed: bool)
    requires Accepts(m, buf, p, relaxed) && m.cs == 13
    ensures p < |buf|
    ensures buf[p] == '\n' || (FieldNameChar(buf[p]) &&
              Accepts(m.(fieldStart := p, cs := if buf[p] == '\r' then 18 else 14), buf, p + 1, relaxed))
  {
    Forth(m, buf, p, relaxed);
    FieldCharsRead(buf[p]);
    hide FieldNameChar;
  }

  lemma ReturnForth(m: Parser, buf: string, p: nat, relaxed: bool)
    requires Accepts(m, buf, p, relaxed) && m.cs == 18
    ensures p < |buf| && (buf[p] in {'\n', ':'} || (FieldNameChar(buf[p]) && Accepts(m.(cs := 14), buf, p + 1, relaxed)))
  {
    Forth(m, buf, p, relaxed);
    FieldCharsRead(buf[p]);
    hide FieldNameChar;
  }

  /** Whether the head ends here; if not, the name that starts here. */
  lemma FindNameColon(m: Parser, buf: string, p: nat, relaxed: bool) returns (last: string, name: string)
    requires Accepts(m, buf, p, relaxed) && m.cs == 13
    ensures last != "" ==> IsEnd(last) && Sits(buf, p, last)
    ensures last == "" ==> ProperName(name) && Sits(buf, p, name + ":")
  {
    hide Run, Step, Accepts, FieldNameChar;
    LineForth(m, buf, p, relaxed);
    last, name := "", "";
    if buf[p] == '\n' {
      last := "\n";
      return;
    }
    var k := 1;
    var n := m.(fieldStart := p, cs := if buf[p] == '\r' then 18 else 14);
    if buf[p] == '\r' {
      ReturnForth(n, buf, p + 1, relaxed);
      if buf[p + 1] == '\n' {
        last := "\r\n";
        return;
      }
      if buf[p + 1] != ':' {
        k := FindName(n.(cs := 14), buf, p + 2, relaxed);
        k := 2 + k;
      }
    } else {
      k := FindName(n, buf, p + 1, relaxed);
      k := 1 + k;
    }
    name := Part(buf, p, k);
    SitsPart(buf, p, k);
    assert forall i :: 0 <= i < k ==> name[i] == buf[p + i];
  }

  lemma BlankForth(m: Parser, buf: string, p: nat, relaxed: bool)
    requires Accepts(m, buf, p, relaxed) && m.cs == 15
    ensures p < |buf|
    ensures Blank(buf[p]) ==> Accepts(m.(mark := p), buf, p + 1, relaxed)
    ensures Blank(buf[p]) || LineEnd(buf[p]) ||
            (FieldValueChar(buf[p]) && Accepts(m.(mark := p, cs := 16), buf, p + 1, relaxed))
  {
    Forth(m, buf, p, relaxed);
    FieldCharsRead(buf[p]);
    hide FieldValueChar, OnField;
  }

  lemma {:induction false} FindBlanks(m: Parser, buf: string, p: nat, relaxed: bool) returns (k: nat)
    requires Accepts(m, buf, p, relaxed) && m.cs == 15
    ensures p + k < |buf| && !Blank(buf[p + k]) && forall i :: p <= i < p + k ==> Blank(buf[i])
    decreases |buf| - p
  {
    hide Run, Step, Accepts, Blank;
    BlankForth(m, buf, p, relaxed);
    k := 0;
    if Blank(buf[p]) {
      k := FindBlanks(m.(mark := p), buf, p + 1, relaxed);
      k := 1 + k;
    }
  }

  lemma ValueForth(m: Parser, buf: string, p: nat, relaxed: bool)
    requires Accepts(m, buf, p, relaxed) && m.cs == 16
    ensures p < |buf| && (LineEnd(buf[p]) || (FieldValueChar(buf[p]) && Accepts(m, buf, p + 1, relaxed)))
  {
    Forth(m, buf, p, relaxed);
    FieldCharsRead(buf[p]);
    hide FieldValueChar, OnField;
  }

  lemma {:induction false} FindValue(m: Parser, buf: string, p: nat, relaxed: bool) returns (k: nat, end: string)
    requires Accepts(m, buf, p, relaxed) && m.cs == 16
    ensures p + k < |buf| && (forall i :: p <= i < p + k ==> FieldValueChar(buf[i]))
    ensures IsEnd(end) && Sits(buf, p + k, end)
    decreases |buf| - p
  {
    hide Run, Step, Accepts, FieldValueChar, LineEnd, IsEnd;
    ValueForth(m, buf, p, relaxed);
    k := 0;
    if LineEnd(buf[p]) {
      end := FindEnd(m, buf, p, relaxed);
    } else {
      k, end := FindValue(m, buf, p + 1, relaxed);
      k := 1 + k;
    }
  }

  /** From behind the blanks: the value and the end of its line. */
  lemma FindValueEnd(m: Parser, buf: string, p: nat, relaxed: bool) returns (value: string, end: string)
    requires Accepts(m, buf, p, relaxed) && m.cs == 15 && p < |buf| && !Blank(buf[p])
    ensures FieldValue(value) && IsEnd(end) && Sits(buf, p, value + end)
  {
    hide Run, Step, Accepts, FieldValueChar, LineEnd, IsEnd, Blank;
    BlankForth(m, buf, p, relaxed);
    var k := 0;
    if LineEnd(buf[p]) {
      end := FindEnd(m, buf, p, relaxed);
    } else {
      k, end := FindValue(m.(mark := p, cs := 16), buf, p + 1, relaxed);
      k := 1 + k;
    }
    value := Part(buf, p, k);
    SitsPart(buf, p, k);
    assert forall i :: 0 <= i < k ==> value[i] == buf[p + i];
    SitsJoin(buf, p, value, end);
  }

  lemma FindLine(m: Parser, buf: string, p: nat, name: string, relaxed: bool) returns (l: LineText)
    requires Accepts(m, buf, p, relaxed) && m.cs == 13 && ProperName(name) && Sits(buf, p, name + ":")
    ensures ProperLine(l) && Sits(buf, p, LineOf(l))
  {
    hide Run, Step, FieldValue, IsEnd, Blank, ProperName, FieldNameChar;
    var n := RunNameColon(m, buf, p, name, relaxed);
    var q := p + |name| + 1;
    var k := FindBlanks(n, buf, q, relaxed);
    var blanks := Part(buf, q, k);
    SitsPart(buf, q, k);
    assert forall i :: 0 <= i < k ==> blanks[i] == buf[q + i];
    n := RunBlanks(n, buf, q, blanks, relaxed);
    var value, end := FindValueEnd(n, buf, q + k, relaxed);
    l := LineText(name, blanks, value, end);
    hide Sits;
    SitsJoin(buf, q, blanks, value + end);
    SitsJoin(buf, p, name + ":", blanks + (value + end));
  }

  lemma {:induction false} FindLines(m: Parser, buf: string, p: nat, relaxed: bool) returns (ls: seq<LineText>, last: string)
    requires Accepts(m, buf, p, relaxed) && m.cs == 13
    ensures (forall i :: 0 <= i < |ls| ==> ProperLine(ls[i])) && IsEnd(last) && Sits(buf, p, LinesOf(ls) + last)
    decreases |buf| - p
  {
    hide Run, Step, ProperLine, IsEnd, LineOf, ProperName, Sits;
    var name;
    last, name := FindNameColon(m, buf, p, relaxed);
    ls := [];
    if last == "" {
      var l := FindLine(m, buf, p, name, relaxed);
      var n := RunAnyLine(m, buf, p, l, relaxed);
      LineNotEmpty(l);
      ls, last := FindLines(n, buf, p + |LineOf(l)|, relaxed);
      SitsJoin(buf, p, LineOf(l), LinesOf(ls) + last);
      LinesLonger(l, ls, last);
      ls := [l] + ls;
    } else {
      assert LinesOf([]) + last == last;
    }
  }

  lemma LineNotEmpty(l: LineText)
    ensures |LineOf(l)| > 0
  {
  }

  lemma LinesLonger(l: LineText, ls: seq<LineText>, last: string)
    ensures LinesOf([l] + ls) + last == LineOf(l) + (LinesOf(ls) + last)
  {
    hide LineOf;
    assert ([l] + ls)[1..] == ls;
  }

  lemma VerbIs(buf: string, len: nat)
    requires 1 <= len <= 20 && len < |buf| && buf[len] == ' ' && forall i :: 0 <= i < len ==> UpperOrDigit(buf[i])
    ensures ProperVerb(Part(buf, 0, len)) && Sits(buf, 0, Part(buf, 0, len) + " ")
  {
    SitsPart(buf, 0, len);
    assert [buf[len]] == " ";
  }

  /** What follows the method. */
  function TextBehind(h: HeadText): string { TargetOf(h) + (VersionOf(h) + (LinesOf(h.lines) + h.last)) }

  lemma FindBehind(m: Parser, buf: string, p: nat, relaxed: bool) returns (h: HeadText)
    requires Accepts(m, buf, p, relaxed) && m.cs == 3 && m.req.query == "" && m.req.fragment == ""
    ensures ProperTarget(h, relaxed) && h.minor in {'0', '1'} && IsEnd(h.end)
    ensures (forall i :: 0 <= i < |h.lines| ==> ProperLine(h.lines[i])) && IsEnd(h.last)
    ensures Sits(buf, p, TextBehind(h))
  {
    hide Run, Step, ProperTarget, TargetOf, VersionOf, LinesOf, ProperLine, IsEnd, Sits;
    var t := FindTarget(m, buf, p, relaxed);
    var n := RunAnyTarget(m, buf, p, t, relaxed);
    var q := p + |TargetOf(t)|;
    var v := FindVersion(n, buf, q, relaxed);
    n := RunAnyVersion(n, buf, q, v, relaxed);
    var ls, last := FindLines(n, buf, q + |VersionOf(v)|, relaxed);
    SitsJoin(buf, q, VersionOf(v), LinesOf(ls) + last);
    SitsJoin(buf, p, TargetOf(t), VersionOf(v) + (LinesOf(ls) + last));
    h := HeadText("", t.path, t.query, t.fragment, v.minor, v.end, ls, last);
    Assembled(h, t, v, relaxed);
  }

  /** An accepted text starts with a head of the grammar. */
  lemma HeadFound(buf: string, relaxed: bool) returns (h: HeadText)
    requires Accepts(NEW_PARSER, buf, 0, relaxed)
    ensures ProperHead(h, relaxed) && TextOf(h) <= buf
  {
    hide Run, Step, FindMethod, OnMethod, UpperOrDigit, ProperTarget, ProperVerb, TargetOf, VersionOf, LinesOf,
      ProperLine, IsEnd, Sits, Part;
    var len := FindVerb(NEW_PARSER, buf, 0, relaxed);
    var verb := Part(buf, 0, len);
    VerbIs(buf, len);
    VerbReadable(verb);
    PartLength(buf, len);
    RunMethod(NEW_PARSER, buf, verb, 0, relaxed);
    MethodGiven(buf);
    var t := FindBehind(OnMethod(NEW_PARSER, buf).(cs := 3), buf, len + 1, relaxed);
    h := t.(verb := verb);
    Assembled(h, t, t, relaxed);
    SitsJoin(buf, 0, verb + " ", TextBehind(t));
    SitsFirst(buf, TextOf(h));
  }

  lemma PartLength(buf: string, n: nat)
    requires n <= |buf|
    ensures |Part(buf, 0, n)| == n
  {
  }

  lemma SitsFirst(buf: string, s: string)
    requires Sits(buf, 0, s)
    ensures s <= buf
  {
  }

  lemma Assembled(h: HeadText, t: HeadText, v: HeadText, relaxed: bool)
    requires h.path == t.path && h.query == t.query && h.fragment == t.fragment && h.minor == v.minor && h.end == v.end
    ensures TargetOf(h) == TargetOf(t) && VersionOf(h) == VersionOf(v) && ProperTarget(h, relaxed) == ProperTarget(t, relaxed)
  {
  }

  /**
   * The automaton accepts exactly the texts that start with a head of the grammar. It consumes exactly that head,
   * gives the callbacks its parts, and reports an error exactly if it starts with no known method.
   */
  lemma HeadLanguage(buf: string, relaxed: bool)
    ensures Run(NEW_PARSER, buf, 0, relaxed).0.cs == FINAL <==> exists h :: ProperHead(h, relaxed) && TextOf(h) <= buf
    ensures var r := Run(NEW_PARSER, buf, 0, relaxed);
            forall h :: ProperHead(h, relaxed) && TextOf(h) <= buf ==>
              && r.1 == |TextOf(h)| && (r.0.error == 0 <==> FindMethod(buf, 0) != INVALID_METHOD)
              && (r.0.error == 0 ==> r.0.req.verb == FindMethod(buf, 0))
              && r.0.req.path == h.path && r.0.req.query == OrEmpty(h.query) && r.0.req.fragment == OrEmpty(h.fragment)
              && r.0.req.version == (if h.minor == '1' then 0x11 else 0x10)
              && r.0.req.headers == LinesSet(map[], h.lines)
  {
    hide Run, Step, ProperHead, TextOf, FindMethod, LinesSet, OrEmpty;
    if Run(NEW_PARSER, buf, 0, relaxed).0.cs == FINAL {
      var h := HeadFound(buf, relaxed);
    }
    forall h | ProperHead(h, relaxed) && TextOf(h) <= buf
      ensures var r := Run(NEW_PARSER, buf, 0, relaxed);
              && r.0.cs == FINAL && r.1 == |TextOf(h)| && (r.0.error == 0 <==> FindMethod(buf, 0) != INVALID_METHOD)
              && (r.0.error == 0 ==> r.0.req.verb == FindMethod(buf, 0))
              && r.0.req.path == h.path && r.0.req.query == OrEmpty(h.query) && r.0.req.fragment == OrEmpty(h.fragment)
              && r.0.req.version == (if h.minor == '1' then 0x11 else 0x10)
              && r.0.req.headers == LinesSet(map[], h.lines)
    {
      var n := HeadRead(h, buf, relaxed);
    }
  }
}
