/** Parsing a printed request head gives the request back. */
module HttpRoundTrip {
  import opened HttpGrammar
  import opened HttpMessage
  import opened HttpAutomaton

  /** `s` lies in `buf` at `p`. */
  predicate Sits(buf: string, p: nat, s: string) {
    p + |s| <= |buf| && buf[p..p + |s|] == s
  }

  lemma SitsSplit(buf: string, p: nat, a: string, b: string)
    requires Sits(buf, p, a + b)
    ensures Sits(buf, p, a) && Sits(buf, p + |a|, b)
  {
    assert buf[p..p + |a|] == (a + b)[..|a|];
    assert buf[p + |a|..p + |a| + |b|] == (a + b)[|a|..];
  }

  lemma SitsAt(buf: string, p: nat, s: string, i: nat)
    requires Sits(buf, p, s) && i < |s|
    ensures buf[p + i] == s[i]
  {
    assert buf[p..p + |s|][i] == buf[p + i];
  }

  /** One transition that neither fails nor ends the head. */
  lemma One(m: Parser, buf: string, p: nat, relaxed: bool)
    requires p < |buf| && Step(m, buf, p, relaxed).cs !in {0, OUTSIDE, FINAL}
    ensures Run(m, buf, p, relaxed) == Run(Step(m, buf, p, relaxed), buf, p + 1, relaxed)
  {
  }

  // ---- Method --------------------------------------------------------------------------------------

  /** The state after `k` characters of the method. */
  function MethodState(k: nat): nat { if k == 0 then 1 else if k == 1 then 2 else 173 + k }

  lemma MethodStep(m: Parser, buf: string, k: nat, relaxed: bool)
    requires k < |buf| && k <= 19 && m.cs == MethodState(k) && UpperOrDigit(buf[k]) && (k > 0 ==> m.mark == 0)
    ensures Run(m, buf, k, relaxed) == Run(m.(mark := 0, cs := MethodState(k + 1)), buf, k + 1, relaxed)
  {
    One(m, buf, k, relaxed);
  }

  lemma {:induction false} RunMethod(m: Parser, buf: string, name: string, k: nat, relaxed: bool)
    requires Sits(buf, 0, name + " ") && k <= |name| <= 20 && 1 <= |name|
    requires forall i :: 0 <= i < |name| ==> UpperOrDigit(name[i])
    requires m.cs == MethodState(k) && (k > 0 ==> m.mark == 0)
    ensures Run(m, buf, k, relaxed) == Run(OnMethod(m.(mark := 0), buf).(cs := 3), buf, |name| + 1, relaxed)
    decreases |name| - k
  {
    hide Run, Step, FindMethod, Slice, UpperOrDigit;
    SitsAt(buf, 0, name + " ", k);
    if k < |name| {
      MethodStep(m, buf, k, relaxed);
      RunMethod(m.(mark := 0, cs := MethodState(k + 1)), buf, name, k + 1, relaxed);
    } else {
      MethodEnd(m, buf, k, relaxed);
    }
  }

  lemma MethodEnd(m: Parser, buf: string, k: nat, relaxed: bool)
    requires 1 <= k <= 20 && k < |buf| && m.cs == MethodState(k) && buf[k] == ' ' && m.mark == 0
    ensures Run(m, buf, k, relaxed) == Run(OnMethod(m.(mark := 0), buf).(cs := 3), buf, k + 1, relaxed)
  {
    One(m, buf, k, relaxed);
  }

  // ---- Path, query, fragment -----------------------------------------------------------------------

  /** The automaton's classes are the grammar's, neither more nor less. */
  lemma TargetCharsRead(c: char)
    ensures UriChar(c, false) <==> TargetChar(c)
    ensures UriChar(c, true) <==> TargetChar(c) || LooseChar(c)
    ensures Hex(c) <==> HexDigit(c)
  {
  }

  lemma FieldCharsRead(c: char)
    ensures NameChar(c) <==> FieldNameChar(c)
    ensures NameStart(c) <==> FieldNameChar(c) && !LineEnd(c)
    ensures ValueChar(c) <==> FieldValueChar(c)
  {
  }

  /** Inside path (26), query (30) and fragment (21) such a text changes nothing but the position. */
  lemma {:induction false} RunUri(m: Parser, buf: string, p: nat, s: string, relaxed: bool)
    requires m.cs in {21, 26, 30} && Sits(buf, p, s) && TargetText(s, m.cs != 26, relaxed)
    ensures Run(m, buf, p, relaxed) == Run(m, buf, p + |s|, relaxed)
    decreases |s|
  {
    hide Run, Step, HexDigit, PlainChar;
    if s != "" {
      var n := if s[0] == '%' then 3 else 1;
      assert s == s[..n] + s[n..];
      SitsSplit(buf, p, s[..n], s[n..]);
      if s[0] == '%' {
        RunEscape(m, buf, p, s, relaxed);
      } else {
        SitsAt(buf, p, s, 0);
        RunPlain(m, buf, p, relaxed);
      }
      RunUri(m, buf, p + n, s[n..], relaxed);
    }
  }

  lemma RunPlain(m: Parser, buf: string, p: nat, relaxed: bool)
    requires m.cs in {21, 26, 30} && p < |buf|
    requires PlainChar(buf[p], m.cs != 26, relaxed)
    ensures Run(m, buf, p, relaxed) == Run(m, buf, p + 1, relaxed)
  {
    hide TargetChar;
    TargetCharsRead(buf[p]);
    One(m, buf, p, relaxed);
  }

  /** No other character is read there: the machine goes on, ends the part, or refuses. */
  lemma OthersRefused(m: Parser, buf: string, p: nat, relaxed: bool)
    requires m.cs in {21, 26, 30} && p < |buf| && !TargetChar(buf[p]) && buf[p] !in {' ', '#', '?', '%', '^', '{', '}'}
    ensures Run(m, buf, p, relaxed).0.cs == 0 && Run(m, buf, p, relaxed).1 == p
  {
    hide TargetChar;
    TargetCharsRead(buf[p]);
  }

  lemma RunEscape(m: Parser, buf: string, p: nat, s: string, relaxed: bool)
    requires m.cs in {21, 26, 30} && Sits(buf, p, s) && |s| >= 3 && s[0] == '%' && HexDigit(s[1]) && HexDigit(s[2])
    ensures Run(m, buf, p, relaxed) == Run(m, buf, p + 3, relaxed)
  {
    SitsAt(buf, p, s, 0);
    SitsAt(buf, p, s, 1);
    SitsAt(buf, p, s, 2);
    TargetCharsRead(s[1]);
    TargetCharsRead(s[2]);
    hide HexDigit;
    One(m, buf, p, relaxed);
    var a := Step(m, buf, p, relaxed);
    One(a, buf, p + 1, relaxed);
    var b := Step(a, buf, p + 1, relaxed);
    One(b, buf, p + 2, relaxed);
  }

  lemma PathStart(m: Parser, buf: string, p: nat, relaxed: bool)
    requires m.cs == 33 && p < |buf| && buf[p] != '/'
    ensures Run(m, buf, p, relaxed) == Run(m.(cs := 26), buf, p, relaxed)
  {
  }

  lemma QueryStart(m: Parser, buf: string, p: nat, relaxed: bool)
    requires m.cs == 29 && p < |buf| && (buf[p] == '%' || PlainChar(buf[p], true, relaxed))
    ensures Run(m, buf, p, relaxed) == Run(m.(cs := 30, queryStart := p), buf, p, relaxed)
  {
    hide TargetChar;
    TargetCharsRead(buf[p]);
  }

  lemma FragmentStart(m: Parser, buf: string, p: nat, relaxed: bool)
    requires m.cs == 20 && p < |buf| && (buf[p] == '%' || PlainChar(buf[p], true, relaxed))
    ensures Run(m, buf, p, relaxed) == Run(m.(cs := 21, mark := p), buf, p, relaxed)
  {
    hide TargetChar;
    TargetCharsRead(buf[p]);
  }

  /** Where the automaton goes from a part of the target, by the character behind it. */
  function Behind(c: char): nat { if c == ' ' then 4 else if c == '#' then 20 else 29 }

  lemma RunSlash(m: Parser, buf: string, p: nat, relaxed: bool)
    requires m.cs == 3 && p + 1 < |buf| && buf[p] == '/' && buf[p + 1] != '/'
    ensures Run(m, buf, p, relaxed) == Run(m.(mark := p, cs := 26), buf, p + 1, relaxed)
  {
    One(m, buf, p, relaxed);
    PathStart(m.(mark := p, cs := 33), buf, p + 1, relaxed);
  }

  lemma RunPath(m: Parser, buf: string, p: nat, path: string, c: char, relaxed: bool) returns (n: Parser)
    requires m.cs == 3 && OriginForm(path, relaxed) && c in {' ', '#', '?'} && Sits(buf, p, path + [c])
    ensures Run(m, buf, p, relaxed) == Run(n, buf, p + |path| + 1, relaxed)
    ensures n.cs == Behind(c) && n.req == m.req.(path := path) && n.error == m.error
  {
    hide Run, Step, TargetText;
    var q := p + |path|;
    SitsAt(buf, p, path + [c], 0);
    SitsAt(buf, p, path + [c], 1);
    SitsSplit(buf, p, path, [c]);
    SitsAt(buf, q, [c], 0);
    assert path == path[..1] + path[1..];
    SitsSplit(buf, p, path[..1], path[1..]);
    RunSlash(m, buf, p, relaxed);
    var k := m.(mark := p, cs := 26);
    RunUri(k, buf, p + 1, path[1..], relaxed);
    n := RunPathEnd(k, buf, q, relaxed);
  }

  lemma RunPathEnd(m: Parser, buf: string, q: nat, relaxed: bool) returns (n: Parser)
    requires m.cs == 26 && q < |buf| && buf[q] in {' ', '#', '?'}
    ensures Run(m, buf, q, relaxed) == Run(n, buf, q + 1, relaxed)
    ensures n == OnPath(m, buf, q).(cs := Behind(buf[q]))
  {
    n := Step(m, buf, q, relaxed);
    One(m, buf, q, relaxed);
  }

  lemma RunQuery(m: Parser, buf: string, p: nat, query: string, c: char, relaxed: bool) returns (n: Parser)
    requires m.cs == 29 && query != "" && TargetText(query, true, relaxed) && c in {' ', '#'} && Sits(buf, p, query + [c])
    ensures Run(m, buf, p, relaxed) == Run(n, buf, p + |query| + 1, relaxed)
    ensures n.cs == Behind(c) && n.req == m.req.(query := query) && n.error == m.error
  {
    hide Run, Step, PlainChar, HexDigit;
    var q := p + |query|;
    SitsSplit(buf, p, query, [c]);
    SitsAt(buf, q, [c], 0);
    SitsAt(buf, p, query, 0);
    QueryStart(m, buf, p, relaxed);
    var k := m.(cs := 30, queryStart := p);
    RunUri(k, buf, p, query, relaxed);
    n := RunQueryEnd(k, buf, q, relaxed);
  }

  lemma RunQueryEnd(m: Parser, buf: string, q: nat, relaxed: bool) returns (n: Parser)
    requires m.cs == 30 && q < |buf| && buf[q] in {' ', '#'}
    ensures Run(m, buf, q, relaxed) == Run(n, buf, q + 1, relaxed)
    ensures n == OnQuery(m, buf, q).(cs := Behind(buf[q]))
  {
    n := Step(m, buf, q, relaxed);
    One(m, buf, q, relaxed);
  }

  lemma RunFragment(m: Parser, buf: string, p: nat, fragment: string, relaxed: bool) returns (n: Parser)
    requires m.cs == 20 && fragment != "" && TargetText(fragment, true, relaxed) && Sits(buf, p, fragment + " ")
    ensures Run(m, buf, p, relaxed) == Run(n, buf, p + |fragment| + 1, relaxed)
    ensures n.cs == 4 && n.req == m.req.(fragment := fragment) && n.error == m.error
  {
    hide Run, Step, PlainChar, HexDigit;
    var q := p + |fragment|;
    SitsSplit(buf, p, fragment, " ");
    SitsAt(buf, q, " ", 0);
    SitsAt(buf, p, fragment, 0);
    FragmentStart(m, buf, p, relaxed);
    var k := m.(cs := 21, mark := p);
    RunUri(k, buf, p, fragment, relaxed);
    n := RunFragmentEnd(k, buf, q, relaxed);
  }

  lemma RunFragmentEnd(m: Parser, buf: string, q: nat, relaxed: bool) returns (n: Parser)
    requires m.cs == 21 && q < |buf| && buf[q] == ' '
    ensures Run(m, buf, q, relaxed) == Run(n, buf, q + 1, relaxed)
    ensures n == OnFragment(m, buf, q).(cs := 4)
  {
    n := Step(m, buf, q, relaxed);
    One(m, buf, q, relaxed);
  }

  /** The parts of a request that can be written in a request line. */
  predicate LegalTarget(r: Request) {
    OriginForm(r.path, false) && TargetText(r.query, true, false) && TargetText(r.fragment, true, false)
  }

  function FragmentTail(f: string): (t: string)
    ensures t != "" && t[0] in {' ', '#'}
  {
    if f == "" then " " else "#" + f + " "
  }

  function QueryTail(q: string, f: string): (t: string)
    ensures t != "" && t[0] in {' ', '#', '?'}
  {
    if q == "" then FragmentTail(f) else "?" + q + FragmentTail(f)
  }

  lemma QueryTailParts(q: string, f: string)
    requires q != ""
    ensures var t := FragmentTail(f); QueryTail(q, f)[1..] == (q + [t[0]]) + t[1..]
  {
  }

  lemma TargetParts(r: Request)
    ensures var t := QueryTail(r.query, r.fragment); Target(r) + " " == (r.path + [t[0]]) + t[1..]
  {
    var t := QueryTail(r.query, r.fragment);
    assert Target(r) + " " == r.path + t;
  }

  lemma RunFragmentTail(m: Parser, buf: string, p: nat, f: string, relaxed: bool) returns (n: Parser)
    requires m.cs == Behind(FragmentTail(f)[0]) && TargetText(f, true, relaxed) && Sits(buf, p, FragmentTail(f)[1..])
    requires m.req.fragment == ""
    ensures Run(m, buf, p, relaxed) == Run(n, buf, p + |FragmentTail(f)| - 1, relaxed)
    ensures n.cs == 4 && n.req == m.req.(fragment := f) && n.error == m.error
  {
    if f == "" {
      n := m;
    } else {
      assert FragmentTail(f)[1..] == f + " ";
      n := RunFragment(m, buf, p, f, relaxed);
    }
  }

  lemma RunQueryTail(m: Parser, buf: string, p: nat, q: string, f: string, relaxed: bool) returns (n: Parser)
    requires m.cs == Behind(QueryTail(q, f)[0]) && TargetText(q, true, relaxed) && TargetText(f, true, relaxed)
    requires Sits(buf, p, QueryTail(q, f)[1..]) && m.req.query == "" && m.req.fragment == ""
    ensures Run(m, buf, p, relaxed) == Run(n, buf, p + |QueryTail(q, f)| - 1, relaxed)
    ensures n.cs == 4 && n.req == m.req.(query := q, fragment := f) && n.error == m.error
  {
    hide Run, Step, TargetText, Sits;
    if q == "" {
      n := RunFragmentTail(m, buf, p, f, relaxed);
    } else {
      QueryTailParts(q, f);
      n := RunQueryFragment(m, buf, p, q, f, relaxed);
    }
  }

  lemma RunQueryFragment(m: Parser, buf: string, p: nat, q: string, f: string, relaxed: bool) returns (n: Parser)
    requires m.cs == 29 && q != "" && TargetText(q, true, relaxed) && TargetText(f, true, relaxed)
    requires Sits(buf, p, (q + [FragmentTail(f)[0]]) + FragmentTail(f)[1..]) && m.req.fragment == ""
    ensures Run(m, buf, p, relaxed) == Run(n, buf, p + |q| + |FragmentTail(f)|, relaxed)
    ensures n.cs == 4 && n.req == m.req.(query := q, fragment := f) && n.error == m.error
  {
    hide Run, Step, TargetText;
    var t := FragmentTail(f);
    SitsSplit(buf, p, q + [t[0]], t[1..]);
    n := RunQuery(m, buf, p, q, t[0], relaxed);
    n := RunFragmentTail(n, buf, p + |q| + 1, f, relaxed);
  }

  lemma RunTarget(m: Parser, buf: string, p: nat, r: Request, relaxed: bool) returns (n: Parser)
    requires m.cs == 3 && LegalTarget(r) && Sits(buf, p, Target(r) + " ")
    requires m.req.query == "" && m.req.fragment == ""
    ensures Run(m, buf, p, relaxed) == Run(n, buf, p + |Target(r)| + 1, relaxed)
    ensures n.cs == 4 && n.error == m.error
    ensures n.req == m.req.(path := r.path, query := r.query, fragment := r.fragment)
  {
    hide Run, Step, TargetText;
    var t := QueryTail(r.query, r.fragment);
    TargetParts(r);
    TextLoosened(r.path[1..], false, relaxed);
    TextLoosened(r.query, true, relaxed);
    TextLoosened(r.fragment, true, relaxed);
    SitsSplit(buf, p, r.path + [t[0]], t[1..]);
    n := RunPath(m, buf, p, r.path, t[0], relaxed);
    n := RunQueryTail(n, buf, p + |r.path| + 1, r.query, r.fragment, relaxed);
  }

  // ---- Version -------------------------------------------------------------------------------------

  function VersionText(v: nat): string {
    if v == 0x11 then "HTTP/1.1" else "HTTP/1.0"
  }

  lemma RunFive(m: Parser, buf: string, p: nat, relaxed: bool)
    requires m.cs == 4 && Sits(buf, p, "HTTP/")
    ensures Run(m, buf, p, relaxed) == Run(m.(mark := p, cs := 9), buf, p + 5, relaxed)
  {
    assert buf[p..p + 5] == "HTTP/";
    assert buf[p] == 'H' && buf[p + 1] == 'T' && buf[p + 2] == 'T' && buf[p + 3] == 'P' && buf[p + 4] == '/';
    One(m, buf, p, relaxed);
    One(m.(mark := p, cs := 5), buf, p + 1, relaxed);
    One(m.(mark := p, cs := 6), buf, p + 2, relaxed);
    One(m.(mark := p, cs := 7), buf, p + 3, relaxed);
    One(m.(mark := p, cs := 8), buf, p + 4, relaxed);
  }

  lemma RunDigits(m: Parser, buf: string, p: nat, d: char, relaxed: bool)
    requires m.cs == 9 && Sits(buf, p, ['1', '.', d]) && (d == '0' || d == '1')
    ensures Run(m, buf, p, relaxed) == Run(m.(cs := 12), buf, p + 3, relaxed)
  {
    assert buf[p] == '1' && buf[p + 1] == '.' && buf[p + 2] == d by {
      SitsAt(buf, p, ['1', '.', d], 0);
      SitsAt(buf, p, ['1', '.', d], 1);
      SitsAt(buf, p, ['1', '.', d], 2);
    }
    One(m, buf, p, relaxed);
    One(m.(cs := 10), buf, p + 1, relaxed);
    One(m.(cs := 11), buf, p + 2, relaxed);
  }

  lemma RunVersionEnd(m: Parser, buf: string, p: nat, relaxed: bool)
    requires m.cs == 12 && Sits(buf, p, CRLF)
    ensures Run(m, buf, p, relaxed) == Run(OnVersion(m, buf, p).(cs := 13), buf, p + 2, relaxed)
  {
    SitsAt(buf, p, CRLF, 0);
    SitsAt(buf, p, CRLF, 1);
    One(m, buf, p, relaxed);
    One(OnVersion(m, buf, p).(cs := 17), buf, p + 1, relaxed);
  }

  lemma VersionRead(v: nat)
    requires v in {0x10, 0x11}
    ensures SameUpTo(VersionText(v), "HTTP/1.1") <==> v == 0x11
    ensures SameUpTo(VersionText(v), "HTTP/1.0") <==> v == 0x10
  {
    assert "HTTP/1.1"[7] == '1' && "HTTP/1.0"[7] == '0';
  }

  lemma RunVersion(m: Parser, buf: string, p: nat, v: nat, relaxed: bool) returns (n: Parser)
    requires m.cs == 4 && v in {0x10, 0x11} && Sits(buf, p, VersionText(v) + CRLF)
    ensures Run(m, buf, p, relaxed) == Run(n, buf, p + 10, relaxed)
    ensures n.cs == 13 && n.error == m.error && n.req == m.req.(version := v)
  {
    hide Run, Step, SameUpTo;
    var d := if v == 0x11 then '1' else '0';
    SitsSplit(buf, p, VersionText(v), CRLF);
    assert VersionText(v) == "HTTP/" + ['1', '.', d];
    SitsSplit(buf, p, "HTTP/", ['1', '.', d]);
    RunFive(m, buf, p, relaxed);
    RunDigits(m.(mark := p, cs := 9), buf, p + 5, d, relaxed);
    var k := m.(mark := p, cs := 12);
    RunVersionEnd(k, buf, p + 8, relaxed);
    n := OnVersion(k, buf, p + 8).(cs := 13);
    assert Slice(buf, p, p + 8) == VersionText(v);
    VersionRead(v);
  }

  // ---- Header lines --------------------------------------------------------------------------------

  lemma NameStep(m: Parser, buf: string, p: nat, relaxed: bool)
    requires p < |buf| && m.cs == 14 && FieldNameChar(buf[p])
    ensures Run(m, buf, p, relaxed) == Run(m, buf, p + 1, relaxed)
  {
    FieldCharsRead(buf[p]);
    hide FieldNameChar, FieldValueChar;
    One(m, buf, p, relaxed);
  }

  lemma {:induction false} RunName(m: Parser, buf: string, p: nat, s: string, relaxed: bool)
    requires m.cs == 14 && Sits(buf, p, s) && forall i :: 0 <= i < |s| ==> FieldNameChar(s[i])
    ensures Run(m, buf, p, relaxed) == Run(m, buf, p + |s|, relaxed)
    decreases |s|
  {
    hide Run, Step, FieldNameChar;
    if s != "" {
      SitsAt(buf, p, s, 0);
      assert s == s[..1] + s[1..];
      SitsSplit(buf, p, s[..1], s[1..]);
      NameStep(m, buf, p, relaxed);
      RunName(m, buf, p + 1, s[1..], relaxed);
    }
  }

  lemma ValueStep(m: Parser, buf: string, p: nat, relaxed: bool)
    requires p < |buf| && m.cs == 16 && FieldValueChar(buf[p])
    ensures Run(m, buf, p, relaxed) == Run(m, buf, p + 1, relaxed)
  {
    FieldCharsRead(buf[p]);
    hide FieldNameChar, FieldValueChar;
    One(m, buf, p, relaxed);
  }

  lemma {:induction false} RunValue(m: Parser, buf: string, p: nat, s: string, relaxed: bool)
    requires m.cs == 16 && Sits(buf, p, s) && forall i :: 0 <= i < |s| ==> FieldValueChar(s[i])
    ensures Run(m, buf, p, relaxed) == Run(m, buf, p + |s|, relaxed)
    decreases |s|
  {
    hide Run, Step, FieldValueChar;
    if s != "" {
      SitsAt(buf, p, s, 0);
      assert s == s[..1] + s[1..];
      SitsSplit(buf, p, s[..1], s[1..]);
      ValueStep(m, buf, p, relaxed);
      RunValue(m, buf, p + 1, s[1..], relaxed);
    }
  }

  /** Name, colon and blank. */
  lemma RunKey(m: Parser, buf: string, p: nat, name: string, relaxed: bool)
    requires m.cs == 13 && FieldName(name) && Sits(buf, p, name + ": ")
    ensures var q := p + |name|;
            Run(m, buf, p, relaxed)
            == Run(m.(fieldStart := p, fieldLen := |name|, mark := q + 1, cs := 15), buf, q + 2, relaxed)
  {
    hide Run, NameChar, FieldNameChar, OnField;
    FieldCharsRead(name[0]);
    var q := p + |name|;
    SitsSplit(buf, p, name, ": ");
    SitsAt(buf, p, name, 0);
    SitsAt(buf, q, ": ", 0);
    SitsAt(buf, q, ": ", 1);
    assert name == name[..1] + name[1..];
    SitsSplit(buf, p, name[..1], name[1..]);
    One(m, buf, p, relaxed);
    var k := m.(fieldStart := p, cs := 14);
    RunName(k, buf, p + 1, name[1..], relaxed);
    One(k, buf, q, relaxed);
    One(k.(fieldLen := |name|, cs := 15), buf, q + 1, relaxed);
  }

  lemma RunFieldEnd(m: Parser, buf: string, q: nat, relaxed: bool)
    requires m.cs in {15, 16} && Sits(buf, q, CRLF)
    ensures var k := if m.cs == 15 then m.(mark := q) else m;
            Run(m, buf, q, relaxed) == Run(OnField(k, buf, q).(cs := 13), buf, q + 2, relaxed)
  {
    hide Run, OnField, StepMethod, StepTarget, StepPath, StepQuery, StepFragment, StepHex, StepVersion, NameChar;
    SitsAt(buf, q, CRLF, 0);
    SitsAt(buf, q, CRLF, 1);
    var k := if m.cs == 15 then m.(mark := q) else m;
    One(m, buf, q, relaxed);
    One(OnField(k, buf, q).(cs := 17), buf, q + 1, relaxed);
  }

  lemma ValueStart(m: Parser, buf: string, p: nat, relaxed: bool)
    requires m.cs == 15 && p < |buf| && FieldValueChar(buf[p]) && !Blank(buf[p])
    ensures Run(m, buf, p, relaxed) == Run(m.(mark := p, cs := 16), buf, p + 1, relaxed)
  {
    FieldCharsRead(buf[p]);
    hide FieldValueChar;
    One(m, buf, p, relaxed);
  }

  /** From behind the blank to the end of the line. */
  lemma RunRest(m: Parser, buf: string, p: nat, value: string, relaxed: bool) returns (n: Parser)
    requires m.cs == 15 && FieldValue(value) && Sits(buf, p, value + CRLF)
    ensures Run(m, buf, p, relaxed) == Run(n, buf, p + |value| + 2, relaxed)
    ensures n == OnField(m.(mark := p), buf, p + |value|).(cs := 13)
  {
    hide Run, Step, SetHeader, Slice, FieldValueChar, Blank;
    var q := p + |value|;
    SitsSplit(buf, p, value, CRLF);
    n := OnField(m.(mark := p), buf, q).(cs := 13);
    if value == "" {
      RunFieldEnd(m, buf, q, relaxed);
    } else {
      SitsAt(buf, p, value, 0);
      assert value == value[..1] + value[1..];
      SitsSplit(buf, p, value[..1], value[1..]);
      ValueStart(m, buf, p, relaxed);
      var k := m.(mark := p, cs := 16);
      RunValue(k, buf, p + 1, value[1..], relaxed);
      RunFieldEnd(k, buf, q, relaxed);
    }
  }

  /** A printed header line sets exactly this header. */
  lemma RunLine(m: Parser, buf: string, p: nat, name: string, value: string, relaxed: bool) returns (n: Parser)
    requires m.cs == 13 && FieldName(name) && FieldValue(value) && Sits(buf, p, Line(name, value))
    ensures Run(m, buf, p, relaxed) == Run(n, buf, p + |Line(name, value)|, relaxed)
    ensures n.cs == 13 && n.error == m.error
    ensures n.req == m.req.(headers := SetHeader(m.req.headers, name, value))
  {
    hide Run, Step, SetHeader, FieldNameChar, FieldValue;
    assert Line(name, value) == (name + ": ") + (value + CRLF);
    SitsSplit(buf, p, name + ": ", value + CRLF);
    RunKey(m, buf, p, name, relaxed);
    var q := p + |name| + 2;
    var k := m.(fieldStart := p, fieldLen := |name|, mark := q - 1, cs := 15);
    n := RunRest(k, buf, q, value, relaxed);
    SitsSplit(buf, p, name, ": ");
    SitsSplit(buf, q, value, CRLF);
  }

  lemma RunBlank(m: Parser, buf: string, p: nat, relaxed: bool) returns (n: Parser)
    requires m.cs == 13 && Sits(buf, p, CRLF)
    ensures Run(m, buf, p, relaxed) == (n, p + 2)
    ensures n.cs == FINAL && n.error == m.error && n.req == m.req
  {
    SitsAt(buf, p, CRLF, 0);
    SitsAt(buf, p, CRLF, 1);
    One(m, buf, p, relaxed);
    var k := Step(m, buf, p, relaxed);
    n := Step(k, buf, p + 1, relaxed);
  }

  // ---- The whole head ------------------------------------------------------------------------------

  /** The headers that the printed lines set, in their order. */
  function Applied(h: Headers, r: Request, keys: seq<string>): Headers
    requires forall k <- keys :: k in r.headers
    decreases |keys|
  {
    if keys == [] then h
    else if !r.websocket && keys[0] == "connection" then Applied(h, r, keys[1..])
    else Applied(SetHeader(h, r.headers[keys[0]].name, r.headers[keys[0]].value), r, keys[1..])
  }

  predicate LegalHeaders(h: Headers) {
    forall k :: k in h ==> Fold(h[k].name) == k && FieldName(h[k].name) && FieldValue(h[k].value)
  }

  lemma {:induction false} RunLines(m: Parser, buf: string, p: nat, r: Request, keys: seq<string>, relaxed: bool)
    returns (n: Parser)
    requires m.cs == 13 && LegalHeaders(r.headers) && (forall k <- keys :: k in r.headers)
    requires Sits(buf, p, Lines(r, keys))
    ensures Run(m, buf, p, relaxed) == Run(n, buf, p + |Lines(r, keys)|, relaxed)
    ensures n.cs == 13 && n.error == m.error
    ensures n.req == m.req.(headers := Applied(m.req.headers, r, keys))
    decreases |keys|
  {
    hide Run, Step, Line, SetHeader, FieldName, FieldValue, Sits;
    if keys == [] {
      n := m;
    } else if !r.websocket && keys[0] == "connection" {
      n := RunLines(m, buf, p, r, keys[1..], relaxed);
    } else {
      var f := r.headers[keys[0]];
      SitsSplit(buf, p, Line(f.name, f.value), Lines(r, keys[1..]));
      n := RunLine(m, buf, p, f.name, f.value, relaxed);
      n := RunLines(n, buf, p + |Line(f.name, f.value)|, r, keys[1..], relaxed);
    }
  }

  /** The order in which the map is walked does not matter. */
  lemma {:induction false} AppliedIs(h: Headers, r: Request, keys: seq<string>, x: string)
    requires (forall k <- keys :: k in r.headers) && LegalHeaders(r.headers)
    requires forall i, j :: 0 <= i < j < |keys| ==> keys[i] != keys[j]
    requires forall k <- keys :: k in h ==> k == "connection" && !r.websocket
    ensures var a := Applied(h, r, keys);
            if x in keys && (r.websocket || x != "connection") then x in a && a[x] == r.headers[x]
            else (x in a <==> x in h) && (x in h ==> a[x] == h[x])
    decreases |keys|
  {
    if keys != [] {
      if !r.websocket && keys[0] == "connection" {
        AppliedIs(h, r, keys[1..], x);
      } else {
        var f := r.headers[keys[0]];
        AppliedIs(SetHeader(h, f.name, f.value), r, keys[1..], x);
      }
    }
  }

  /** `keys` lists the headers, each once, in any order. */
  predicate Lists(keys: seq<string>, h: Headers) {
    (forall k <- keys :: k in h) && (forall k :: k in h ==> k in keys)
    && forall i, j :: 0 <= i < j < |keys| ==> keys[i] != keys[j]
  }

  /** All methods but M-SEARCH consist of letters the automaton reads. */
  predicate Legal(r: Request) {
    && r.verb < INVALID_METHOD && MethodName(r.verb) != "M-SEARCH"
    && r.version in {0x10, 0x11}
    && LegalTarget(r)
    && LegalHeaders(r.headers)
  }

  function LengthName(): string { "content-length" }

  /** The request's headers with those that `dump` adds. */
  function Sent(r: Request): Headers {
    if r.body == "" then Base(r) else SetHeader(Base(r), LengthName(), Decimal(|r.body|))
  }

  lemma FoldLow(s: string)
    requires forall i :: 0 <= i < |s| ==> !('A' <= s[i] <= 'Z')
    ensures Fold(s) == s
  {
  }

  lemma FoldConstants()
    ensures Fold("connection") == "connection" && Fold("content-length") == "content-length"
    ensures Fold(KEEP) == KEEP && Fold("close") == "close"
  {
    hide Fold;
    FoldLow("connection");
    FoldLow("content-length");
    FoldLow(KEEP);
    FoldLow("close");
  }

  function FirstHeaders(r: Request): Headers {
    if r.websocket then map[] else SetHeader(map[], "connection", Connection(r))
  }

  /** The headers that come out of the lines but for content-length. */
  function Base(r: Request): Headers {
    if r.websocket then r.headers else r.headers["connection" := Field("connection", Connection(r))]
  }

  lemma AppliedAt(r: Request, keys: seq<string>, x: string)
    requires LegalHeaders(r.headers) && Lists(keys, r.headers)
    ensures var a := Applied(FirstHeaders(r), r, keys);
            (x in a <==> x in Base(r)) && (x in a ==> a[x] == Base(r)[x])
  {
    hide Applied, Fold, Connection, LegalHeaders;
    FoldConstants();
    AppliedIs(FirstHeaders(r), r, keys, x);
  }

  lemma AppliedAll(r: Request, keys: seq<string>)
    requires LegalHeaders(r.headers) && Lists(keys, r.headers)
    ensures Applied(FirstHeaders(r), r, keys) == Base(r)
  {
    hide Applied, Fold, Connection, Base, FirstHeaders, LegalHeaders;
    var a, b := Applied(FirstHeaders(r), r, keys), Base(r);
    forall x ensures (x in a <==> x in b) && (x in a ==> a[x] == b[x]) {
      AppliedAt(r, keys, x);
    }
  }

  lemma MethodReadable(m: nat)
    requires m < INVALID_METHOD && MethodName(m) != "M-SEARCH"
    ensures 1 <= |MethodName(m)| <= 20
    ensures forall i :: 0 <= i < |MethodName(m)| ==> UpperOrDigit(MethodName(m)[i])
  {
    if m < 17 { FirstReadable(m); }
  }

  lemma FirstReadable(m: nat)
    requires m < 17
    ensures 1 <= |MethodName(m)| <= 20
    ensures forall i :: 0 <= i < |MethodName(m)| ==> UpperOrDigit(MethodName(m)[i])
  {
  }

  lemma VersionPrinted(v: nat)
    requires v in {0x10, 0x11}
    ensures "HTTP/" + Decimal(v / 16) + "." + Decimal(v % 16) == VersionText(v)
  {
    assert Decimal(1) == "1" && Decimal(0) == "0";
  }

  function FirstLine(r: Request): string {
    if r.websocket then "" else Line("connection", Connection(r))
  }

  function LengthLine(r: Request): string {
    if r.body == "" then "" else Line(LengthName(), Decimal(|r.body|))
  }

  lemma Regroup(a: string, t: string, v: string, x: string, y: string)
    ensures a + " " + t + " " + v + CRLF + x + y == (a + " ") + ((t + " ") + ((v + CRLF) + (x + y)))
  {
    assert t + " " + v + CRLF + x + y == (t + " ") + ((v + CRLF) + (x + y));
  }

  lemma HeadParts(r: Request, keys: seq<string>)
    requires forall k <- keys :: k in r.headers
    requires r.version in {0x10, 0x11}
    ensures Head(r, keys) ==
            (MethodName(r.verb) + " ") + ((Target(r) + " ") + ((VersionText(r.version) + CRLF) +
            (FirstLine(r) + (Lines(r, keys) + (LengthLine(r) + CRLF)))))
  {
    hide MethodName, Target, Decimal, VersionText, Line, Lines;
    VersionPrinted(r.version);
    var a, t, v := MethodName(r.verb), Target(r), VersionText(r.version);
    Regroup(a, t, v, FirstLine(r), Lines(r, keys) + (LengthLine(r) + CRLF));
    VersionGroup(a + " " + t, Decimal(r.version / 16), Decimal(r.version % 16));
  }

  lemma VersionGroup(a: string, hi: string, lo: string)
    ensures a + " HTTP/" + hi + "." + lo == a + " " + ("HTTP/" + hi + "." + lo)
  {
    assert " HTTP/" == " " + "HTTP/";
  }

  lemma ConstantsLegal(r: Request)
    ensures FieldName(LengthName()) && FieldValue(Connection(r))
  {
  }

  /** The header lines that follow `Headers h`, up to the blank line. */
  function Rest(r: Request, keys: seq<string>): string
    requires forall k <- keys :: k in r.headers
  {
    FirstLine(r) + (Lines(r, keys) + (LengthLine(r) + CRLF))
  }

  lemma FirstCases(r: Request)
    ensures r.websocket ==> FirstLine(r) == "" && FirstHeaders(r) == map[]
    ensures !r.websocket ==>
      FirstLine(r) == Line(ConnectionName(), Connection(r))
      && FirstHeaders(r) == SetHeader(map[], ConnectionName(), Connection(r))
  {
  }

  function ConnectionName(): string { "connection" }

  lemma ConnectionLegal()
    ensures FieldName(ConnectionName())
  {
  }

  lemma RunFirst(m: Parser, buf: string, p: nat, r: Request, relaxed: bool) returns (n: Parser)
    requires m.cs == 13 && m.req.headers == map[] && Sits(buf, p, FirstLine(r))
    ensures Run(m, buf, p, relaxed) == Run(n, buf, p + |FirstLine(r)|, relaxed)
    ensures n.cs == 13 && n.error == m.error && n.req == m.req.(headers := FirstHeaders(r))
  {
    hide Run, Step, FieldName, FieldValue, Line, SetHeader, Connection, Sits, ConnectionName, FirstLine, FirstHeaders, Fold;
    FirstCases(r);
    if r.websocket {
      n := m;
    } else {
      ConstantsLegal(r);
      ConnectionLegal();
      n := RunLine(m, buf, p, ConnectionName(), Connection(r), relaxed);
    }
  }

  lemma DecimalLegal(n: nat)
    ensures FieldValue(Decimal(n))
  {
  }

  lemma LengthCases(r: Request)
    ensures r.body == "" ==> LengthLine(r) == "" && Sent(r) == Base(r)
    ensures r.body != "" ==>
      var d := Decimal(|r.body|);
      LengthLine(r) == Line(LengthName(), d) && Sent(r) == SetHeader(Base(r), LengthName(), d)
  {
  }

  lemma RunLength(m: Parser, buf: string, p: nat, r: Request, relaxed: bool) returns (n: Parser)
    requires m.cs == 13 && m.req.headers == Base(r) && Sits(buf, p, LengthLine(r))
    ensures Run(m, buf, p, relaxed) == Run(n, buf, p + |LengthLine(r)|, relaxed)
    ensures n.cs == 13 && n.error == m.error && n.req == m.req.(headers := Sent(r))
  {
    hide Run, Step, FieldName, FieldValue, Line, SetHeader, Base, Decimal, Sits, LengthName, LengthLine, Sent;
    LengthCases(r);
    if r.body == "" {
      n := m;
    } else {
      ConstantsLegal(r);
      DecimalLegal(|r.body|);
      n := RunLine(m, buf, p, LengthName(), Decimal(|r.body|), relaxed);
    }
  }

  lemma RunHeaders(m: Parser, buf: string, p: nat, r: Request, keys: seq<string>, relaxed: bool) returns (n: Parser)
    requires m.cs == 13 && m.req.headers == map[]
    requires LegalHeaders(r.headers) && Lists(keys, r.headers) && Sits(buf, p, Rest(r, keys))
    ensures Run(m, buf, p, relaxed) == (n, p + |Rest(r, keys)|)
    ensures n.cs == FINAL && n.error == m.error && n.req == m.req.(headers := Sent(r))
  {
    hide Run, Step, LegalHeaders, FirstLine, Lines, LengthLine, Sits, Base, Sent, FirstHeaders, Applied;
    var a, b, c := FirstLine(r), Lines(r, keys), LengthLine(r);
    SitsSplit(buf, p, a, b + (c + CRLF));
    SitsSplit(buf, p + |a|, b, c + CRLF);
    SitsSplit(buf, p + |a| + |b|, c, CRLF);
    n := RunFirst(m, buf, p, r, relaxed);
    n := RunLines(n, buf, p + |a|, r, keys, relaxed);
    AppliedAll(r, keys);
    n := RunLength(n, buf, p + |a| + |b|, r, relaxed);
    n := RunBlank(n, buf, p + |a| + |b| + |c|, relaxed);
  }

  /** The request line without its end is `name target version CRLF`. */
  lemma RunRequestLine(buf: string, r: Request, relaxed: bool) returns (n: Parser, p: nat)
    requires Legal(r)
    requires Sits(buf, 0, (MethodName(r.verb) + " "))
    requires Sits(buf, |MethodName(r.verb)| + 1, (Target(r) + " ") + (VersionText(r.version) + CRLF))
    ensures p == |MethodName(r.verb)| + 1 + |Target(r)| + 1 + 10 <= |buf|
    ensures Run(NEW_PARSER, buf, 0, relaxed) == Run(n, buf, p, relaxed)
    ensures n.cs == 13 && n.error == 0
    ensures n.req == NEW_REQUEST.(verb := r.verb, path := r.path, query := r.query, fragment := r.fragment,
                                 version := r.version)
  {
    hide Run, Step, MethodName, Target, LegalTarget, LegalHeaders, FindMethod, UpperOrDigit;
    var name := MethodName(r.verb);
    MethodReadable(r.verb);
    RunMethod(NEW_PARSER, buf, name, 0, relaxed);
    SitsSplit(buf, 0, name, " ");
    assert Slice(buf, 0, |buf|)[..|name|] == name;
    MethodFound(r.verb, Slice(buf, 0, |buf|));
    n := OnMethod(NEW_PARSER, buf).(cs := 3);
    p := |name| + 1;
    SitsSplit(buf, p, Target(r) + " ", VersionText(r.version) + CRLF);
    n := RunTarget(n, buf, p, r, relaxed);
    p := p + |Target(r)| + 1;
    n := RunVersion(n, buf, p, r.version, relaxed);
    p := p + 10;
  }

  /**
   * Parsing a printed head consumes exactly the head and gives back method, target, version and headers,
   * with the connection and content-length headers that were added.
   */
  lemma HeadRoundTrip(r: Request, keys: seq<string>, buf: string, relaxed: bool) returns (n: Parser)
    requires Legal(r) && Lists(keys, r.headers) && Head(r, keys) <= buf
    ensures Run(NEW_PARSER, buf, 0, relaxed) == (n, |Head(r, keys)|)
    ensures n.cs == FINAL && n.error == 0
    ensures n.req == NEW_REQUEST.(verb := r.verb, path := r.path, query := r.query, fragment := r.fragment,
                                 version := r.version, headers := Sent(r))
  {
    hide Run, Step, MethodName, Target, LegalTarget, LegalHeaders, VersionText, Sent, FirstLine, Lines, LengthLine, Head;
    var a, t, v, x := MethodName(r.verb) + " ", Target(r) + " ", VersionText(r.version) + CRLF, Rest(r, keys);
    HeadParts(r, keys);
    assert Sits(buf, 0, a + (t + (v + x)));
    SitsSplit(buf, 0, a, t + (v + x));
    assert t + (v + x) == (t + v) + x;
    SitsSplit(buf, |a|, t + v, x);
    var p;
    n, p := RunRequestLine(buf, r, relaxed);
    VersionSize(r.version);
    n := RunHeaders(n, buf, p, r, keys, relaxed);
  }

  lemma VersionSize(v: nat)
    ensures |VersionText(v) + CRLF| == 10
  {
  }

  /**
   * The parsed content-length is the length of the printed body, unless there is no body and the request
   * had set a number of its own.
   */
  lemma SentLength(r: Request)
    requires |r.body| < 0x1_0000_0000_0000_0000
    ensures CastUint64(GetHeader(Sent(r), "content-length")) == |r.body|
            <==> r.body != "" || CastUint64(GetHeader(r.headers, "content-length")) == 0
  {
    hide Fold, Decimal, CastUint64;
    FoldConstants();
    DecimalRoundTrip(|r.body|);
  }

  /** The flag that the connection header of a websocket request stands for. */
  function OwnClose(h: Headers): bool {
    var own := GetHeader(h, "connection");
    own == "" || Fold(own) != KEEP
  }

  /**
   * The close flag survives if and only if the connection header is printed from it, or the request's own
   * header, or the lack of one, says the same. A new request is created with the flag set.
   */
  lemma SentClose(r: Request, q: Request)
    requires q.headers == Sent(r) && q.close
    ensures Init(q).close == r.close <==> !r.websocket || r.close == OwnClose(r.headers)
  {
    hide Fold, Decimal;
    FoldConstants();
  }

  /** A websocket request that keeps the connection open and does not say so arrives with the flag set. */
  lemma KeepAliveLost(q: Request)
    requires q.headers == Sent(NEW_REQUEST.(websocket := true, close := false)) && q.close
    ensures Init(q).close
  {
    SentClose(NEW_REQUEST.(websocket := true, close := false), q);
  }

  lemma DashRefused(h: string, relaxed: bool)
    requires |h| >= 2 && h[0] == 'M' && h[1] == '-'
    ensures Run(NEW_PARSER, h, 0, relaxed).0.cs == 0
  {
    One(NEW_PARSER, h, 0, relaxed);
  }

  lemma MethodFirst(r: Request, keys: seq<string>)
    requires r.verb == 24 && forall k <- keys :: k in r.headers
    ensures var h := Head(r, keys); |h| >= 2 && h[0] == 'M' && h[1] == '-'
  {
    hide MethodName, Target, Lines, Line, Decimal;
    assert MethodName(r.verb) <= Head(r, keys);
    SearchName();
  }

  lemma SearchName()
    ensures |MethodName(24)| >= 2 && MethodName(24)[0] == 'M' && MethodName(24)[1] == '-'
  {
  }

  /** The one method that is printed but cannot be read: the automaton has no dash in a method. */
  lemma SearchRefused(r: Request, keys: seq<string>, relaxed: bool)
    requires r.verb == 24 && forall k <- keys :: k in r.headers
    ensures Run(NEW_PARSER, Head(r, keys), 0, relaxed).0.cs == 0
  {
    hide *;
    MethodFirst(r, keys);
    DashRefused(Head(r, keys), relaxed);
  }
}
