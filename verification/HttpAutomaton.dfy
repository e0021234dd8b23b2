/**
 * The request-head automaton of `dwframe/http/http11_parser.rl.cc` (method, origin-form target, version,
 * headers) with its mark and callback actions, and the callbacks of `dwframe/http/http_parser.cc`. State
 * numbers are those of the generated code.
 */
module HttpAutomaton {
  import opened HttpMessage

  /** `http_parser`, the request that the callbacks fill in, and the error number they set. */
  datatype Parser = Parser(
    cs: nat, mark: nat, fieldStart: nat, fieldLen: nat, queryStart: nat, req: Request, error: nat)

  const START: nat := 1
  const FINAL: nat := 348

  /** The transitions to scheme, authority and framing states are not part of this model. */
  const OUTSIDE: nat := 1000

  const NEW_PARSER := Parser(START, 0, 0, 0, 0, NEW_REQUEST, 0)

  // ---- Character classes ---------------------------------------------------------------------------

  predicate UpperOrDigit(c: char) { 'A' <= c <= 'Z' || '0' <= c <= '9' }

  predicate Hex(c: char) { '0' <= c <= '9' || 'A' <= c <= 'F' || 'a' <= c <= 'f' }

  /** Characters of path, query and fragment but for `%` and `?`; bytes above 127 are negative and allowed. */
  predicate UriChar(c: char, relaxed: bool) {
    var n := c as int;
    || n == 33 || n == 61 || n == 95 || n == 126 || n >= 128
    || (36 <= n <= 59 && n != 37) || 64 <= n <= 90 || 97 <= n <= 122
    || (relaxed && (n == 94 || n == 123 || n == 125))
  }

  predicate QueryChar(c: char, relaxed: bool) { c == '?' || UriChar(c, relaxed) }

  /** First character of a header name. */
  predicate NameStart(c: char) { NameChar(c) && c != '\n' && c != '\r' }

  /** Further characters of a header name. */
  predicate NameChar(c: char) {
    var n := c as int;
    || 1 <= n <= 8 || 10 <= n <= 31 || n == 33 || 35 <= n <= 39 || 42 <= n <= 43 || 45 <= n <= 46
    || 48 <= n <= 57 || 65 <= n <= 90 || 94 <= n <= 122 || n == 124 || n == 126
  }

  predicate ValueChar(c: char) { c != '\0' && c != '\n' && c != '\r' && c as int != 127 }

  // ---- Callbacks -----------------------------------------------------------------------------------

  function Slice(buf: string, from: nat, to: nat): string {
    if from <= to <= |buf| then buf[from..to] else ""
  }

  /** `on_request_method` looks at the text from the mark on, whatever its length. */
  function OnMethod(m: Parser, buf: string): Parser {
    var i := FindMethod(Slice(buf, m.mark, |buf|), 0);
    if i == INVALID_METHOD then m.(error := 1000) else m.(req := m.req.(verb := i))
  }

  function OnPath(m: Parser, buf: string, p: nat): Parser { m.(req := m.req.(path := Slice(buf, m.mark, p))) }

  function OnQuery(m: Parser, buf: string, p: nat): Parser { m.(req := m.req.(query := Slice(buf, m.queryStart, p))) }

  function OnFragment(m: Parser, buf: string, p: nat): Parser { m.(req := m.req.(fragment := Slice(buf, m.mark, p))) }

  /** `strncmp(at, text, length) == 0`. */
  predicate SameUpTo(v: string, text: string) {
    if |v| <= |text| then v <= text else text <= v && v[|text|] == '\0'
  }

  function OnVersion(m: Parser, buf: string, p: nat): Parser {
    var v := Slice(buf, m.mark, p);
    if SameUpTo(v, "HTTP/1.1") then m.(req := m.req.(version := 0x11))
    else if SameUpTo(v, "HTTP/1.0") then m.(req := m.req.(version := 0x10))
    else m.(error := 1001)
  }

  /** `on_request_http_field`; an empty name is only logged. */
  function OnField(m: Parser, buf: string, p: nat): Parser {
    if m.fieldLen == 0 then m
    else
      var name := Slice(buf, m.fieldStart, m.fieldStart + m.fieldLen);
      m.(req := m.req.(headers := SetHeader(m.req.headers, name, Slice(buf, m.mark, p))))
  }

  // ---- Transitions ---------------------------------------------------------------------------------

  function StepMethod(m: Parser, buf: string, p: nat): Parser
    requires p < |buf|
  {
    var c := buf[p];
    if m.cs == 1 then
      (if UpperOrDigit(c) then m.(mark := p, cs := 2)
       else if c == '<' || c == '@' then m.(cs := OUTSIDE) else m.(cs := 0))
    else if c == ' ' then OnMethod(m, buf).(cs := 3)
    else if UpperOrDigit(c) && m.cs != 193 then m.(cs := if m.cs == 2 then 175 else m.cs + 1)
    else m.(cs := 0)
  }

  /** States 3 and 33: the first characters of the target. */
  function StepTarget(m: Parser, buf: string, p: nat, relaxed: bool): Parser
    requires p < |buf|
  {
    var c := buf[p];
    if m.cs == 3 then
      var k := m.(mark := p);
      (if c == '/' then k.(cs := 33)
       else if c == ' ' then OnPath(k, buf, p).(cs := 4)
       else if c == '#' then OnPath(k, buf, p).(cs := 20)
       else if c == '?' then OnPath(k, buf, p).(cs := 29)
       else if c == '%' || (UriChar(c, relaxed) && c != ':' && c as int < 128) then m.(cs := OUTSIDE)
       else m.(cs := 0))
    else if c == '/' then m.(cs := OUTSIDE)
    else StepPath(m, buf, p, relaxed)
  }

  /** State 26, and state 33 but for a slash. */
  function StepPath(m: Parser, buf: string, p: nat, relaxed: bool): Parser
    requires p < |buf|
  {
    var c := buf[p];
    if c == ' ' then OnPath(m, buf, p).(cs := 4)
    else if c == '#' then OnPath(m, buf, p).(cs := 20)
    else if c == '?' then OnPath(m, buf, p).(cs := 29)
    else if c == '%' then m.(cs := 27)
    else if UriChar(c, relaxed) then m.(cs := 26) else m.(cs := 0)
  }

  /** States 29 and 30: the query. */
  function StepQuery(m: Parser, buf: string, p: nat, relaxed: bool): Parser
    requires p < |buf|
  {
    var c := buf[p];
    var k := if m.cs == 29 then m.(queryStart := p) else m;
    if c == ' ' then OnQuery(k, buf, p).(cs := 4)
    else if c == '#' then OnQuery(k, buf, p).(cs := 20)
    else if c == '%' then k.(cs := 31)
    else if QueryChar(c, relaxed) then k.(cs := 30) else m.(cs := 0)
  }

  /** States 20 and 21: the fragment. */
  function StepFragment(m: Parser, buf: string, p: nat, relaxed: bool): Parser
    requires p < |buf|
  {
    var c := buf[p];
    var k := if m.cs == 20 then m.(mark := p) else m;
    if c == ' ' then OnFragment(k, buf, p).(cs := 4)
    else if c == '%' then k.(cs := 22)
    else if QueryChar(c, relaxed) then k.(cs := 21) else m.(cs := 0)
  }

  /** States 22, 23, 27, 28, 31, 32: the two digits of an escape. */
  function StepHex(m: Parser, buf: string, p: nat): Parser
    requires p < |buf|
  {
    if !Hex(buf[p]) then m.(cs := 0)
    else
      match m.cs
      case 22 => m.(cs := 23) case 23 => m.(cs := 21)
      case 27 => m.(cs := 28) case 28 => m.(cs := 26)
      case 31 => m.(cs := 32) case _ => m.(cs := 30)
  }

  /** States 4 to 12: the version. */
  function StepVersion(m: Parser, buf: string, p: nat): Parser
    requires p < |buf|
  {
    var c := buf[p];
    match m.cs
    case 4 => if c == 'H' then m.(mark := p, cs := 5) else m.(cs := 0)
    case 5 => m.(cs := if c == 'T' then 6 else 0)
    case 6 => m.(cs := if c == 'T' then 7 else 0)
    case 7 => m.(cs := if c == 'P' then 8 else 0)
    case 8 => m.(cs := if c == '/' then 9 else 0)
    case 9 => m.(cs := if c == '1' then 10 else 0)
    case 10 => m.(cs := if c == '.' then 11 else 0)
    case 11 => m.(cs := if c == '0' || c == '1' then 12 else 0)
    case _ =>
      if c == '\n' then OnVersion(m, buf, p).(cs := 13)
      else if c == '\r' then OnVersion(m, buf, p).(cs := 17) else m.(cs := 0)
  }

  /** States 13 to 18 and 348: the header lines and the end of the head. */
  function StepHeader(m: Parser, buf: string, p: nat): Parser
    requires p < |buf|
  {
    var c := buf[p];
    match m.cs
    case 13 =>
      if c == '\n' then m.(fieldStart := p, cs := FINAL)
      else if c == '\r' then m.(fieldStart := p, cs := 18)
      else if NameStart(c) then m.(fieldStart := p, cs := 14) else m.(cs := 0)
    case 15 =>
      if c == '\0' || c as int == 127 then m.(cs := 0)
      else if c == ' ' || c == '\t' then m.(mark := p)
      else if c == '\n' then OnField(m.(mark := p), buf, p).(cs := 13)
      else if c == '\r' then OnField(m.(mark := p), buf, p).(cs := 17)
      else m.(mark := p, cs := 16)
    case 16 =>
      if c == '\n' then OnField(m, buf, p).(cs := 13)
      else if c == '\r' then OnField(m, buf, p).(cs := 17)
      else if ValueChar(c) then m else m.(cs := 0)
    case 17 => m.(cs := if c == '\n' then 13 else 0)
    case _ =>
      if m.cs == 18 && c == '\n' then m.(cs := FINAL)
      else if c == ':' then m.(fieldLen := if m.fieldStart <= p then p - m.fieldStart else 0, cs := 15)
      else if NameChar(c) then m.(cs := 14) else m.(cs := 0)
  }

  function Step(m: Parser, buf: string, p: nat, relaxed: bool): Parser
    requires p < |buf|
  {
    if m.cs in {1, 2} || 175 <= m.cs <= 193 then StepMethod(m, buf, p)
    else if m.cs in {3, 33} then StepTarget(m, buf, p, relaxed)
    else if m.cs == 26 then StepPath(m, buf, p, relaxed)
    else if m.cs in {29, 30} then StepQuery(m, buf, p, relaxed)
    else if m.cs in {20, 21} then StepFragment(m, buf, p, relaxed)
    else if m.cs in {22, 23, 27, 28, 31, 32} then StepHex(m, buf, p)
    else if 4 <= m.cs <= 12 then StepVersion(m, buf, p)
    else if 13 <= m.cs <= 18 || m.cs == FINAL then StepHeader(m, buf, p)
    else if m.cs == 0 then m
    else m.(cs := OUTSIDE)
  }

  /** The machine stops in the error state, without consuming, and behind the end of the head. */
  function Run(m: Parser, buf: string, p: nat, relaxed: bool): (r: (Parser, nat))
    requires p <= |buf|
    ensures p <= r.1 <= |buf|
    decreases |buf| - p
  {
    if p == |buf| then (m, p)
    else
      var n := Step(m, buf, p, relaxed);
      if n.cs == 0 || n.cs == OUTSIDE then (n, p)
      else if n.cs == FINAL then (n, p + 1)
      else Run(n, buf, p + 1, relaxed)
  }

  /** `http_parser_execute` as the loop it is. The marks are reset on every call. */
  method Execute(m: Parser, buf: string, relaxed: bool) returns (r: Parser, nparse: nat)
    ensures buf == "" ==> r == m && nparse == 0
    ensures buf != "" ==> (r, nparse) == Run(m.(mark := 0, fieldStart := 0, fieldLen := 0), buf, 0, relaxed)
    ensures nparse <= |buf|
  {
    hide Step;
    if |buf| == 0 {
      return m, 0;
    }
    r := m.(mark := 0, fieldStart := 0, fieldLen := 0);
    ghost var first := r;
    nparse := 0;
    while nparse < |buf|
      invariant 0 <= nparse <= |buf|
      invariant Run(first, buf, 0, relaxed) == Run(r, buf, nparse, relaxed)
    {
      r := Step(r, buf, nparse, relaxed);
      if r.cs == 0 || r.cs == OUTSIDE {
        return;
      }
      nparse := nparse + 1;
      if r.cs == FINAL {
        return;
      }
    }
  }
}
