/** `HttpRequest` of `dwframe/http/http.cc`: methods, the case-insensitive header map and `dump`. */
module HttpMessage {

  /** `HTTP_METHOD_MAP`. */
  function MethodName(m: nat): string {
    match m
    case 0 => "DELETE" case 1 => "GET" case 2 => "HEAD" case 3 => "POST" case 4 => "PUT"
    case 5 => "CONNECT" case 6 => "OPTIONS" case 7 => "TRACE" case 8 => "COPY" case 9 => "LOCK"
    case 10 => "MKCOL" case 11 => "MOVE" case 12 => "PROPFIND" case 13 => "PROPPATCH" case 14 => "SEARCH"
    case 15 => "UNLOCK" case 16 => "BIND" case 17 => "REBIND" case 18 => "UNBIND" case 19 => "ACL"
    case 20 => "REPORT" case 21 => "MKACTIVITY" case 22 => "CHECKOUT" case 23 => "MERGE" case 24 => "M-SEARCH"
    case 25 => "NOTIFY" case 26 => "SUBSCRIBE" case 27 => "UNSUBSCRIBE" case 28 => "PATCH" case 29 => "PURGE"
    case 30 => "MKCALENDAR" case 31 => "LINK" case 32 => "UNLINK" case 33 => "SOURCE"
    case _ => "<unknown>"
  }

  const INVALID_METHOD: nat := 34

  /** `CharsToHttpMethod`: the first method of the table that the text starts with. */
  function FindMethod(text: string, from: nat): (m: nat)
    requires from <= INVALID_METHOD
    ensures from <= m <= INVALID_METHOD
    ensures m < INVALID_METHOD ==> MethodName(m) <= text
    ensures forall i :: from <= i < m ==> !(MethodName(i) <= text)
    decreases INVALID_METHOD - from
  {
    if from == INVALID_METHOD then INVALID_METHOD
    else if MethodName(from) <= text then from
    else FindMethod(text, from + 1)
  }

  /** The character of a text, or a blank behind its end. */
  function At(t: string, i: nat): char {
    if i < |t| then t[i] else ' '
  }

  /** Up to four characters tell the methods apart. */
  function Decide(t: string): nat {
    var a, b, c, d := At(t, 0), At(t, 1), At(t, 2), At(t, 3);
    if a == 'D' then 0 else if a == 'G' then 1 else if a == 'H' then 2
    else if a == 'P' then
      (if b == 'O' then 3 else if b == 'A' then 28 else if b == 'U' then (if c == 'T' then 4 else 29)
       else if At(t, 4) == 'F' then 12 else 13)
    else if a == 'C' then (if b == 'H' then 22 else if c == 'N' then 5 else 8)
    else if a == 'O' then 6 else if a == 'T' then 7
    else if a == 'L' then (if b == 'O' then 9 else 31)
    else if a == 'M' then
      (if b == 'O' then 11 else if b == 'E' then 23 else if b == '-' then 24
       else if c == 'A' then 21 else if d == 'O' then 10 else 30)
    else if a == 'S' then (if b == 'E' then 14 else if b == 'U' then 26 else 33)
    else if a == 'U' then (if c == 'B' then 18 else if c == 'S' then 27 else if d == 'O' then 15 else 32)
    else if a == 'B' then 16
    else if a == 'R' then (if c == 'B' then 17 else 20)
    else if a == 'A' then 19 else 25
  }

  lemma DecideRight(m: nat, t: string)
    requires m < INVALID_METHOD && MethodName(m) <= t
    ensures Decide(t) == m
  {
    var n := MethodName(m);
    assert forall i :: 0 <= i < |n| ==> At(t, i) == n[i];
    assert |n| >= 3 && At(t, 0) == n[0] && At(t, 1) == n[1] && At(t, 2) == n[2];
    if |n| > 3 { assert At(t, 3) == n[3]; }
    if |n| > 4 { assert At(t, 4) == n[4]; }
  }

  /** No text starts with two methods of the table, so the order of the table does not matter. */
  lemma MethodFound(m: nat, t: string)
    requires m < INVALID_METHOD && MethodName(m) <= t
    ensures FindMethod(t, 0) == m
  {
    DecideRight(m, t);
    var f := FindMethod(t, 0);
    if f < INVALID_METHOD { DecideRight(f, t); }
  }

  /** The methods by their texts, whatever follows. */
  ghost predicate IsMethod(name: string, m: nat) {
    forall t: string :: FindMethod(name + t, 0) == m
  }

  lemma Named(m: nat, name: string)
    requires m < INVALID_METHOD && MethodName(m) == name
    ensures IsMethod(name, m)
  {
    hide MethodName;
    forall t: string ensures FindMethod(name + t, 0) == m {
      assert name <= name + t;
      MethodFound(m, name + t);
    }
  }

  lemma MethodTexts()
    ensures IsMethod("DELETE", 0) && IsMethod("GET", 1) && IsMethod("HEAD", 2)
    ensures IsMethod("POST", 3) && IsMethod("PUT", 4) && IsMethod("CONNECT", 5)
    ensures IsMethod("OPTIONS", 6) && IsMethod("TRACE", 7) && IsMethod("COPY", 8)
    ensures IsMethod("LOCK", 9) && IsMethod("MKCOL", 10) && IsMethod("MOVE", 11)
  {
    hide IsMethod;
    Named(0, "DELETE"); Named(1, "GET"); Named(2, "HEAD");
    Named(3, "POST"); Named(4, "PUT"); Named(5, "CONNECT");
    Named(6, "OPTIONS"); Named(7, "TRACE"); Named(8, "COPY");
    Named(9, "LOCK"); Named(10, "MKCOL"); Named(11, "MOVE");
  }

  lemma MoreMethodTexts()
    ensures IsMethod("PROPFIND", 12) && IsMethod("PROPPATCH", 13) && IsMethod("SEARCH", 14)
    ensures IsMethod("UNLOCK", 15) && IsMethod("BIND", 16) && IsMethod("REBIND", 17)
    ensures IsMethod("UNBIND", 18) && IsMethod("ACL", 19) && IsMethod("REPORT", 20)
    ensures IsMethod("MKACTIVITY", 21) && IsMethod("CHECKOUT", 22) && IsMethod("MERGE", 23)
  {
    hide IsMethod;
    Named(12, "PROPFIND"); Named(13, "PROPPATCH"); Named(14, "SEARCH");
    Named(15, "UNLOCK"); Named(16, "BIND"); Named(17, "REBIND");
    Named(18, "UNBIND"); Named(19, "ACL"); Named(20, "REPORT");
    Named(21, "MKACTIVITY"); Named(22, "CHECKOUT"); Named(23, "MERGE");
  }

  lemma LastMethodTexts()
    ensures IsMethod("M-SEARCH", 24) && IsMethod("NOTIFY", 25) && IsMethod("SUBSCRIBE", 26)
    ensures IsMethod("UNSUBSCRIBE", 27) && IsMethod("PATCH", 28) && IsMethod("PURGE", 29)
    ensures IsMethod("MKCALENDAR", 30) && IsMethod("LINK", 31) && IsMethod("UNLINK", 32)
    ensures IsMethod("SOURCE", 33)
  {
    hide IsMethod;
    Named(24, "M-SEARCH"); Named(25, "NOTIFY"); Named(26, "SUBSCRIBE");
    Named(27, "UNSUBSCRIBE"); Named(28, "PATCH"); Named(29, "PURGE");
    Named(30, "MKCALENDAR"); Named(31, "LINK"); Named(32, "UNLINK");
    Named(33, "SOURCE");
  }

  // ---- Headers -------------------------------------------------------------------------------------

  function Lower(c: char): char {
    if 'A' <= c <= 'Z' then ((c as int) + 32) as char else c
  }

  /** What `strcasecmp` compares. */
  function Fold(s: string): (r: string)
    ensures |r| == |s| && forall i :: 0 <= i < |s| ==> r[i] == Lower(s[i])
  {
    if s == [] then [] else [Lower(s[0])] + Fold(s[1..])
  }

  /** The same letter in either case, or the same character. */
  predicate SameLetter(c: char, d: char) {
    c == d || ('a' <= c <= 'z' && c as int == d as int + 32) || ('a' <= d <= 'z' && d as int == c as int + 32)
  }

  /** Names are one exactly if they differ in case at most. */
  lemma FoldIgnoresCase(a: string, b: string)
    ensures Fold(a) == Fold(b) <==> |a| == |b| && forall i :: 0 <= i < |a| ==> SameLetter(a[i], b[i])
  {
    hide Fold, Lower, SameLetter;
    var x, y := Fold(a), Fold(b);
    if |a| == |b| {
      forall i | 0 <= i < |a| ensures x[i] == y[i] <==> SameLetter(a[i], b[i]) { LowerIgnoresCase(a[i], b[i]); }
    }
  }

  lemma LowerIgnoresCase(c: char, d: char)
    ensures Lower(c) == Lower(d) <==> SameLetter(c, d)
  {
  }

  datatype Field = Field(name: string, value: string)

  /** `std::map` with `CaseInsensitiveLess`, keyed by folded names. */
  type Headers = map<string, Field>

  /** `m_headers[key] = val`: an equal key keeps its spelling. */
  function SetHeader(h: Headers, name: string, value: string): (r: Headers)
    ensures r.Keys == h.Keys + {Fold(name)}
    ensures r[Fold(name)].value == value
    ensures forall k :: k in h && k != Fold(name) ==> r[k] == h[k]
  {
    var k := Fold(name);
    h[k := Field(if k in h then h[k].name else name, value)]
  }

  /** The spelling of a name is that of its first use. */
  lemma FirstSpelling(h: Headers, name: string, value: string, again: string, other: string)
    requires Fold(again) == Fold(name)
    ensures SetHeader(h, name, value)[Fold(name)].name == if Fold(name) in h then h[Fold(name)].name else name
    ensures SetHeader(SetHeader(h, name, value), again, other)[Fold(name)] == SetHeader(h, name, other)[Fold(name)]
  {
    hide Fold;
  }

  function GetHeader(h: Headers, key: string): string {
    if Fold(key) in h then h[Fold(key)].value else ""
  }

  datatype Request = Request(
    verb: nat, version: nat, close: bool, websocket: bool,
    path: string, query: string, fragment: string, headers: Headers, body: string)

  /** `HttpRequest()`. */
  const NEW_REQUEST := Request(1, 0x11, true, false, "/", "", "", map[], "")

  const KEEP := "keep-alive"

  /** `init`: the close flag from the connection header. */
  function Init(r: Request): Request {
    var conn := GetHeader(r.headers, "connection");
    if conn == "" then r else r.(close := Fold(conn) != KEEP)
  }

  // ---- Printing ------------------------------------------------------------------------------------

  function Digit(n: nat): char
    requires n < 10
  {
    (n + 48) as char
  }

  /** Decimal digits of a number. */
  function Decimal(n: nat): (s: string)
    ensures |s| >= 1
    ensures forall i :: 0 <= i < |s| ==> '0' <= s[i] <= '9'
  {
    if n < 10 then [Digit(n)] else Decimal(n / 10) + [Digit(n % 10)]
  }

  const CRLF := "\r\n"

  function Line(name: string, value: string): string {
    name + ": " + value + CRLF
  }

  /** The header lines in the order of `keys`; the connection header is printed apart. */
  function Lines(r: Request, keys: seq<string>): string
    requires forall k <- keys :: k in r.headers
  {
    if keys == [] then ""
    else if !r.websocket && keys[0] == "connection" then Lines(r, keys[1..])
    else Line(r.headers[keys[0]].name, r.headers[keys[0]].value) + Lines(r, keys[1..])
  }

  function Target(r: Request): string {
    r.path + (if r.query == "" then "" else "?" + r.query) + (if r.fragment == "" then "" else "#" + r.fragment)
  }

  function Connection(r: Request): string {
    if r.close then "close" else KEEP
  }

  /** `dump` up to the end of the head. */
  function Head(r: Request, keys: seq<string>): string
    requires forall k <- keys :: k in r.headers
  {
    MethodName(r.verb) + " " + Target(r) + " HTTP/" + Decimal(r.version / 16) + "." + Decimal(r.version % 16) + CRLF
    + (if r.websocket then "" else Line("connection", Connection(r)))
    + Lines(r, keys)
    + (if r.body == "" then "" else Line("content-length", Decimal(|r.body|)))
    + CRLF
  }

  function Dump(r: Request, keys: seq<string>): string
    requires forall k <- keys :: k in r.headers
  {
    Head(r, keys) + r.body
  }

  /** A request in print. */
  lemma PrintedText(r: Request)
    requires r == NEW_REQUEST.(verb := 3, version := 0x10, path := "/a", query := "b", fragment := "c", close := false,
                               headers := map["host" := Field("Host", "x")], body := "hi")
    ensures Dump(r, ["host"]) == "POST /a?b#c HTTP/1.0\r\n" + "connection: keep-alive\r\n" + "Host: x\r\n"
                                 + "content-length: 2\r\n" + "\r\n" + "hi"
  {
    RequestLineText();
    LineTexts();
    DigitTexts();
    TargetPrinted(r);
    LinesText(r);
    assert MethodName(r.verb) == "POST" && r.version / 16 == 1 && r.version % 16 == 0 && |r.body| == 2;
    assert Connection(r) == KEEP;
    hide MethodName, Target, Decimal, Line, Lines, Connection;
  }

  lemma TargetPrinted(r: Request)
    requires r.path == "/a" && r.query == "b" && r.fragment == "c"
    ensures Target(r) == "/a?b#c"
  {
  }

  lemma LinesText(r: Request)
    requires r.headers == map["host" := Field("Host", "x")]
    ensures Lines(r, ["host"]) == Line("Host", "x")
  {
    hide Line;
    assert ["host"][1..] == [] && "host" != "connection";
    assert Line("Host", "x") + "" == Line("Host", "x");
  }

  lemma DigitTexts()
    ensures Decimal(1) == "1" && Decimal(0) == "0" && Decimal(2) == "2"
  {
  }

  lemma RequestLineText()
    ensures "POST" + " " + "/a?b#c" + " HTTP/" + "1" + "." + "0" + CRLF == "POST /a?b#c HTTP/1.0\r\n"
  {
  }

  lemma LineTexts()
    ensures Line("connection", KEEP) == "connection: keep-alive\r\n" && Line("connection", "close") == "connection: close\r\n"
    ensures Line("content-length", "2") == "content-length: 2\r\n" && Line("Host", "x") == "Host: x\r\n" && CRLF == "\r\n"
  {
  }

  /** `dump` as it appends to the stream, the header lines in a loop. */
  method Print(r: Request, keys: seq<string>) returns (os: string)
    requires forall k <- keys :: k in r.headers
    ensures os == Dump(r, keys)
  {
    hide Lines, MethodName, Decimal, Line;
    os := MethodName(r.verb) + " " + Target(r) + " HTTP/" + Decimal(r.version / 16) + "." + Decimal(r.version % 16) + CRLF;
    if !r.websocket {
      os := os + Line("connection", Connection(r));
    }
    os := PrintLines(r, keys, os);
    if r.body != "" {
      os := os + Line("content-length", Decimal(|r.body|)) + CRLF + r.body;
    } else {
      os := os + CRLF;
    }
  }

  method PrintLines(r: Request, keys: seq<string>, start: string) returns (os: string)
    requires forall k <- keys :: k in r.headers
    ensures os == start + Lines(r, keys)
  {
    os := start;
    var i := 0;
    while i < |keys|
      invariant 0 <= i <= |keys| && start + Lines(r, keys) == os + Lines(r, keys[i..])
    {
      assert keys[i..][1..] == keys[i + 1..];
      if r.websocket || keys[i] != "connection" {
        os := os + Line(r.headers[keys[i]].name, r.headers[keys[i]].value);
      }
      i := i + 1;
    }
  }

  // ---- Numbers -------------------------------------------------------------------------------------

  predicate AllDigits(s: string) {
    forall i :: 0 <= i < |s| ==> '0' <= s[i] <= '9'
  }

  function DigitsValue(s: string): nat
    requires AllDigits(s)
  {
    if s == "" then 0 else 10 * DigitsValue(s[..|s| - 1]) + (s[|s| - 1] as int - 48)
  }

  const UINT64: nat := 0x1_0000_0000_0000_0000

  /** `getHeaderAs<uint64_t>` with default 0, for texts without a sign: anything but a number in range is 0. */
  function CastUint64(s: string): (n: nat)
    ensures n < UINT64
  {
    if s != "" && AllDigits(s) && DigitsValue(s) < UINT64 then DigitsValue(s) else 0
  }

  lemma {:induction false} DigitsRoundTrip(n: nat)
    ensures DigitsValue(Decimal(n)) == n
  {
    if n >= 10 {
      DigitsRoundTrip(n / 10);
      assert Decimal(n)[..|Decimal(n)| - 1] == Decimal(n / 10);
    }
  }

  lemma DecimalRoundTrip(n: nat)
    requires n < 0x1_0000_0000_0000_0000
    ensures CastUint64(Decimal(n)) == n
  {
    DigitsRoundTrip(n);
  }
}
