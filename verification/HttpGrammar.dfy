/**
 * The characters of a request head as RFC 3986 (section 3.3) and RFC 7230 (section 3.2) list them, and the few
 * more that the parser takes. Nothing here is taken from the parser.
 */
module HttpGrammar {
  import opened Options

  predicate Letter(c: char) { 'A' <= c <= 'Z' || 'a' <= c <= 'z' }

  predicate Numeral(c: char) { '0' <= c <= '9' }

  predicate HexDigit(c: char) { Numeral(c) || 'A' <= c <= 'F' || 'a' <= c <= 'f' }

  /** Bytes above 127, as in UTF-8. */
  predicate HighByte(c: char) { c as int >= 128 }

  /** Control characters but for NUL, TAB and DEL. */
  predicate Control(c: char) { 1 <= c as int < 32 && c != '\t' }

  predicate Unreserved(c: char) { Letter(c) || Numeral(c) || c in {'-', '.', '_', '~'} }

  predicate SubDelim(c: char) { c in {'!', '$', '&', '\'', '(', ')', '*', '+', ',', ';', '='} }

  /** A character of a path, and of a query or fragment where `?` is one too. */
  predicate TargetChar(c: char) { Unreserved(c) || SubDelim(c) || c in {':', '@', '/'} || HighByte(c) }

  predicate TokenChar(c: char) {
    Letter(c) || Numeral(c) || c in {'!', '#', '$', '%', '&', '\'', '*', '+', '-', '.', '^', '_', '`', '|', '~'}
  }

  /** A character of a header name: of a token, or a control character. */
  predicate FieldNameChar(c: char) { TokenChar(c) || Control(c) }

  predicate LineEnd(c: char) { c == '\r' || c == '\n' }

  predicate Blank(c: char) { c == ' ' || c == '\t' }

  predicate Visible(c: char) { '!' <= c <= '~' }

  /** A character of a header value. */
  predicate FieldValueChar(c: char) {
    Visible(c) || Blank(c) || HighByte(c) || (Control(c) && !LineEnd(c))
  }

  /** What the relaxed parser takes in a target as well. */
  predicate LooseChar(c: char) { c in {'^', '{', '}'} }

  /** A character of a path, or of a query or fragment. */
  predicate PlainChar(c: char, query: bool, loose: bool) {
    TargetChar(c) || (query && c == '?') || (loose && LooseChar(c))
  }

  /** Allowed characters and `%` escapes. */
  predicate TargetText(s: string, query: bool, loose: bool) {
    s == "" ||
    (if s[0] == '%' then |s| >= 3 && HexDigit(s[1]) && HexDigit(s[2]) && TargetText(s[3..], query, loose)
     else PlainChar(s[0], query, loose) && TargetText(s[1..], query, loose))
  }

  lemma {:induction false} TextLoosened(s: string, query: bool, loose: bool)
    requires TargetText(s, query, false)
    ensures TargetText(s, query, loose)
  {
    if s != "" { TextLoosened(if s[0] == '%' then s[3..] else s[1..], query, loose); }
  }

  /** An absolute path that does not start with two slashes. */
  predicate OriginForm(path: string, loose: bool) {
    path != "" && path[0] == '/' && (|path| > 1 ==> path[1] != '/') && TargetText(path[1..], false, loose)
  }

  predicate FieldName(s: string) {
    s != "" && !LineEnd(s[0]) && forall i :: 0 <= i < |s| ==> FieldNameChar(s[i])
  }

  /** A value starts with no blank; these would be skipped. */
  predicate FieldValue(s: string) {
    (forall i :: 0 <= i < |s| ==> FieldValueChar(s[i])) && (s != "" ==> !Blank(s[0]))
  }

  // ---- Whole heads -----------------------------------------------------------------------------------

  predicate IsEnd(e: string) { e == "\n" || e == "\r\n" }

  /** A header line in its parts. */
  datatype LineText = LineText(name: string, blanks: string, value: string, end: string)

  /** A request head in its parts. */
  datatype HeadText = HeadText(
    verb: string, path: string, query: Option<string>, fragment: Option<string>, minor: char, end: string,
    lines: seq<LineText>, last: string)

  /** Names run over line ends too, but a line that starts with a line end is the last. */
  predicate ProperName(s: string) {
    && s != "" && (forall i :: 0 <= i < |s| ==> FieldNameChar(s[i]))
    && s[0] != '\n' && !(|s| > 1 && s[0] == '\r' && s[1] == '\n')
  }

  predicate ProperLine(l: LineText) {
    ProperName(l.name) && (forall i :: 0 <= i < |l.blanks| ==> Blank(l.blanks[i])) && FieldValue(l.value) && IsEnd(l.end)
  }

  predicate ProperVerb(s: string) {
    1 <= |s| <= 20 && forall i :: 0 <= i < |s| ==> 'A' <= s[i] <= 'Z' || Numeral(s[i])
  }

  /** Everything but the header lines. */
  predicate ProperTarget(h: HeadText, loose: bool) {
    && (h.path == "" || OriginForm(h.path, loose))
    && (h.query.Some? ==> TargetText(h.query.value, true, loose))
    && (h.fragment.Some? ==> TargetText(h.fragment.value, true, loose))
  }

  predicate ProperHead(h: HeadText, loose: bool) {
    && ProperVerb(h.verb) && ProperTarget(h, loose) && h.minor in {'0', '1'} && IsEnd(h.end)
    && (forall i :: 0 <= i < |h.lines| ==> ProperLine(h.lines[i])) && IsEnd(h.last)
  }

  function QueryPart(q: Option<string>): string { match q case None => "" case Some(s) => "?" + s }

  function FragmentPart(f: Option<string>): string { match f case None => "" case Some(s) => "#" + s }

  function LineOf(l: LineText): string { l.name + ":" + (l.blanks + (l.value + l.end)) }

  function LinesOf(ls: seq<LineText>): string { if ls == [] then "" else LineOf(ls[0]) + LinesOf(ls[1..]) }

  function TargetOf(h: HeadText): string { h.path + (QueryPart(h.query) + (FragmentPart(h.fragment) + " ")) }

  function VersionOf(h: HeadText): string { "HTTP/" + (['1', '.', h.minor] + h.end) }

  /** The head as it stands in the text. */
  function TextOf(h: HeadText): string {
    (h.verb + " ") + (TargetOf(h) + (VersionOf(h) + (LinesOf(h.lines) + h.last)))
  }
}
