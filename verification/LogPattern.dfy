/** The pattern parser of `LogFormatter::init` (`dwframe/log.cc`). */
module LogPattern {

  /** What a part of a pattern stands for. `braced` tells `%d{}` from `%d`; `Broken` is an unclosed brace. */
  datatype Item = Text(text: string) | Spec(name: string, fmt: string, braced: bool) | Broken

  predicate Alpha(c: char) { 'a' <= c <= 'z' || 'A' <= c <= 'Z' }

  /** Characters that a name runs over. */
  predicate InName(c: char) { Alpha(c) || c == '}' }

  /** The length of the name at the front. */
  function NameLength(s: string): (n: nat)
    ensures n <= |s| && forall i :: 0 <= i < n ==> InName(s[i])
    ensures n < |s| ==> !InName(s[n])
  {
    if s == "" || !InName(s[0]) then 0 else 1 + NameLength(s[1..])
  }

  /** The length of the text before the first closing brace. */
  function CloseAt(s: string): (n: nat)
    ensures n <= |s| && forall i :: 0 <= i < n ==> s[i] != '}'
    ensures n < |s| ==> s[n] == '}'
  {
    if s == "" || s[0] == '}' then 0 else 1 + CloseAt(s[1..])
  }

  function Flush(pending: string): seq<Item> {
    if pending == "" then [] else [Text(pending)]
  }

  /** The specification at a percent sign and the number of characters it takes; none if a brace stays open. */
  function SpecAt(p: string): (r: (Item, nat))
    requires p != "" && p[0] == '%'
    ensures 1 <= r.1 <= |p|
    ensures !r.0.Text?
  {
    var k := 1 + NameLength(p[1..]);
    if k < |p| && p[k] == '{' then
      var c := k + 1 + CloseAt(p[k + 1..]);
      if c < |p| then (Spec(p[1..k], p[k + 1..c], true), c + 1) else (Broken, 1)
    else (Spec(p[1..k], "", false), k)
  }

  /**
   * The items of a pattern, behind `pending` text. An unclosed brace gives a broken item and the scan goes
   * on behind the percent sign, without the pending text being flushed.
   */
  function Parse(p: string, pending: string): seq<Item>
    decreases |p|
  {
    if p == "" then Flush(pending)
    else if p[0] != '%' then Parse(p[1..], pending + [p[0]])
    else if |p| > 1 && p[1] == '%' then Parse(p[2..], pending + "%")
    else
      var (item, n) := SpecAt(p);
      if item == Broken then [Broken] + Parse(p[n..], pending)
      else Flush(pending) + [item] + Parse(p[n..], "")
  }

  // ---- Printing ------------------------------------------------------------------------------------

  function Escape(s: string): string {
    if s == "" then "" else (if s[0] == '%' then "%%" else [s[0]]) + Escape(s[1..])
  }

  function Show(item: Item): string {
    match item
    case Text(s) => Escape(s)
    case Spec(name, fmt, braced) => "%" + name + (if braced then "{" + fmt + "}" else "")
    case Broken => ""
  }

  function Print(items: seq<Item>): string {
    if items == [] then "" else Show(items[0]) + Print(items[1..])
  }

  predicate Whole(items: seq<Item>) { Broken !in items }

  lemma {:induction false} PrintAppend(a: seq<Item>, b: seq<Item>)
    ensures Print(a + b) == Print(a) + Print(b)
    decreases |a|
  {
    if a == [] {
      assert a + b == b;
    } else {
      assert (a + b)[1..] == a[1..] + b;
      PrintAppend(a[1..], b);
    }
  }

  lemma {:induction false} EscapeAppend(a: string, b: string)
    ensures Escape(a + b) == Escape(a) + Escape(b)
    decreases |a|
  {
    if a == "" {
      assert a + b == b;
    } else {
      assert (a + b)[1..] == a[1..] + b;
      EscapeAppend(a[1..], b);
    }
  }

  lemma ShowSpec(p: string)
    requires p != "" && p[0] == '%' && SpecAt(p).0 != Broken
    ensures Show(SpecAt(p).0) == p[..SpecAt(p).1]
  {
    hide SpecAt, NameLength, CloseAt, Show;
    var k := 1 + NameLength(p[1..]);
    if k < |p| && p[k] == '{' {
      var c := k + 1 + CloseAt(p[k + 1..]);
      if c < |p| {
        SpecAtBraced(p, k, c);
        ShowBraced(SpecAt(p).0);
        assert p[..c + 1] == "%" + p[1..k] + "{" + p[k + 1..c] + "}";
      } else {
        SpecAtOpen(p, k);
      }
    } else {
      SpecAtPlain(p, k);
      ShowPlain(p[1..k]);
      assert p[..k] == "%" + p[1..k];
    }
  }

  lemma ShowPlain(name: string)
    ensures Show(Spec(name, "", false)) == "%" + name
  {
  }

  lemma FlushPrinted(pending: string)
    ensures Print(Flush(pending)) == Escape(pending)
  {
  }

  /** Without an unclosed brace the items tile the pattern: printed one after the other they give it back. */
  lemma {:induction false} ParsePrints(p: string, pending: string)
    requires Whole(Parse(p, pending))
    ensures Print(Parse(p, pending)) == Escape(pending) + p
    decreases |p|
  {
    hide Show, Print, Escape, SpecAt;
    if p == "" {
      FlushPrinted(pending);
    } else if p[0] != '%' {
      ParsePrints(p[1..], pending + [p[0]]);
      EscapeAppend(pending, [p[0]]);
      EscapeOne(p[0]);
      assert p == [p[0]] + p[1..];
    } else if |p| > 1 && p[1] == '%' {
      ParsePrints(p[2..], pending + "%");
      EscapeAppend(pending, "%");
      EscapeOne('%');
      assert p == "%%" + p[2..];
    } else {
      var n := SpecAt(p).1;
      Unbroken(p, pending);
      ParsePrints(p[n..], "");
      EscapeEmpty();
      PrintStep(p, pending, Parse(p[n..], ""));
    }
  }

  lemma PrintStep(p: string, pending: string, rest: seq<Item>)
    requires p != "" && p[0] == '%' && SpecAt(p).0 != Broken && Print(rest) == p[SpecAt(p).1..]
    ensures Print(Flush(pending) + [SpecAt(p).0] + rest) == Escape(pending) + p
  {
    hide Show, Print, Escape, SpecAt, Flush;
    var (item, n) := SpecAt(p);
    PrintAppend(Flush(pending) + [item], rest);
    PrintAppend(Flush(pending), [item]);
    FlushPrinted(pending);
    PrintOne(item);
    ShowSpec(p);
    assert p == p[..n] + p[n..];
  }

  /** The first step of a parse without an unclosed brace, at a specification. */
  lemma Unbroken(p: string, pending: string)
    requires Whole(Parse(p, pending)) && p != "" && p[0] == '%' && (|p| > 1 ==> p[1] != '%')
    ensures var (item, n) := SpecAt(p);
            item != Broken && Whole(Parse(p[n..], "")) && Parse(p, pending) == Flush(pending) + [item] + Parse(p[n..], "")
  {
    var (item, n) := SpecAt(p);
    assert forall x <- Parse(p[n..], "") :: item != Broken ==> x in Parse(p, pending);
  }

  lemma EscapeOne(c: char)
    ensures Escape([c]) == if c == '%' then "%%" else [c]
  {
  }

  lemma EscapeEmpty()
    ensures Escape("") == ""
  {
  }

  lemma PrintOne(item: Item)
    ensures Print([item]) == Show(item)
  {
  }

  function Brokens(items: seq<Item>): (n: nat)
    ensures n == 0 <==> Whole(items)
  {
    if items == [] then 0 else (if items[0] == Broken then 1 else 0) + Brokens(items[1..])
  }

  lemma {:induction false} BrokensAppend(a: seq<Item>, b: seq<Item>)
    ensures Brokens(a + b) == Brokens(a) + Brokens(b)
    decreases |a|
  {
    if a == [] {
      assert a + b == b;
    } else {
      assert (a + b)[1..] == a[1..] + b;
      BrokensAppend(a[1..], b);
    }
  }

  /** Every unclosed brace loses its percent sign, and nothing else is lost. */
  lemma {:induction false} ParseLoses(p: string, pending: string)
    ensures |Print(Parse(p, pending))| + Brokens(Parse(p, pending)) == |Escape(pending)| + |p|
    decreases |p|
  {
    hide Show, Print, Escape, SpecAt, Brokens;
    if p == "" {
      FlushPrinted(pending);
      FlushUnbroken(pending);
    } else if p[0] != '%' {
      ParseLoses(p[1..], pending + [p[0]]);
      EscapeAppend(pending, [p[0]]);
      EscapeOne(p[0]);
    } else if |p| > 1 && p[1] == '%' {
      ParseLoses(p[2..], pending + "%");
      EscapeAppend(pending, "%");
      EscapeOne('%');
    } else {
      SpecLoses(p, pending);
      var (item, n) := SpecAt(p);
      ParseLoses(p[n..], if item == Broken then pending else "");
      EscapeEmpty();
    }
  }

  lemma FlushUnbroken(pending: string)
    ensures Brokens(Flush(pending)) == 0
  {
  }

  lemma OneBroken(item: Item)
    ensures Brokens([item]) == if item == Broken then 1 else 0
  {
  }

  /** One step of `ParseLoses`. */
  lemma SpecLoses(p: string, pending: string)
    requires p != "" && p[0] == '%' && (|p| > 1 ==> p[1] != '%')
    ensures var (item, n) := SpecAt(p);
            var rest := Parse(p[n..], if item == Broken then pending else "");
            |Print(Parse(p, pending))| + Brokens(Parse(p, pending))
            == (if item == Broken then 0 else |Escape(pending)|) + n + |Print(rest)| + Brokens(rest)
  {
    hide Show, Print, Escape, SpecAt, Brokens;
    var (item, n) := SpecAt(p);
    var rest := Parse(p[n..], if item == Broken then pending else "");
    PrintOne(item);
    OneBroken(item);
    if item == Broken {
      BrokenWidth(p);
      ShowBroken();
      PrintAppend([item], rest);
      BrokensAppend([item], rest);
    } else {
      ShowSpec(p);
      FlushPrinted(pending);
      FlushUnbroken(pending);
      PrintAppend(Flush(pending) + [item], rest);
      PrintAppend(Flush(pending), [item]);
      BrokensAppend(Flush(pending) + [item], rest);
      BrokensAppend(Flush(pending), [item]);
    }
  }

  lemma ShowBroken()
    ensures Show(Broken) == ""
  {
  }

  /** Where the pattern goes on: behind a character, a `%%` or a specification; past its end if a brace stays open. */
  function Beyond(p: string): (n: nat)
    requires p != ""
    ensures n >= 1
  {
    if p[0] != '%' then 1
    else if |p| > 1 && p[1] == '%' then 2
    else
      var k := 1 + NameLength(p[1..]);
      if k < |p| && p[k] == '{' then k + 2 + CloseAt(p[k + 1..]) else k
  }

  /** Every brace that opens a format is closed. */
  predicate Closed(p: string)
    decreases |p|
  {
    p == "" || (Beyond(p) <= |p| && Closed(p[Beyond(p)..]))
  }

  lemma {:induction false} ClosedIsWhole(p: string, pending: string)
    ensures Closed(p) <==> Whole(Parse(p, pending))
    decreases |p|
  {
    if p == "" {
    } else if p[0] != '%' {
      ClosedIsWhole(p[1..], pending + [p[0]]);
    } else if |p| > 1 && p[1] == '%' {
      ClosedIsWhole(p[2..], pending + "%");
    } else {
      BeyondSpec(p);
      var (item, n) := SpecAt(p);
      WholeAtSpec(p, pending);
      if item != Broken { ClosedIsWhole(p[n..], ""); }
    }
  }

  lemma BeyondSpec(p: string)
    requires p != "" && p[0] == '%' && (|p| > 1 ==> p[1] != '%')
    ensures if SpecAt(p).0 == Broken then Beyond(p) > |p| else Beyond(p) == SpecAt(p).1
  {
    hide NameLength, CloseAt;
  }

  lemma SpecAtOpen(p: string, k: nat)
    requires p != "" && p[0] == '%' && k == 1 + NameLength(p[1..]) && k < |p| && p[k] == '{'
    requires CloseAt(p[k + 1..]) == |p| - k - 1
    ensures SpecAt(p) == (Broken, 1)
  {
  }

  lemma WholeAtSpec(p: string, pending: string)
    requires p != "" && p[0] == '%' && (|p| > 1 ==> p[1] != '%')
    ensures Whole(Parse(p, pending)) <==> SpecAt(p).0 != Broken && Whole(Parse(p[SpecAt(p).1..], ""))
  {
    hide SpecAt;
    var (item, n) := SpecAt(p);
    var first := if item == Broken then [Broken] else Flush(pending) + [item];
    var rest := Parse(p[n..], if item == Broken then pending else "");
    assert Parse(p, pending) == first + rest;
    assert Broken in first <==> item == Broken;
  }

  /** The items tile the pattern, that is, printing them gives it back, if and only if no brace stays open. */
  lemma TilesExactly(p: string)
    ensures Print(Parse(p, "")) == p <==> Closed(p)
  {
    hide Parse, Print, Closed;
    ClosedIsWhole(p, "");
    EscapeEmpty();
    if Whole(Parse(p, "")) { ParsePrints(p, ""); }
    ParseLoses(p, "");
  }

  /** Pending text comes out behind at most some error items. */
  lemma {:induction false} PendingComesOut(p: string, pending: string) returns (k: nat)
    requires pending != ""
    ensures var items := Parse(p, pending);
            k < |items| && items[k].Text? && pending <= items[k].text && forall j :: 0 <= j < k ==> items[j] == Broken
    decreases |p|
  {
    hide SpecAt;
    k := 0;
    if p == "" {
    } else if p[0] != '%' {
      k := PendingComesOut(p[1..], pending + [p[0]]);
    } else if |p| > 1 && p[1] == '%' {
      k := PendingComesOut(p[2..], pending + "%");
    } else {
      var (item, n) := SpecAt(p);
      if item == Broken {
        k := PendingComesOut(p[n..], pending);
        k := k + 1;
      }
    }
  }

  /**
   * At an unclosed brace the error item is emitted first and text read before it, if there is any, behind it:
   * from whatever place `i` of the pattern, with `items` emitted and `text` pending.
   */
  lemma TextAfterError(p: string, items: seq<Item>, i: nat, text: string) returns (k: nat)
    requires Left(p, items, i, text) && i < |p| && p[i] == '%' && (i + 1 == |p| || p[i + 1] != '%')
    requires SpecAt(p[i..]).0 == Broken && text != ""
    ensures var all := Parse(p, "");
            && |items| < k < |all| && all[..|items| + 1] == items + [Broken]
            && all[k].Text? && text <= all[k].text && forall j :: |items| <= j < k ==> all[j] == Broken
  {
    hide Parse, SpecAt;
    NextSpec(p, items, i, text);
    k := PendingComesOut(p[i + 1..], text);
    k := |items| + 1 + k;
  }

  // ---- Canonical items -----------------------------------------------------------------------------

  /** What a name without braces must not be followed by. */
  predicate Continues(name: string, c: char) {
    InName(c) || c == '{' || (name == "" && c == '%')
  }

  /** Items that can be printed and read back one by one. */
  predicate Readable(item: Item) {
    match item
    case Text(s) => s != ""
    case Spec(name, fmt, braced) =>
      && (forall c <- name :: InName(c))
      && (forall c <- fmt :: c != '}') && (braced || fmt == "")
    case Broken => false
  }

  predicate Follows(a: Item, b: Item) {
    match a
    case Text(_) => !b.Text?
    case Spec(name, _, braced) => braced || (Show(b) != "" ==> !Continues(name, Show(b)[0]))
    case Broken => false
  }

  predicate Canonical(items: seq<Item>) {
    items == [] ||
    (Readable(items[0]) && (|items| > 1 ==> Follows(items[0], items[1])) && Canonical(items[1..]))
  }

  lemma ShowNonempty(item: Item)
    requires Readable(item)
    ensures Show(item) != "" && (item.Spec? ==> Show(item)[0] == '%')
  {
  }

  lemma SpecReadable(p: string)
    requires p != "" && p[0] == '%' && (|p| > 1 ==> p[1] != '%') && SpecAt(p).0 != Broken
    ensures var (item, n) := SpecAt(p);
            Readable(item) && (!item.braced && n < |p| ==> !Continues(item.name, p[n]))
  {
    var k := 1 + NameLength(p[1..]);
    assert forall i :: 1 <= i < k ==> p[i] == p[1..][i - 1];
    if k < |p| { assert p[k] == p[1..][k - 1]; }
  }

  /** The first item of a parse shows the first character. */
  lemma FirstShown(p: string)
    requires Whole(Parse(p, "")) && Parse(p, "") != [] && Readable(Parse(p, "")[0])
    ensures p != "" && Show(Parse(p, "")[0]) != "" && Show(Parse(p, "")[0])[0] == p[0]
  {
    hide Show, Escape, Parse;
    var items := Parse(p, "");
    ParsePrints(p, "");
    EscapeEmpty();
    ShowNonempty(items[0]);
    assert Show(items[0]) + Print(items[1..]) == p;
  }

  /** Whatever is parsed without an unclosed brace is canonical. */
  lemma {:induction false} ParseCanonical(p: string, pending: string)
    requires Whole(Parse(p, pending))
    ensures Canonical(Parse(p, pending))
    decreases |p|
  {
    hide Show, SpecAt, Readable, Follows;
    if p == "" {
      TextCanonical(pending, []);
    } else if p[0] != '%' {
      ParseCanonical(p[1..], pending + [p[0]]);
    } else if |p| > 1 && p[1] == '%' {
      ParseCanonical(p[2..], pending + "%");
    } else {
      var (item, n) := SpecAt(p);
      var rest := Parse(p[n..], "");
      Unbroken(p, pending);
      ParseCanonical(p[n..], "");
      SpecFollowed(p);
      assert Canonical([item] + rest) by { assert ([item] + rest)[1..] == rest; }
      TextCanonical(pending, [item] + rest);
      assert Flush(pending) + ([item] + rest) == Flush(pending) + [item] + rest;
    }
  }

  lemma SpecFollowed(p: string)
    requires p != "" && p[0] == '%' && (|p| > 1 ==> p[1] != '%') && SpecAt(p).0 != Broken
    requires var rest := Parse(p[SpecAt(p).1..], ""); Whole(rest) && Canonical(rest)
    ensures var (item, n) := SpecAt(p);
            Readable(item) && (Parse(p[n..], "") != [] ==> Follows(item, Parse(p[n..], "")[0]))
  {
    hide Show, SpecAt, Parse;
    SpecReadable(p);
    var n := SpecAt(p).1;
    if Parse(p[n..], "") != [] { FirstShown(p[n..]); }
  }

  lemma TextCanonical(pending: string, items: seq<Item>)
    requires Canonical(items) && (items != [] ==> !items[0].Text?)
    ensures Canonical(Flush(pending) + items)
  {
    if pending == "" {
      assert Flush(pending) + items == items;
    } else {
      assert (Flush(pending) + items)[1..] == items;
    }
  }

  // ---- Reading what was printed --------------------------------------------------------------------

  /** Escaped text is read as text. */
  lemma {:induction false} ParseText(s: string, q: string, pending: string)
    ensures Parse(Escape(s) + q, pending) == Parse(q, pending + s)
    decreases |s|
  {
    if s == "" {
      assert Escape(s) + q == q && pending + s == pending;
    } else {
      var e := if s[0] == '%' then "%%" else [s[0]];
      assert Escape(s) + q == e + (Escape(s[1..]) + q);
      assert (e + (Escape(s[1..]) + q))[|e|..] == Escape(s[1..]) + q;
      ParseText(s[1..], q, pending + [s[0]]);
      assert pending + [s[0]] + s[1..] == pending + s;
    }
  }

  lemma NameLengthIs(name: string, q: string)
    requires (forall c <- name :: InName(c)) && (q != "" ==> !InName(q[0]))
    ensures NameLength(name + q) == |name|
  {
    hide InName, NameLength;
    var s := name + q;
    assert forall i :: 0 <= i < |name| ==> s[i] == name[i];
    if q != "" { assert s[|name|] == q[0]; }
  }

  lemma CloseAtIs(fmt: string, q: string)
    requires forall c <- fmt :: c != '}'
    ensures CloseAt(fmt + ("}" + q)) == |fmt|
  {
    hide CloseAt;
    var s := fmt + ("}" + q);
    assert forall i :: 0 <= i < |fmt| ==> s[i] == fmt[i] && fmt[i] in fmt;
    assert s[|fmt|] == '}';
  }

  lemma SpecRead(item: Item, q: string)
    requires item.Spec? && Readable(item) && (!item.braced && q != "" ==> !Continues(item.name, q[0]))
    ensures SpecAt(Show(item) + q) == (item, |Show(item)|)
    ensures var p := Show(item) + q; p[0] == '%' && (|p| > 1 ==> p[1] != '%')
  {
    hide SpecAt;
    if item.braced { BracedRead(item, q); } else { PlainRead(item, q); }
    NotDoubled(item, q);
  }

  lemma NotDoubled(item: Item, q: string)
    requires item.Spec? && Readable(item) && (!item.braced && q != "" ==> !Continues(item.name, q[0]))
    ensures var p := Show(item) + q; p[0] == '%' && (|p| > 1 ==> p[1] != '%')
  {
    var p := Show(item) + q;
    assert Show(item)[0] == '%';
    if item.name != "" {
      assert InName(item.name[0]) && p[1] == item.name[0];
    }
  }

  lemma PlainRead(item: Item, q: string)
    requires item.Spec? && !item.braced && Readable(item) && (q != "" ==> !Continues(item.name, q[0]))
    ensures SpecAt(Show(item) + q) == (item, |Show(item)|)
  {
    hide InName, NameLength, SpecAt;
    var p, name := Show(item) + q, item.name;
    assert p == "%" + (name + q);
    assert p[1..] == name + q;
    NameLengthIs(name, q);
    assert p[1..1 + |name|] == name;
    SpecAtPlain(p, 1 + |name|);
  }

  lemma SpecAtPlain(p: string, k: nat)
    requires p != "" && p[0] == '%' && k == 1 + NameLength(p[1..]) && (k < |p| ==> p[k] != '{')
    ensures SpecAt(p) == (Spec(p[1..k], "", false), k)
  {
  }

  lemma SpecAtBraced(p: string, k: nat, c: nat)
    requires p != "" && p[0] == '%' && k == 1 + NameLength(p[1..]) && k < |p| && p[k] == '{'
    requires c == k + 1 + CloseAt(p[k + 1..]) && c < |p|
    ensures SpecAt(p) == (Spec(p[1..k], p[k + 1..c], true), c + 1)
  {
  }

  lemma BracedRead(item: Item, q: string)
    requires item.Spec? && item.braced && Readable(item)
    ensures SpecAt(Show(item) + q) == (item, |Show(item)|)
  {
    hide NameLength, SpecAt, CloseAt, Show;
    var name, fmt := item.name, item.fmt;
    ShowBraced(item);
    var p := "%" + (name + ("{" + (fmt + ("}" + q))));
    BracedParts(name, fmt, q);
    NameLengthIs(name, "{" + (fmt + ("}" + q)));
    CloseAtIs(fmt, q);
    SpecAtBraced(p, 1 + |name|, |name| + |fmt| + 2);
    BracedJoined(name, fmt, q);
  }

  lemma ShowBraced(item: Item)
    requires item.Spec? && item.braced
    ensures Show(item) == "%" + item.name + "{" + item.fmt + "}"
  {
  }

  lemma BracedJoined(name: string, fmt: string, q: string)
    ensures ("%" + name + "{" + fmt + "}") + q == "%" + (name + ("{" + (fmt + ("}" + q))))
  {
  }

  lemma BracedParts(name: string, fmt: string, q: string)
    ensures var p := "%" + (name + ("{" + (fmt + ("}" + q))));
            var k := 1 + |name|;
            && p[1..] == name + ("{" + (fmt + ("}" + q))) && p[k] == '{' && p[1..k] == name
            && p[k + 1..] == fmt + ("}" + q) && p[k + 1..k + 1 + |fmt|] == fmt
  {
  }

  lemma CanonicalWhole(items: seq<Item>)
    requires Canonical(items)
    ensures Whole(items)
  {
    if items != [] {
      CanonicalWhole(items[1..]);
      assert items == [items[0]] + items[1..];
    }
  }

  /** Canonical items are read back from their printed form. */
  lemma {:induction false} PrintParses(items: seq<Item>, pending: string)
    requires Canonical(items) && (items != [] && items[0].Text? ==> pending == "")
    ensures Parse(Print(items), pending) == Flush(pending) + items
    decreases |items|
  {
    hide SpecAt, Readable, Parse, Show;
    if items == [] {
      ParseEmpty(pending);
    } else {
      var rest := items[1..];
      assert items == [items[0]] + rest;
      ReadableKind(items[0]);
      if items[0].Text? {
        var s := items[0].text;
        ShowText(s);
        ParseText(s, Print(rest), "");
        assert "" + s == s;
        PrintParses(rest, s);
      } else {
        PrintParses(rest, "");
        ReadStep(items, pending);
      }
    }
  }

  lemma ReadStep(items: seq<Item>, pending: string)
    requires Canonical(items) && items != [] && items[0].Spec?
    requires Parse(Print(items[1..]), "") == items[1..]
    ensures Parse(Print(items), pending) == Flush(pending) + items
  {
    hide SpecAt, Readable, Parse, Show, Continues, Flush;
    var q := Print(items[1..]);
    NextCharacter(items);
    ReadableFirst(items);
    SpecRead(items[0], q);
    ParseSpec(Print(items), pending);
    assert Print(items)[|Show(items[0])|..] == q;
    assert Flush(pending) + [items[0]] + items[1..] == Flush(pending) + items;
  }

  lemma ReadableFirst(items: seq<Item>)
    requires Canonical(items) && items != []
    ensures Readable(items[0])
  {
  }

  lemma ReadableKind(item: Item)
    requires Readable(item)
    ensures item != Broken && (item.Text? ==> item.text != "")
  {
  }

  lemma ShowText(s: string)
    ensures Show(Text(s)) == Escape(s)
  {
  }

  lemma ParseEmpty(pending: string)
    ensures Parse("", pending) == Flush(pending)
  {
  }

  lemma ParseSpec(p: string, pending: string)
    requires p != "" && p[0] == '%' && (|p| > 1 ==> p[1] != '%') && SpecAt(p).0 != Broken
    ensures Parse(p, pending) == Flush(pending) + [SpecAt(p).0] + Parse(p[SpecAt(p).1..], "")
  {
  }

  lemma NextCharacter(items: seq<Item>)
    requires items != [] && Canonical(items) && items[0].Spec?
    ensures !items[0].braced && Print(items[1..]) != "" ==> !Continues(items[0].name, Print(items[1..])[0])
  {
    var rest := items[1..];
    if rest != [] { ShowNonempty(rest[0]); }
  }

  /** Exactly the canonical lists are read back from their printed form. */
  lemma RoundTrip(items: seq<Item>)
    requires Whole(items)
    ensures Parse(Print(items), "") == items <==> Canonical(items)
  {
    if Canonical(items) { PrintParses(items, ""); }
    if Parse(Print(items), "") == items { ParseCanonical(Print(items), ""); }
  }

  // ---- The parser ----------------------------------------------------------------------------------

  const KEYS := "mprctndflTFDN"

  predicate Known(name: string) { |name| == 1 && name[0] in KEYS }

  /** `m_items`: fixed text, or the item of a key with its format. */
  datatype FormatItem = Fixed(text: string) | Keyed(key: char, fmt: string)

  /** The tuples of `vec`. */
  datatype Entry = Entry(str: string, fmt: string, kind: nat)

  function EntryOf(item: Item): Entry {
    match item
    case Text(s) => Entry(s, "", 0)
    case Spec(name, fmt, _) => Entry(name, fmt, 1)
    case Broken => Entry("<<pattern_error>>", "", 0)
  }

  function Entries(items: seq<Item>): (r: seq<Entry>)
    ensures |r| == |items| && forall i :: 0 <= i < |items| ==> r[i] == EntryOf(items[i])
  {
    seq(|items|, i requires 0 <= i < |items| => EntryOf(items[i]))
  }

  /** The keys are these, and nothing longer. */
  lemma KnownExactly(name: string)
    ensures Known(name) <==> name in {"m", "p", "r", "c", "t", "n", "d", "f", "l", "T", "F", "D", "N"}
  {
    if |name| == 1 { assert name == [name[0]]; }
  }

  /** An item as it would be put into a pattern. */
  function Written(item: FormatItem): string {
    match item
    case Fixed(s) => Escape(s)
    case Keyed(key, fmt) => "%" + [key] + (if fmt == "" then "" else "{" + fmt + "}")
  }

  function WrittenAll(items: seq<FormatItem>): string {
    if items == [] then "" else Written(items[0]) + WrittenAll(items[1..])
  }

  /** `%d{}` says no more than `%d`. */
  predicate EmptyBraces(item: Item) { item.Spec? && item.braced && item.fmt == "" }

  /** Text stays text, a known key keeps its format, and what is wrong becomes a fixed message. */
  predicate IsItem(spec: Item, item: FormatItem) {
    match spec
    case Text(s) => item == Fixed(s)
    case Spec(name, fmt, _) =>
      if Known(name) then item == Keyed(name[0], fmt) else item == Fixed("<<error_format %" + name + ">>")
    case Broken => item == Fixed("<<pattern_error>>")
  }

  lemma WrittenOne(spec: Item, item: FormatItem)
    requires IsItem(spec, item) && !Wrong(spec) && (spec.Spec? && !spec.braced ==> spec.fmt == "")
    ensures if EmptyBraces(spec) then |Written(item)| < |Show(spec)| else Written(item) == Show(spec)
  {
    hide Escape;
    if spec.Spec? {
      KnownExactly(spec.name);
      assert spec.name == [spec.name[0]];
    }
  }

  /** Written out again, the items are the pattern, unless it has empty braces. */
  lemma {:induction false} WrittenIs(specs: seq<Item>, items: seq<FormatItem>)
    requires |items| == |specs| && forall i :: 0 <= i < |items| ==> IsItem(specs[i], items[i])
    requires forall x <- specs :: !Wrong(x)
    requires forall x <- specs :: x.Spec? && !x.braced ==> x.fmt == ""
    ensures |WrittenAll(items)| <= |Print(specs)|
    ensures WrittenAll(items) == Print(specs) <==> forall x <- specs :: !EmptyBraces(x)
    decreases |specs|
  {
    hide IsItem, Written, Show, EmptyBraces, Wrong;
    if specs != [] {
      var x := specs[0];
      assert x in specs && forall y <- specs :: y == x || y in specs[1..];
      assert forall y <- specs[1..] :: y in specs;
      assert forall i :: 0 <= i < |items[1..]| ==> IsItem(specs[1..][i], items[1..][i]) by {
        assert forall i :: 0 <= i < |items[1..]| ==> specs[1..][i] == specs[i + 1] && items[1..][i] == items[i + 1];
      }
      WrittenOne(x, items[0]);
      WrittenIs(specs[1..], items[1..]);
      Halves(Written(items[0]), WrittenAll(items[1..]), Show(x), Print(specs[1..]));
    }
  }

  lemma Halves(a: string, b: string, c: string, d: string)
    requires |a| <= |c| && |b| <= |d|
    ensures |a + b| <= |c + d| && (a + b == c + d <==> a == c && b == d)
  {
    if a + b == c + d {
      assert a == (a + b)[..|a|] && c == (c + d)[..|c|] && b == (a + b)[|a|..] && d == (c + d)[|c|..];
    }
  }

  predicate Wrong(item: Item) { item == Broken || (item.Spec? && !Known(item.name)) }

  lemma NameLengthAt(s: string, n: nat)
    requires n <= |s| && (forall i :: 0 <= i < n ==> InName(s[i])) && (n < |s| ==> !InName(s[n]))
    ensures NameLength(s) == n
  {
    hide NameLength;
  }

  lemma CloseAtAt(s: string, n: nat)
    requires n <= |s| && (forall i :: 0 <= i < n ==> s[i] != '}') && (n < |s| ==> s[n] == '}')
    ensures CloseAt(s) == n
  {
    hide CloseAt;
  }

  lemma PlainEnds(p: string, i: nat, n: nat)
    requires i < n <= |p| && p[i] == '%' && (forall j :: i < j < n ==> InName(p[j]))
    requires n < |p| ==> !InName(p[n]) && p[n] != '{'
    ensures SpecAt(p[i..]) == (Spec(p[i + 1..n], "", false), n - i)
  {
    hide NameLength, SpecAt, InName;
    var s := p[i..];
    assert s[1..] == p[i + 1..];
    NameLengthAt(s[1..], n - i - 1);
    SpecAtPlain(s, n - i);
    assert s[1..n - i] == p[i + 1..n];
  }

  lemma BracedEnds(p: string, i: nat, b: nat, n: nat)
    requires i < b < n < |p| && p[i] == '%' && p[b] == '{' && p[n] == '}'
    requires (forall j :: i < j < b ==> InName(p[j])) && forall j :: b < j < n ==> p[j] != '}'
    ensures SpecAt(p[i..]) == (Spec(p[i + 1..b], p[b + 1..n], true), n + 1 - i)
  {
    hide NameLength, SpecAt, CloseAt;
    var s, k := p[i..], b - i;
    assert s[1..] == p[i + 1..] && s[k + 1..] == p[b + 1..];
    NameLengthAt(s[1..], k - 1);
    CloseAtAt(s[k + 1..], n - b - 1);
    SpecAtBraced(s, k, n - i);
    assert s[1..k] == p[i + 1..b] && s[k + 1..n - i] == p[b + 1..n];
  }

  lemma OpenEnds(p: string, i: nat, b: nat)
    requires i < b < |p| && p[i] == '%' && p[b] == '{'
    requires (forall j :: i < j < b ==> InName(p[j])) && forall j :: b < j < |p| ==> p[j] != '}'
    ensures SpecAt(p[i..]).0 == Broken
  {
    hide NameLength, CloseAt;
    var s, k := p[i..], b - i;
    assert s[1..] == p[i + 1..] && s[k + 1..] == p[b + 1..];
    NameLengthAt(s[1..], k - 1);
    CloseAtAt(s[k + 1..], |p| - b - 1);
  }

  /** The inner loop, from the percent sign at `i`. */
  method Scan(p: string, i: nat) returns (n: nat, open: bool, str: string, fmt: string)
    requires i < |p| && p[i] == '%'
    ensures i < n <= |p|
    ensures var (item, k) := SpecAt(p[i..]);
            open == (item == Broken) && (!open ==> n == i + k && EntryOf(item) == Entry(str, fmt, 1)) && (open ==> fmt == "")
  {
    hide SpecAt, InName;
    n := i + 1;
    open, str, fmt := false, "", "";
    var begin := 0;
    ghost var ended := false;
    while n < |p|
      invariant i < n <= |p| && fmt == "" && !ended
      invariant !open ==> (forall j :: i < j < n ==> InName(p[j])) && str == (if n == |p| then p[i + 1..] else "")
      invariant open ==> i < begin < n && p[begin] == '{' && (forall j :: i < j < begin ==> InName(p[j]))
      invariant open ==> forall j :: begin < j < n ==> p[j] != '}'
      invariant open && n < |p| ==> str == p[i + 1..begin]
    {
      Names(p[n]);
      if !open && !Alpha(p[n]) && p[n] != '{' && p[n] != '}' {
        str := p[i + 1..n];
        PlainEnds(p, i, n);
        ended := true;
        break;
      }
      if !open {
        if p[n] == '{' {
          str := p[i + 1..n];
          open := true;
          begin := n;
          n := n + 1;
          continue;
        }
      } else {
        if p[n] == '}' {
          fmt := p[begin + 1..n];
          BracedEnds(p, i, begin, n);
          ended := true;
          open := false;
          n := n + 1;
          break;
        }
      }
      n := n + 1;
      if n == |p| {
        if str == "" {
          str := p[i + 1..];
        }
      }
    }
    if !ended {
      if open { OpenEnds(p, i, begin); } else { PlainEnds(p, i, n); }
    }
  }

  lemma Names(c: char)
    ensures InName(c) <==> Alpha(c) || c == '}'
  {
  }

  /** `nstr` as an entry. */
  method FlushInto(vec: seq<Entry>, nstr: string, ghost items: seq<Item>) returns (r: seq<Entry>)
    requires vec == Entries(items)
    ensures r == Entries(items + Flush(nstr))
  {
    r := vec;
    if |nstr| > 0 {
      r := r + [Entry(nstr, "", 0)];
    }
  }

  /** What is left of the parse at `i`, by the character there. */
  lemma ParseAt(p: string, i: nat, pending: string)
    requires i < |p|
    ensures var q := p[i..];
            && (p[i] != '%' ==> Parse(q, pending) == Parse(p[i + 1..], pending + [p[i]]))
            && (p[i] == '%' && i + 1 < |p| && p[i + 1] == '%' ==> Parse(q, pending) == Parse(p[i + 2..], pending + "%"))
            && (p[i] == '%' && (i + 1 == |p| || p[i + 1] != '%') ==>
                  var (item, k) := SpecAt(q);
                  Parse(q, pending) == if item == Broken then [Broken] + Parse(p[i + 1..], pending)
                                       else Flush(pending) + [item] + Parse(p[i + k..], ""))
  {
    hide SpecAt;
    var q := p[i..];
    assert q[1..] == p[i + 1..];
    if p[i] == '%' && i + 1 < |p| && p[i + 1] == '%' { assert q[2..] == p[i + 2..]; }
    if p[i] == '%' && (i + 1 == |p| || p[i + 1] != '%') {
      BrokenWidth(q);
      assert q[SpecAt(q).1..] == p[i + SpecAt(q).1..];
    }
  }

  lemma BrokenWidth(q: string)
    requires q != "" && q[0] == '%'
    ensures SpecAt(q).0 == Broken ==> SpecAt(q).1 == 1
  {
  }

  /** At `i` the parse has given `items`, and `nstr` is pending. */
  ghost predicate Left(p: string, items: seq<Item>, i: nat, nstr: string) {
    i <= |p| && Parse(p, "") == items + Parse(p[i..], nstr)
  }

  lemma NextText(p: string, items: seq<Item>, i: nat, nstr: string)
    requires Left(p, items, i, nstr) && i < |p|
    ensures p[i] != '%' ==> Left(p, items, i + 1, nstr + [p[i]])
    ensures p[i] == '%' && i + 1 < |p| && p[i + 1] == '%' ==> Left(p, items, i + 2, nstr + "%")
  {
    hide Parse;
    ParseAt(p, i, nstr);
  }

  lemma NextSpec(p: string, items: seq<Item>, i: nat, nstr: string)
    requires Left(p, items, i, nstr) && i < |p| && p[i] == '%' && (i + 1 == |p| || p[i + 1] != '%')
    ensures var (item, k) := SpecAt(p[i..]);
            if item == Broken then Left(p, items + [Broken], i + 1, nstr)
            else Left(p, items + Flush(nstr) + [item], i + k, "")
  {
    hide Parse, SpecAt, Flush;
    ParseAt(p, i, nstr);
  }

  /** The scan of the pattern into `vec`. */
  method Tokens(p: string) returns (vec: seq<Entry>, error: bool)
    ensures vec == Entries(Parse(p, ""))
    ensures error == (Broken in Parse(p, ""))
  {
    hide SpecAt, Parse, Left;
    vec, error := [], false;
    ghost var items: seq<Item> := [];
    var nstr := "";
    var i := 0;
    Start(p);
    while i < |p|
      invariant i <= |p| && vec == Entries(items) && error == (Broken in items)
      invariant Left(p, items, i, nstr)
    {
      NextText(p, items, i, nstr);
      if p[i] != '%' {
        nstr := nstr + [p[i]];
        i := i + 1;
        continue;
      }
      if i + 1 < |p| && p[i + 1] == '%' {
        nstr := nstr + "%";
        i := i + 2;
        continue;
      }
      NextSpec(p, items, i, nstr);
      var n, open, str, fmt := Scan(p, i);
      if !open {
        vec := FlushInto(vec, nstr, items);
        items := items + Flush(nstr) + [SpecAt(p[i..]).0];
        vec := vec + [Entry(str, fmt, 1)];
        nstr := "";
        i := n - 1;
      } else {
        error := true;
        items := items + [Broken];
        vec := vec + [Entry("<<pattern_error>>", fmt, 0)];
      }
      i := i + 1;
    }
    End(p, items, nstr);
    vec := FlushInto(vec, nstr, items);
  }

  lemma Start(p: string)
    ensures Left(p, [], 0, "")
  {
    assert p[0..] == p;
  }

  lemma End(p: string, items: seq<Item>, nstr: string)
    requires Left(p, items, |p|, nstr)
    ensures Parse(p, "") == items + Flush(nstr)
  {
    assert p[|p|..] == "";
  }

  /** The second loop of `init`, over the tuples of the first. */
  method MakeItems(vec: seq<Entry>, open: bool, ghost parsed: seq<Item>) returns (items: seq<FormatItem>, error: bool)
    requires vec == Entries(parsed) && open == (Broken in parsed)
    ensures |items| == |parsed| && (forall i :: 0 <= i < |items| ==> IsItem(parsed[i], items[i]))
    ensures error == exists i :: 0 <= i < |parsed| && Wrong(parsed[i])
  {
    assert open == exists j :: 0 <= j < |parsed| && parsed[j] == Broken;
    items, error := [], open;
    var i := 0;
    while i < |vec|
      invariant i <= |vec| && |items| == i && forall j :: 0 <= j < i ==> IsItem(parsed[j], items[j])
      invariant error == (open || exists j :: 0 <= j < i && parsed[j].Spec? && !Known(parsed[j].name))
    {
      if vec[i].kind == 0 {
        items := items + [Fixed(vec[i].str)];
      } else if Known(vec[i].str) {
        items := items + [Keyed(vec[i].str[0], vec[i].fmt)];
      } else {
        items := items + [Fixed("<<error_format %" + vec[i].str + ">>")];
        error := true;
      }
      i := i + 1;
    }
  }

  lemma {:induction false} CanonicalPlain(specs: seq<Item>)
    requires Canonical(specs)
    ensures forall x <- specs :: x.Spec? && !x.braced ==> x.fmt == ""
    decreases |specs|
  {
    if specs != [] {
      CanonicalPlain(specs[1..]);
      assert forall x <- specs :: x == specs[0] || x in specs[1..];
    }
  }

  /** Without an error, nothing of the pattern is lost but empty braces. */
  lemma NothingLost(p: string, items: seq<FormatItem>)
    requires |items| == |Parse(p, "")| && forall i :: 0 <= i < |items| ==> IsItem(Parse(p, "")[i], items[i])
    requires forall x <- Parse(p, "") :: !Wrong(x)
    ensures WrittenAll(items) == p <==> forall x <- Parse(p, "") :: !EmptyBraces(x)
  {
    hide Parse, Print, WrittenAll, Canonical, EmptyBraces, IsItem;
    ParsePrints(p, "");
    assert Escape("") + p == p;
    ParseCanonical(p, "");
    CanonicalPlain(Parse(p, ""));
    WrittenIs(Parse(p, ""), items);
  }

  /**
   * `init`: the items of the pattern, and an error exactly for an unclosed brace or an unknown key. If there is
   * none, the items written out again are the pattern, unless that has empty braces.
   */
  method Init(p: string) returns (items: seq<FormatItem>, error: bool)
    ensures |items| == |Parse(p, "")| && forall i :: 0 <= i < |items| ==> IsItem(Parse(p, "")[i], items[i])
    ensures error == exists i :: 0 <= i < |Parse(p, "")| && Wrong(Parse(p, "")[i])
    ensures !error ==> (WrittenAll(items) == p <==> forall x <- Parse(p, "") :: !EmptyBraces(x))
  {
    hide Parse, WrittenAll, EmptyBraces, IsItem, Wrong;
    var vec, open := Tokens(p);
    items, error := MakeItems(vec, open, Parse(p, ""));
    if !error { NothingLost(p, items); }
  }

  /** The printed form of canonical items with known keys is parsed to these items, without an error. */
  method InitPrinted(specs: seq<Item>) returns (items: seq<FormatItem>, error: bool)
    requires Canonical(specs)
    requires forall x <- specs ::
               x.Spec? ==> x.name in {"m", "p", "r", "c", "t", "n", "d", "f", "l", "T", "F", "D", "N"}
    ensures !error && |items| == |specs|
    ensures forall i :: 0 <= i < |items| && specs[i].Text? ==> items[i] == Fixed(specs[i].text)
    ensures forall i :: 0 <= i < |items| && specs[i].Spec? ==>
              items[i].Keyed? && [items[i].key] == specs[i].name && items[i].fmt == specs[i].fmt
  {
    hide Parse, Print, WrittenAll, Known;
    CanonicalWhole(specs);
    RoundTrip(specs);
    AllKnown(specs);
    items, error := Init(Print(specs));
  }

  /** Each key can be written, alone or with any format that has no closing brace. */
  lemma KeysCanonical(name: string, fmt: string)
    requires name in {"m", "p", "r", "c", "t", "n", "d", "f", "l", "T", "F", "D", "N"} && '}' !in fmt
    ensures Canonical([Spec(name, "", false)]) && Canonical([Spec(name, fmt, true)])
    ensures Print([Spec(name, "", false)]) == "%" + name && Print([Spec(name, fmt, true)]) == "%" + name + "{" + fmt + "}"
  {
    KnownExactly(name);
    Alone(Spec(name, "", false));
    Alone(Spec(name, fmt, true));
  }

  lemma Alone(x: Item)
    ensures Canonical([x]) <==> Readable(x)
    ensures Print([x]) == Show(x)
  {
    assert [x][1..] == [];
    assert Show(x) + "" == Show(x);
  }

  lemma AllKnown(specs: seq<Item>)
    ensures forall x <- specs :: x.Spec? && x.name in {"m", "p", "r", "c", "t", "n", "d", "f", "l", "T", "F", "D", "N"} ==>
              Known(x.name) && |x.name| == 1 && [x.name[0]] == x.name
  {
    forall x | x in specs && x.Spec? && x.name in {"m", "p", "r", "c", "t", "n", "d", "f", "l", "T", "F", "D", "N"}
      ensures Known(x.name) && |x.name| == 1 && [x.name[0]] == x.name
    {
      KnownExactly(x.name);
    }
  }
}
