/** src/services/africastalking/response-builder.ts: the XML answers to the
    voice provider, and a reader that gets back what they mean. */
module ResponseBuilderModel {
  import opened Types

  // ---------------------------------------------------------------- escaping

  /** String.replace with a global pattern of one character. */
  function ReplaceAll(s: string, c: char, rep: string): string {
    if s == "" then "" else (if s[0] == c then rep else [s[0]]) + ReplaceAll(s[1..], c, rep)
  }

  function EscapeXml(s: string): string {
    ReplaceAll(ReplaceAll(ReplaceAll(ReplaceAll(ReplaceAll(s,
      '&', "&amp;"), '<', "&lt;"), '>', "&gt;"), '\"', "&quot;"), '\'', "&apos;")
  }

  /** The predefined entities of section 4.6 of XML 1.0. */
  function EscapeChar(c: char): string {
    if c == '&' then "&amp;"
    else if c == '<' then "&lt;"
    else if c == '>' then "&gt;"
    else if c == '\"' then "&quot;"
    else if c == '\'' then "&apos;"
    else [c]
  }

  function Escaped(s: string): string {
    if s == "" then "" else EscapeChar(s[0]) + Escaped(s[1..])
  }

  function Prepend(c: char, rest: Option<string>): Option<string> {
    if rest.Some? then Some([c] + rest.value) else None
  }

  /** Reading character data back; None when an ampersand starts no entity. */
  function Decode(t: string): Option<string>
    decreases |t|
  {
    if t == "" then Some("")
    else if t[0] != '&' then Prepend(t[0], Decode(t[1..]))
    else if "&amp;" <= t then Prepend('&', Decode(t[5..]))
    else if "&lt;" <= t then Prepend('<', Decode(t[4..]))
    else if "&gt;" <= t then Prepend('>', Decode(t[4..]))
    else if "&quot;" <= t then Prepend('\"', Decode(t[6..]))
    else if "&apos;" <= t then Prepend('\'', Decode(t[6..]))
    else None
  }

  lemma Regroup(a: string, b: string, c: string)
    ensures (a + b) + c == a + (b + c)
  {
  }

  lemma {:induction false} ReplaceAllSplits(s: string, t: string, c: char, rep: string)
    ensures ReplaceAll(s + t, c, rep) == ReplaceAll(s, c, rep) + ReplaceAll(t, c, rep)
  {
    if s == "" {
      assert s + t == t;
    } else {
      ReplaceAllSplits(s[1..], t, c, rep);
      assert (s + t)[1..] == s[1..] + t;
      var first := if s[0] == c then rep else [s[0]];
      Regroup(first, ReplaceAll(s[1..], c, rep), ReplaceAll(t, c, rep));
    }
  }

  lemma {:induction false} ReplaceAllMisses(s: string, c: char, rep: string)
    requires c !in s
    ensures ReplaceAll(s, c, rep) == s
  {
    if s != "" {
      ReplaceAllMisses(s[1..], c, rep);
      assert [s[0]] + s[1..] == s;
    }
  }

  lemma ReplaceOne(c: char, d: char, rep: string)
    ensures ReplaceAll([c], d, rep) == if c == d then rep else [c]
  {
    assert [c][1..] == "";
  }

  /** The last two passes, and the last three, leave such strings alone. */
  lemma QuotePassesMiss(s: string)
    requires '\"' !in s && '\'' !in s
    ensures ReplaceAll(ReplaceAll(s, '\"', "&quot;"), '\'', "&apos;") == s
  {
    ReplaceAllMisses(s, '\"', "&quot;");
    ReplaceAllMisses(s, '\'', "&apos;");
  }

  lemma LaterPassesMiss(s: string)
    requires '>' !in s && '\"' !in s && '\'' !in s
    ensures ReplaceAll(ReplaceAll(ReplaceAll(s, '>', "&gt;"), '\"', "&quot;"), '\'', "&apos;") == s
  {
    ReplaceAllMisses(s, '>', "&gt;");
    QuotePassesMiss(s);
  }

  lemma EscapeAngle(c: char)
    requires c == '<' || c == '>'
    ensures EscapeXml([c]) == EscapeChar(c)
  {
    ReplaceOne(c, '&', "&amp;");
    ReplaceOne(c, '<', "&lt;");
    if c == '<' {
      LaterPassesMiss(EscapeChar(c));
    } else {
      ReplaceOne(c, '>', "&gt;");
      QuotePassesMiss(EscapeChar(c));
    }
  }

  lemma EscapeQuote(c: char)
    requires c == '\"' || c == '\''
    ensures EscapeXml([c]) == EscapeChar(c)
  {
    ReplaceOne(c, '&', "&amp;");
    ReplaceOne(c, '<', "&lt;");
    ReplaceOne(c, '>', "&gt;");
    ReplaceOne(c, '\"', "&quot;");
    if c == '\'' {
      ReplaceOne(c, '\'', "&apos;");
    } else {
      ReplaceAllMisses("&quot;", '\'', "&apos;");
    }
  }

  predicate Inert(s: string) {
    '<' !in s && '>' !in s && '\"' !in s && '\'' !in s
  }

  lemma EscapedOutsideTags(c: char)
    ensures Inert(EscapeChar(c))
  {
  }

  /** On one character the order of the five replacements is harmless: what one
      brings in, the later ones leave alone. */
  lemma EscapeOne(c: char)
    ensures EscapeXml([c]) == EscapeChar(c)
  {
    if c == '<' || c == '>' {
      EscapeAngle(c);
    } else if c == '\"' || c == '\'' {
      EscapeQuote(c);
    } else {
      ReplaceOne(c, '&', "&amp;");
      EscapedOutsideTags(c);
      ReplaceAllMisses(EscapeChar(c), '<', "&lt;");
      LaterPassesMiss(EscapeChar(c));
    }
  }

  lemma EscapeSplits(s: string, t: string)
    ensures EscapeXml(s + t) == EscapeXml(s) + EscapeXml(t)
  {
    ReplaceAllSplits(s, t, '&', "&amp;");
    var s1, t1 := ReplaceAll(s, '&', "&amp;"), ReplaceAll(t, '&', "&amp;");
    ReplaceAllSplits(s1, t1, '<', "&lt;");
    var s2, t2 := ReplaceAll(s1, '<', "&lt;"), ReplaceAll(t1, '<', "&lt;");
    ReplaceAllSplits(s2, t2, '>', "&gt;");
    var s3, t3 := ReplaceAll(s2, '>', "&gt;"), ReplaceAll(t2, '>', "&gt;");
    ReplaceAllSplits(s3, t3, '\"', "&quot;");
    var s4, t4 := ReplaceAll(s3, '\"', "&quot;"), ReplaceAll(t3, '\"', "&quot;");
    ReplaceAllSplits(s4, t4, '\'', "&apos;");
  }

  /** Five passes over the string equal one pass over its characters. */
  lemma {:induction false} FivePassesAreOne(s: string)
    ensures EscapeXml(s) == Escaped(s)
  {
    if s != "" {
      FivePassesAreOne(s[1..]);
      EscapeOne(s[0]);
      EscapeSplits([s[0]], s[1..]);
      assert [s[0]] + s[1..] == s;
    }
  }

  /** Nothing that could open a tag or close an attribute survives. */
  lemma {:induction false} EscapedIsInert(s: string)
    ensures Inert(Escaped(s))
  {
    if s != "" {
      EscapedIsInert(s[1..]);
      EscapedOutsideTags(s[0]);
    }
  }

  lemma DecodeOne(c: char, t: string)
    ensures Decode(EscapeChar(c) + t) == Prepend(c, Decode(t))
  {
    var e := EscapeChar(c);
    assert (e + t)[|e|..] == t;
    assert e <= e + t && (e + t)[0] == e[0] && (|e| > 1 ==> (e + t)[1] == e[1]) && (|e| > 2 ==> (e + t)[2] == e[2]);
  }

  /** Decoding undoes escaping, on every string. */
  lemma {:induction false} DecodeUndoesEscape(s: string)
    ensures Decode(Escaped(s)) == Some(s)
  {
    if s != "" {
      DecodeUndoesEscape(s[1..]);
      DecodeOne(s[0], Escaped(s[1..]));
      assert [s[0]] + s[1..] == s;
    }
  }

  lemma EscapeXmlRoundTrips(s: string)
    ensures Inert(EscapeXml(s)) && Decode(EscapeXml(s)) == Some(s)
  {
    FivePassesAreOne(s);
    EscapedIsInert(s);
    DecodeUndoesEscape(s);
  }

  // --------------------------------------------------------------- documents

  datatype Attr = Attr(name: string, value: string)

  /** `<name attrs/>` when there is no text, `<name attrs>text</name>` else. */
  datatype Element = Element(name: string, attrs: seq<Attr>, text: Option<string>)

  function AttrText(name: string, value: string): string {
    name + "=\"" + value + "\""
  }

  /** One attribute as the builders write it. */
  function PrintAttr(a: Attr): string {
    AttrText(a.name, EscapeXml(a.value))
  }

  function PrintAttrs(attrs: seq<Attr>): string {
    if attrs == [] then "" else " " + PrintAttr(attrs[0]) + PrintAttrs(attrs[1..])
  }

  function PrintBody(e: Element): string {
    if e.text.None? then "/>" else ">" + EscapeXml(e.text.value) + ("</" + e.name + ">")
  }

  function PrintElement(e: Element): string {
    "<" + e.name + PrintAttrs(e.attrs) + PrintBody(e)
  }

  function PrintElements(es: seq<Element>): string {
    if es == [] then "" else PrintElement(es[0]) + PrintElements(es[1..])
  }

  const PROLOGUE: string := "<?xml version=\"1.0\" encoding=\"UTF-8\"?>"
  const OPEN_TAG: string := "<Response>"
  const CLOSE_TAG: string := "</Response>"

  function PrintDocument(es: seq<Element>): string {
    PROLOGUE + (OPEN_TAG + (PrintElements(es) + CLOSE_TAG))
  }

  // ------------------------------------------------------------- the reader

  /** The longest prefix of t without a character of `stops`. */
  function Span(t: string, stops: set<char>): (p: string)
    ensures p <= t
  {
    if t == "" || t[0] in stops then "" else [t[0]] + Span(t[1..], stops)
  }

  /** What follows `prefix` in t. */
  function After(prefix: string, t: string): (r: Option<string>)
    ensures r.Some? ==> t == prefix + r.value
  {
    if prefix <= t then Some(t[|prefix|..]) else None
  }

  const NAME_STOPS: set<char> := {' ', '/', '>', '<', '='}

  function ReadAttr(t: string): (r: Option<(Attr, string)>)
    ensures r.Some? ==> |r.value.1| < |t|
  {
    var name := Span(t, NAME_STOPS);
    match After("=\"", t[|name|..])
    case None => None
    case Some(rest) =>
      var raw := Span(rest, {'\"'});
      var value := Decode(raw);
      if value.None? || |raw| == |rest| then None
      else Some((Attr(name, value.value), rest[|raw| + 1..]))
  }

  function ReadAttrs(t: string): (r: Option<(seq<Attr>, string)>)
    ensures r.Some? ==> |r.value.1| <= |t|
    decreases |t|
  {
    if t == "" || t[0] != ' ' then Some(([], t)) else
    var first := ReadAttr(t[1..]);
    if first.None? then None else
    var more := ReadAttrs(first.value.1);
    if more.None? then None else Some(([first.value.0] + more.value.0, more.value.1))
  }

  /** What stands after an element's attributes: its end, or text and an end tag. */
  function ReadBody(name: string, t: string): (r: Option<(Option<string>, string)>)
    ensures r.Some? ==> |r.value.1| <= |t|
  {
    var closed := After("/>", t);
    if closed.Some? then Some((None, closed.value)) else
    if t == "" || t[0] != '>' then None else
    var raw := Span(t[1..], {'<'});
    var text := Decode(raw);
    var end := After("</" + name + ">", t[1..][|raw|..]);
    if text.None? || end.None? then None else Some((text, end.value))
  }

  function ReadElement(t: string): (r: Option<(Element, string)>)
    ensures r.Some? ==> |r.value.1| < |t|
  {
    if t == "" || t[0] != '<' then None else
    var name := Span(t[1..], NAME_STOPS);
    var attrs := ReadAttrs(t[1..][|name|..]);
    if attrs.None? then None else
    var body := ReadBody(name, attrs.value.1);
    if body.None? then None else
    Some((Element(name, attrs.value.0, body.value.0), body.value.1))
  }

  function ReadElements(t: string): Option<seq<Element>>
    decreases |t|
  {
    if t == CLOSE_TAG then Some([]) else
    var first := ReadElement(t);
    if first.None? then None else
    var more := ReadElements(first.value.1);
    if more.None? then None else Some([first.value.0] + more.value)
  }

  function ReadDocument(t: string): Option<seq<Element>> {
    var body := After(PROLOGUE, t);
    if body.None? then None else
    var elements := After(OPEN_TAG, body.value);
    if elements.None? then None else ReadElements(elements.value)
  }

  // --------------------------------------------------- reading what is printed

  predicate IsName(n: string) {
    n != "" && forall c :: c in n ==> c !in NAME_STOPS
  }

  predicate WellNamed(e: Element) {
    IsName(e.name) && forall a :: a in e.attrs ==> IsName(a.name)
  }

  /** A span ends where the first stop stands. */
  lemma {:induction false} SpanEnds(p: string, t: string, stops: set<char>)
    requires forall c :: c in p ==> c !in stops
    requires t != "" ==> t[0] in stops
    ensures Span(p + t, stops) == p && (p + t)[|p|..] == t
  {
    if p == "" {
      assert p + t == t;
    } else {
      assert (p + t)[1..] == p[1..] + t;
      SpanEnds(p[1..], t, stops);
    }
  }

  lemma AfterItself(prefix: string, t: string)
    ensures After(prefix, prefix + t) == Some(t)
  {
    assert (prefix + t)[|prefix|..] == t;
  }

  // Regrouping concatenations, and what stands at the seams.

  lemma DropFirst(c: char, t: string)
    ensures ([c] + t)[0] == c && ([c] + t)[1..] == t
  {
  }

  lemma DropPast(p: string, c: char, t: string)
    ensures (p + ([c] + t))[|p| + 1..] == t
  {
  }

  lemma AttrParts(name: string, v: string, t: string)
    ensures AttrText(name, v) + t == name + ("=\"" + (v + ("\"" + t)))
  {
    Regroup(name + "=\"" + v, "\"", t);
    Regroup(name + "=\"", v, "\"" + t);
    Regroup(name, "=\"", v + ("\"" + t));
  }

  lemma AttrIsRead(a: Attr, t: string)
    requires IsName(a.name)
    ensures ReadAttr(PrintAttr(a) + t) == Some((a, t))
  {
    var v := EscapeXml(a.value);
    EscapeXmlRoundTrips(a.value);
    var afterValue := "\"" + t;
    var afterName := "=\"" + (v + afterValue);
    AttrParts(a.name, v, t);
    SpanEnds(a.name, afterName, NAME_STOPS);
    AfterItself("=\"", v + afterValue);
    SpanEnds(v, afterValue, {'\"'});
    DropPast(v, '\"', t);
  }

  lemma AttrsSplit(attrs: seq<Attr>, t: string)
    requires attrs != []
    ensures PrintAttrs(attrs) + t == " " + (PrintAttr(attrs[0]) + (PrintAttrs(attrs[1..]) + t))
  {
    Regroup(" " + PrintAttr(attrs[0]), PrintAttrs(attrs[1..]), t);
    Regroup(" ", PrintAttr(attrs[0]), PrintAttrs(attrs[1..]) + t);
  }

  lemma OneMoreAttr(s: string, a: Attr, rest: string, more: seq<Attr>, t: string)
    requires ReadAttr(s) == Some((a, rest)) && ReadAttrs(rest) == Some((more, t))
    ensures ReadAttrs(" " + s) == Some(([a] + more, t))
  {
    DropFirst(' ', s);
  }

  lemma {:induction false} AttrsAreRead(attrs: seq<Attr>, t: string)
    requires forall a :: a in attrs ==> IsName(a.name)
    requires t != "" && t[0] != ' '
    ensures ReadAttrs(PrintAttrs(attrs) + t) == Some((attrs, t))
  {
    if attrs == [] {
      assert PrintAttrs(attrs) + t == t;
    } else {
      var rest := PrintAttrs(attrs[1..]) + t;
      AttrsSplit(attrs, t);
      AttrIsRead(attrs[0], rest);
      AttrsAreRead(attrs[1..], t);
      OneMoreAttr(PrintAttr(attrs[0]) + rest, attrs[0], rest, attrs[1..], t);
      assert [attrs[0]] + attrs[1..] == attrs;
    }
  }

  lemma BodySplits(v: string, end: string, t: string)
    ensures var whole := ">" + v + end + t;
      whole[0] == '>' && whole[1..] == v + (end + t)
  {
    Regroup(">" + v, end, t);
    Regroup(">", v, end + t);
    DropFirst('>', v + (end + t));
  }

  lemma BodyIsRead(e: Element, t: string)
    ensures ReadBody(e.name, PrintBody(e) + t) == Some((e.text, t))
  {
    if e.text.None? {
      AfterItself("/>", t);
    } else {
      var v := EscapeXml(e.text.value);
      EscapeXmlRoundTrips(e.text.value);
      var end := "</" + e.name + ">";
      BodySplits(v, end, t);
      SpanEnds(v, end + t, {'<'});
      AfterItself(end, t);
    }
  }

  lemma ElementParts(name: string, attrs: string, body: string, t: string)
    ensures var whole := "<" + name + attrs + body + t;
      whole[0] == '<' && whole[1..] == name + (attrs + (body + t))
  {
    Regroup("<" + name + attrs, body, t);
    Regroup("<" + name, attrs, body + t);
    Regroup("<", name, attrs + (body + t));
    DropFirst('<', name + (attrs + (body + t)));
  }

  lemma ElementIsRead(e: Element, t: string)
    requires WellNamed(e)
    ensures ReadElement(PrintElement(e) + t) == Some((e, t))
  {
    var afterAttrs := PrintBody(e) + t;
    var afterName := PrintAttrs(e.attrs) + afterAttrs;
    ElementParts(e.name, PrintAttrs(e.attrs), PrintBody(e), t);
    assert e.attrs != [] ==> afterName[0] == ' ';
    SpanEnds(e.name, afterName, NAME_STOPS);
    AttrsAreRead(e.attrs, afterAttrs);
    BodyIsRead(e, t);
  }

  lemma NotTheEnd(e: Element, t: string)
    requires WellNamed(e)
    ensures PrintElement(e) + t != CLOSE_TAG
  {
    ElementParts(e.name, PrintAttrs(e.attrs), PrintBody(e), t);
    assert (PrintElement(e) + t)[1..][0] == e.name[0];
    assert e.name[0] in e.name && CLOSE_TAG[1..][0] == '/';
  }

  lemma OneMoreElement(s: string, e: Element, rest: string, more: seq<Element>)
    requires s != CLOSE_TAG && ReadElement(s) == Some((e, rest)) && ReadElements(rest) == Some(more)
    ensures ReadElements(s) == Some([e] + more)
  {
  }

  /** One equation for the text of a sequence and that of its first element. */
  lemma ElementsSplit(es: seq<Element>)
    requires es != []
    ensures PrintElements(es) + CLOSE_TAG == PrintElement(es[0]) + (PrintElements(es[1..]) + CLOSE_TAG)
  {
    Regroup(PrintElement(es[0]), PrintElements(es[1..]), CLOSE_TAG);
  }

  lemma {:induction false} ElementsAreRead(es: seq<Element>)
    requires forall e :: e in es ==> WellNamed(e)
    ensures ReadElements(PrintElements(es) + CLOSE_TAG) == Some(es)
  {
    if es == [] {
      assert PrintElements(es) + CLOSE_TAG == CLOSE_TAG;
    } else {
      var rest := PrintElements(es[1..]) + CLOSE_TAG;
      ElementsSplit(es);
      NotTheEnd(es[0], rest);
      ElementIsRead(es[0], rest);
      ElementsAreRead(es[1..]);
      OneMoreElement(PrintElement(es[0]) + rest, es[0], rest, es[1..]);
      assert [es[0]] + es[1..] == es;
    }
  }

  /** Whatever the values are, the document that was printed is read back. */
  lemma DocumentIsRead(es: seq<Element>)
    requires forall e :: e in es ==> WellNamed(e)
    ensures ReadDocument(PrintDocument(es)) == Some(es)
  {
    AfterItself(PROLOGUE, OPEN_TAG + (PrintElements(es) + CLOSE_TAG));
    AfterItself(OPEN_TAG, PrintElements(es) + CLOSE_TAG);
    ElementsAreRead(es);
  }

  // ---------------------------------------------------------------- builders

  /** Array.join. */
  function Join(parts: seq<string>, sep: string): string {
    if parts == [] then ""
    else if |parts| == 1 then parts[0]
    else parts[0] + sep + Join(parts[1..], sep)
  }

  /** A number in decimal. */
  function Decimal(n: nat): string {
    (if n < 10 then "" else Decimal(n / 10)) + [('0' as int + n % 10) as char]
  }

  function ReadDecimal(s: string): int {
    if s == "" then 0 else 10 * ReadDecimal(s[..|s| - 1]) + (s[|s| - 1] as int - '0' as int)
  }

  lemma {:induction false} DecimalIsPlain(n: nat)
    ensures Inert(Decimal(n)) && '&' !in Decimal(n)
  {
    if n >= 10 {
      DecimalIsPlain(n / 10);
    }
  }

  /** Digits, and no zero in front of others. */
  lemma {:induction false} DecimalIsCanonical(n: nat)
    ensures Decimal(n) != "" && (n > 0 ==> Decimal(n)[0] != '0')
    ensures forall c :: c in Decimal(n) ==> '0' <= c <= '9'
  {
    if n >= 10 {
      DecimalIsCanonical(n / 10);
    }
  }

  lemma {:induction false} DecimalRoundTrips(n: nat)
    ensures ReadDecimal(Decimal(n)) == n
  {
    var s := Decimal(n);
    if n < 10 {
      assert s[..|s| - 1] == "";
    } else {
      DecimalRoundTrips(n / 10);
      assert s[..|s| - 1] == Decimal(n / 10);
    }
  }

  datatype DialArgs = DialArgs(
    destination: string,
    callerId: Option<string>,
    recordingEnabled: bool,
    consentAudioUrl: Option<string>,
    consentText: Option<string>,
    maxDurationSeconds: Option<int>,
    ringbackTone: Option<string>)

  /** A string argument is given when it is present and not empty. */
  predicate Given(o: Option<string>) {
    o.Some? && o.value != ""
  }

  function Play(url: string): Element {
    Element("Play", [Attr("url", url)], None)
  }

  function Spoken(text: string): Element {
    Element("Say", [Attr("voice", VOICE)], Some(text))
  }

  /** The announcement before the call, if any: audio goes before text. */
  function Announcement(args: DialArgs): seq<Element> {
    if Given(args.consentAudioUrl) then
      [Play(args.consentAudioUrl.value)]
    else if Given(args.consentText) then
      [Spoken(args.consentText.value)]
    else []
  }

  /** An attribute that is written only when its value is given. */
  function OptionalAttr(name: string, o: Option<string>): seq<Attr> {
    if Given(o) then [Attr(name, o.value)] else []
  }

  const TRUE: string := "true"

  function Record(args: DialArgs): Option<string> {
    if args.recordingEnabled then Some(TRUE) else None
  }

  function MaxDuration(args: DialArgs): Option<string> {
    if args.maxDurationSeconds.Some? && args.maxDurationSeconds.value > 0
    then Some(Decimal(args.maxDurationSeconds.value)) else None
  }

  function OptionalAttrs(args: DialArgs): seq<Attr> {
    OptionalAttr("callerId", args.callerId)
    + OptionalAttr("record", Record(args))
    + OptionalAttr("maxDuration", MaxDuration(args))
    + OptionalAttr("ringbackTone", args.ringbackTone)
  }

  function Dial(attrs: seq<Attr>, to: string): Element {
    Element("Dial", attrs + [Attr("phoneNumbers", to)], None)
  }

  function DialDocument(args: DialArgs): seq<Element> {
    Announcement(args) + [Dial(OptionalAttrs(args), args.destination)]
  }

  function AttrTexts(attrs: seq<Attr>): (r: seq<string>)
    ensures |r| == |attrs|
  {
    if attrs == [] then [] else [PrintAttr(attrs[0])] + AttrTexts(attrs[1..])
  }

  lemma {:induction false} OneMoreText(attrs: seq<Attr>, a: Attr)
    ensures AttrTexts(attrs + [a]) == AttrTexts(attrs) + [PrintAttr(a)]
  {
    if attrs == [] {
      assert attrs + [a] == [a] && [a][1..] == [];
    } else {
      OneMoreText(attrs[1..], a);
      assert (attrs + [a])[1..] == attrs[1..] + [a];
    }
  }

  /** Joining with blanks after one leading blank is printing the attributes. */
  lemma {:induction false} JoinedTextsArePrinted(attrs: seq<Attr>)
    requires attrs != []
    ensures " " + Join(AttrTexts(attrs), " ") == PrintAttrs(attrs)
  {
    var texts := AttrTexts(attrs);
    if |attrs| > 1 {
      JoinedTextsArePrinted(attrs[1..]);
      assert texts[1..] == AttrTexts(attrs[1..]);
      assert " " + Join(texts, " ") == " " + PrintAttr(attrs[0]) + (" " + Join(texts[1..], " "));
    } else {
      assert attrs[1..] == [];
      assert " " + PrintAttr(attrs[0]) + "" == " " + PrintAttr(attrs[0]);
    }
  }

  lemma PrintFirstAttr(a: Attr, more: seq<Attr>)
    ensures PrintAttrs([a] + more) == " " + PrintAttr(a) + PrintAttrs(more)
  {
    assert ([a] + more)[1..] == more;
  }

  lemma PrintOnlyAttr(a: Attr)
    ensures PrintAttrs([a]) == " " + PrintAttr(a)
  {
    PrintFirstAttr(a, []);
    assert [a] + [] == [a];
  }

  lemma {:induction false} PrintLastAttr(attrs: seq<Attr>, a: Attr)
    ensures PrintAttrs(attrs + [a]) == PrintAttrs(attrs) + (" " + PrintAttr(a))
  {
    if attrs == [] {
      PrintFirstAttr(a, []);
      assert [a] + [] == attrs + [a];
    } else {
      PrintLastAttr(attrs[1..], a);
      PrintFirstAttr(attrs[0], attrs[1..] + [a]);
      assert attrs + [a] == [attrs[0]] + (attrs[1..] + [a]);
    }
  }

  lemma {:induction false} OneMorePart(parts: seq<string>, p: string)
    ensures Join(parts + [p], "") == Join(parts, "") + p
  {
    if |parts| > 1 {
      OneMorePart(parts[1..], p);
      assert (parts + [p])[1..] == parts[1..] + [p];
    } else if |parts| == 1 {
      assert (parts + [p])[1..] == [p];
    }
  }

  // The tags as the builders spell them.

  function PlayTag(url: string): string {
    "<Play url=\"" + EscapeXml(url) + "\"/>"
  }

  function SpokenTag(text: string): string {
    "<Say voice=\"woman\">" + EscapeXml(text) + "</Say>"
  }

  function SayTag(text: string): string {
    "<Say>" + EscapeXml(text) + "</Say>"
  }

  function DialTag(attrStr: string, to: string): string {
    "<Dial" + attrStr + " phoneNumbers=\"" + EscapeXml(to) + "\"/>"
  }

  const VOICE: string := "woman"

  const HANGUP: Element := Element("Hangup", [], None)

  lemma PlayIsPrinted(url: string)
    ensures PlayTag(url) == PrintElement(Play(url))
  {
    PrintOnlyAttr(Attr("url", url));
  }

  lemma PlainTextIsKept(s: string)
    requires Inert(s) && '&' !in s
    ensures EscapeXml(s) == s
  {
    ReplaceAllMisses(s, '&', "&amp;");
    ReplaceAllMisses(s, '<', "&lt;");
    LaterPassesMiss(s);
  }

  lemma SpokenPieces(t: string)
    ensures "<Say voice=\"woman\">" + t + "</Say>"
         == "<" + "Say" + (" " + ("voice" + "=\"" + VOICE + "\"")) + (">" + t + ("</" + "Say" + ">"))
  {
    var tag := "<" + "Say" + (" " + ("voice" + "=\"" + VOICE + "\""));
    assert "<Say voice=\"woman\">" == tag + ">";
    assert "</Say>" == "</" + "Say" + ">";
    Regroup(tag, ">", t);
    Regroup(tag, ">" + t, "</Say>");
  }

  lemma SpokenIsPrinted(text: string)
    ensures SpokenTag(text) == PrintElement(Spoken(text))
  {
    PlainTextIsKept(VOICE);
    PrintOnlyAttr(Attr("voice", VOICE));
    SpokenPieces(EscapeXml(text));
  }

  lemma PhoneNumbersPieces(t: string)
    ensures " phoneNumbers=\"" + t + "\"/>" == " " + ("phoneNumbers" + "=\"" + t + "\"") + "/>"
  {
    assert " phoneNumbers=\"" == " " + "phoneNumbers" + "=\"";
    assert "\"/>" == "\"" + "/>";
  }

  lemma DialPieces(a: string, t: string)
    ensures "<Dial" + a + " phoneNumbers=\"" + t + "\"/>"
         == "<" + "Dial" + (a + (" " + ("phoneNumbers" + "=\"" + t + "\""))) + "/>"
  {
    var attr := " " + ("phoneNumbers" + "=\"" + t + "\"");
    PhoneNumbersPieces(t);
    assert "<Dial" + a + " phoneNumbers=\"" + t + "\"/>" == "<Dial" + (a + attr) + "/>";
    assert "<Dial" == "<" + "Dial";
  }

  lemma DialIsPrinted(attrs: seq<Attr>, to: string)
    ensures DialTag(PrintAttrs(attrs), to) == PrintElement(Dial(attrs, to))
  {
    PrintLastAttr(attrs, Attr("phoneNumbers", to));
    DialPieces(PrintAttrs(attrs), EscapeXml(to));
  }

  lemma {:induction false} PrintLastElement(es: seq<Element>, e: Element)
    ensures PrintElements(es + [e]) == PrintElements(es) + PrintElement(e)
  {
    if es == [] {
      assert es + [e] == [e] && [e][1..] == [];
    } else {
      PrintLastElement(es[1..], e);
      assert (es + [e])[1..] == es[1..] + [e] && (es + [e])[0] == es[0];
      Regroup(PrintElement(es[0]), PrintElements(es[1..]), PrintElement(e));
    }
  }

  /** Pushing a tag onto the parts of a document under construction. */
  lemma OneMoreTag(parts: seq<string>, es: seq<Element>, tag: string, e: Element)
    requires Join(parts, "") == PROLOGUE + OPEN_TAG + PrintElements(es)
    requires tag == PrintElement(e)
    ensures Join(parts + [tag], "") == PROLOGUE + OPEN_TAG + PrintElements(es + [e])
  {
    OneMorePart(parts, tag);
    PrintLastElement(es, e);
    Regroup(PROLOGUE + OPEN_TAG, PrintElements(es), tag);
  }

  lemma Associate(a: string, b: string, c: string, d: string)
    ensures a + b + c + d == a + (b + (c + d))
  {
  }

  lemma ClosingTag(parts: seq<string>, es: seq<Element>)
    requires Join(parts, "") == PROLOGUE + OPEN_TAG + PrintElements(es)
    ensures Join(parts + [CLOSE_TAG], "") == PrintDocument(es)
  {
    OneMorePart(parts, CLOSE_TAG);
    Associate(PROLOGUE, OPEN_TAG, PrintElements(es), CLOSE_TAG);
  }

  lemma OpeningParts()
    ensures Join([PROLOGUE, OPEN_TAG], "") == PROLOGUE + OPEN_TAG + PrintElements([])
  {
    OneMorePart([PROLOGUE], OPEN_TAG);
    assert [PROLOGUE] + [OPEN_TAG] == [PROLOGUE, OPEN_TAG];
  }

  /** Pushing an attribute when, and only when, its value is given. */
  lemma OptionalText(attrs: seq<Attr>, name: string, o: Option<string>)
    ensures AttrTexts(attrs + OptionalAttr(name, o))
         == AttrTexts(attrs) + if Given(o) then [AttrText(name, EscapeXml(o.value))] else []
  {
    if Given(o) {
      OneMoreText(attrs, Attr(name, o.value));
    } else {
      assert attrs + [] == attrs;
    }
  }

  lemma FirstOptionalText(name: string, o: Option<string>)
    ensures AttrTexts(OptionalAttr(name, o)) == if Given(o) then [AttrText(name, EscapeXml(o.value))] else []
  {
    OptionalText([], name, o);
    assert [] + OptionalAttr(name, o) == OptionalAttr(name, o);
  }

  /** A value that needs no escaping is pushed as it stands. */
  lemma PlainOptionalText(attrs: seq<Attr>, name: string, o: Option<string>)
    requires o.Some? ==> o.value != "" && Inert(o.value) && '&' !in o.value
    ensures AttrTexts(attrs + OptionalAttr(name, o))
         == AttrTexts(attrs) + if o.Some? then [AttrText(name, o.value)] else []
  {
    OptionalText(attrs, name, o);
    if o.Some? {
      PlainTextIsKept(o.value);
    }
  }

  lemma RecordIsPlain(args: DialArgs)
    ensures var o := Record(args); o.Some? ==> o.value != "" && Inert(o.value) && '&' !in o.value
  {
  }

  lemma MaxDurationIsPlain(args: DialArgs)
    ensures var o := MaxDuration(args); o.Some? ==> o.value != "" && Inert(o.value) && '&' !in o.value
  {
    if MaxDuration(args).Some? {
      DecimalIsPlain(args.maxDurationSeconds.value);
    }
  }

  function CallerText(args: DialArgs): seq<string> {
    if Given(args.callerId) then [AttrText("callerId", EscapeXml(args.callerId.value))] else []
  }

  function RecordText(args: DialArgs): seq<string> {
    if Record(args).Some? then [AttrText("record", Record(args).value)] else []
  }

  function MaxDurationText(args: DialArgs): seq<string> {
    if MaxDuration(args).Some? then [AttrText("maxDuration", MaxDuration(args).value)] else []
  }

  function RingbackText(args: DialArgs): seq<string> {
    if Given(args.ringbackTone) then [AttrText("ringbackTone", EscapeXml(args.ringbackTone.value))] else []
  }

  lemma OptionalTexts(args: DialArgs)
    ensures AttrTexts(OptionalAttrs(args)) ==
            CallerText(args) + RecordText(args) + MaxDurationText(args) + RingbackText(args)
  {
    var caller := OptionalAttr("callerId", args.callerId);
    var record := caller + OptionalAttr("record", Record(args));
    var duration := record + OptionalAttr("maxDuration", MaxDuration(args));
    FirstOptionalText("callerId", args.callerId);
    RecordIsPlain(args);
    PlainOptionalText(caller, "record", Record(args));
    MaxDurationIsPlain(args);
    PlainOptionalText(record, "maxDuration", MaxDuration(args));
    OptionalText(duration, "ringbackTone", args.ringbackTone);
  }

  /** The optional attributes of the Dial tag, pushed one after the other. */
  method CollectDialAttrs(args: DialArgs) returns (dialAttrs: seq<string>)
    ensures dialAttrs == AttrTexts(OptionalAttrs(args))
  {
    OptionalTexts(args);
    dialAttrs := [];
    if Given(args.callerId) {
      dialAttrs := dialAttrs + [AttrText("callerId", EscapeXml(args.callerId.value))];
    }
    assert dialAttrs == CallerText(args);
    if args.recordingEnabled {
      dialAttrs := dialAttrs + [AttrText("record", TRUE)];
    }
    assert dialAttrs == CallerText(args) + RecordText(args);
    if args.maxDurationSeconds.Some? && args.maxDurationSeconds.value > 0 {
      dialAttrs := dialAttrs + [AttrText("maxDuration", Decimal(args.maxDurationSeconds.value))];
    }
    assert dialAttrs == CallerText(args) + RecordText(args) + MaxDurationText(args);
    if Given(args.ringbackTone) {
      dialAttrs := dialAttrs + [AttrText("ringbackTone", EscapeXml(args.ringbackTone.value))];
    }
  }

  lemma AttrStringIsPrinted(attrs: seq<Attr>)
    ensures (if |AttrTexts(attrs)| > 0 then " " + Join(AttrTexts(attrs), " ") else "") == PrintAttrs(attrs)
  {
    if attrs != [] {
      JoinedTextsArePrinted(attrs);
    }
  }

  lemma AnnouncementIsPrinted(args: DialArgs)
    ensures var tags :=
              if Given(args.consentAudioUrl) then [PROLOGUE, OPEN_TAG] + [PlayTag(args.consentAudioUrl.value)]
              else if Given(args.consentText) then [PROLOGUE, OPEN_TAG] + [SpokenTag(args.consentText.value)]
              else [PROLOGUE, OPEN_TAG];
            Join(tags, "") == PROLOGUE + OPEN_TAG + PrintElements(Announcement(args))
  {
    OpeningParts();
    if Given(args.consentAudioUrl) {
      PlayIsPrinted(args.consentAudioUrl.value);
      OneMoreTag([PROLOGUE, OPEN_TAG], [], PlayTag(args.consentAudioUrl.value), Play(args.consentAudioUrl.value));
    } else if Given(args.consentText) {
      SpokenIsPrinted(args.consentText.value);
      OneMoreTag([PROLOGUE, OPEN_TAG], [], SpokenTag(args.consentText.value), Spoken(args.consentText.value));
    }
  }

  lemma FinishDial(parts: seq<string>, args: DialArgs, dialTag: string)
    requires Join(parts, "") == PROLOGUE + OPEN_TAG + PrintElements(Announcement(args))
    requires dialTag == DialTag(PrintAttrs(OptionalAttrs(args)), args.destination)
    ensures Join(parts + [dialTag] + [CLOSE_TAG], "") == PrintDocument(DialDocument(args))
  {
    DialIsPrinted(OptionalAttrs(args), args.destination);
    OneMoreTag(parts, Announcement(args), dialTag, Dial(OptionalAttrs(args), args.destination));
    ClosingTag(parts + [dialTag], DialDocument(args));
  }

  method BuildDialResponse(args: DialArgs) returns (xml: string)
    ensures xml == PrintDocument(DialDocument(args))
  {
    var parts := [PROLOGUE, OPEN_TAG];
    AnnouncementIsPrinted(args);
    if Given(args.consentAudioUrl) {
      parts := parts + [PlayTag(args.consentAudioUrl.value)];
    } else if Given(args.consentText) {
      parts := parts + [SpokenTag(args.consentText.value)];
    }
    assert Join(parts, "") == PROLOGUE + OPEN_TAG + PrintElements(Announcement(args));
    var dialAttrs := CollectDialAttrs(args);
    var attrStr := if |dialAttrs| > 0 then " " + Join(dialAttrs, " ") else "";
    AttrStringIsPrinted(OptionalAttrs(args));
    var dialTag := DialTag(attrStr, args.destination);
    FinishDial(parts, args, dialTag);
    parts := parts + [dialTag];
    parts := parts + [CLOSE_TAG];
    xml := Join(parts, "");
  }

  datatype RejectReason = NoSession | Expired | Unauthorized | RateLimited

  function RejectMessage(reason: RejectReason, message: Option<string>): string {
    message.GetOr(
      if reason.Unauthorized? then "This number is not authorized to make this call"
      else "This number is no longer in service")
  }

  function SpeakAndHangUp(text: string): string {
    Join([PROLOGUE, OPEN_TAG, SpokenTag(text), "<Hangup/>", CLOSE_TAG], "")
  }

  function BuildRejectResponse(reason: RejectReason, message: Option<string>): string {
    SpeakAndHangUp(RejectMessage(reason, message))
  }

  function BuildPlayMessageResponse(audioUrl: string, text: Option<string>): string {
    var body :=
      if audioUrl != "" then PlayTag(audioUrl)
      else if Given(text) then SayTag(text.value)
      else "";
    Join([PROLOGUE, OPEN_TAG, body, "<Hangup/>", CLOSE_TAG], "")
  }

  function BuildRedirectResponse(supportPhone: string, callerId: Option<string>): string {
    var callerAttr :=
      if Given(callerId) then " " + AttrText("callerId", EscapeXml(callerId.value)) else "";
    Join([PROLOGUE, OPEN_TAG, DialTag(callerAttr, supportPhone), CLOSE_TAG], "")
  }

  // ------------------------------------------------------ what the provider hears

  function Lookup(attrs: seq<Attr>, name: string): Option<string> {
    if attrs == [] then None
    else if attrs[0].name == name then Some(attrs[0].value)
    else Lookup(attrs[1..], name)
  }

  function GivenPart(o: Option<string>): Option<string> {
    if o == None || o == Some("") then None else o
  }

  lemma {:induction false} LookupSplits(a: seq<Attr>, b: seq<Attr>, name: string)
    ensures Lookup(a + b, name) == if Lookup(a, name).Some? then Lookup(a, name) else Lookup(b, name)
  {
    if a == [] {
      assert a + b == b;
    } else {
      LookupSplits(a[1..], b, name);
      assert (a + b)[1..] == a[1..] + b;
    }
  }

  lemma LookupOptional(wanted: string, name: string, o: Option<string>, more: seq<Attr>)
    ensures Lookup(OptionalAttr(name, o) + more, wanted)
         == if name == wanted && Given(o) then o else Lookup(more, wanted)
  {
    LookupSplits(OptionalAttr(name, o), more, wanted);
  }

  /** Attributes of one tag never shadow one another. */
  lemma DialAttrsLookUp(args: DialArgs, wanted: string)
    ensures Lookup(OptionalAttrs(args) + [Attr("phoneNumbers", args.destination)], wanted)
         == if "callerId" == wanted && Given(args.callerId) then args.callerId
            else if "record" == wanted && Given(Record(args)) then Record(args)
            else if "maxDuration" == wanted && Given(MaxDuration(args)) then MaxDuration(args)
            else if "ringbackTone" == wanted && Given(args.ringbackTone) then args.ringbackTone
            else if "phoneNumbers" == wanted then Some(args.destination)
            else None
  {
    var last := [Attr("phoneNumbers", args.destination)];
    var ringback := OptionalAttr("ringbackTone", args.ringbackTone) + last;
    var duration := OptionalAttr("maxDuration", MaxDuration(args)) + ringback;
    var record := OptionalAttr("record", Record(args)) + duration;
    var caller := OptionalAttr("callerId", args.callerId) + record;
    assert OptionalAttrs(args) + last == caller;
    LookupOptional(wanted, "callerId", args.callerId, record);
    LookupOptional(wanted, "record", Record(args), duration);
    LookupOptional(wanted, "maxDuration", MaxDuration(args), ringback);
    LookupOptional(wanted, "ringbackTone", args.ringbackTone, last);
  }

  /** The Dial tag a reader finds, and the attributes it carries. */
  predicate Asks(dial: Element, args: DialArgs) {
    && dial.name == "Dial" && dial.text == None
    && Lookup(dial.attrs, "phoneNumbers") == Some(args.destination)
    && Lookup(dial.attrs, "callerId") == GivenPart(args.callerId)
    && (Lookup(dial.attrs, "record") == Some("true") <==> args.recordingEnabled)
    && Lookup(dial.attrs, "ringbackTone") == GivenPart(args.ringbackTone)
    && (Lookup(dial.attrs, "maxDuration").Some? <==> args.maxDurationSeconds.GetOr(0) > 0)
    && (Lookup(dial.attrs, "maxDuration").Some? ==>
          ReadDecimal(Lookup(dial.attrs, "maxDuration").value) == args.maxDurationSeconds.value)
  }

  lemma DurationIsGiven(args: DialArgs)
    ensures MaxDuration(args).Some? ==> Given(MaxDuration(args))
  {
  }

  lemma DialAsks(args: DialArgs)
    ensures Asks(Dial(OptionalAttrs(args), args.destination), args)
  {
    DialAttrsLookUp(args, "phoneNumbers");
    DialAttrsLookUp(args, "callerId");
    DialAttrsLookUp(args, "record");
    DialAttrsLookUp(args, "ringbackTone");
    DialAttrsLookUp(args, "maxDuration");
    DurationIsGiven(args);
    if args.maxDurationSeconds.GetOr(0) > 0 {
      DecimalRoundTrips(args.maxDurationSeconds.value);
    }
  }

  predicate Letters(n: string) {
    n != "" && forall i :: 0 <= i < |n| ==> 'A' <= n[i] <= 'z'
  }

  lemma LettersMakeNames(n: string)
    requires Letters(n)
    ensures IsName(n)
  {
  }

  lemma ElementNames()
    ensures IsName("Play") && IsName("Say") && IsName("Dial") && IsName("Hangup")
  {
    LettersMakeNames("Play");
    LettersMakeNames("Say");
    LettersMakeNames("Dial");
    LettersMakeNames("Hangup");
  }

  lemma AttrNames()
    ensures IsName("url") && IsName("voice") && IsName("phoneNumbers")
    ensures IsName("callerId") && IsName("record") && IsName("maxDuration") && IsName("ringbackTone")
  {
    LettersMakeNames("url");
    LettersMakeNames("voice");
    LettersMakeNames("phoneNumbers");
    LettersMakeNames("callerId");
    LettersMakeNames("record");
    LettersMakeNames("maxDuration");
    LettersMakeNames("ringbackTone");
  }

  lemma OptionalAttrsAreNamed(args: DialArgs)
    ensures forall a :: a in OptionalAttrs(args) ==> IsName(a.name)
  {
    AttrNames();
  }

  lemma AnnouncementIsWellNamed(args: DialArgs)
    ensures forall e :: e in Announcement(args) ==> WellNamed(e)
  {
    ElementNames();
    AttrNames();
  }

  lemma DialIsWellNamed(args: DialArgs)
    ensures WellNamed(Dial(OptionalAttrs(args), args.destination))
  {
    ElementNames();
    AttrNames();
    OptionalAttrsAreNamed(args);
  }

  lemma DialDocumentIsWellNamed(args: DialArgs)
    ensures forall e :: e in DialDocument(args) ==> WellNamed(e)
  {
    AnnouncementIsWellNamed(args);
    DialIsWellNamed(args);
  }

  /** What is announced before the call: audio if there is any, else words if there
      are any. An empty string is none. */
  function Announced(args: DialArgs): seq<Element> {
    if args.consentAudioUrl.Some? && args.consentAudioUrl.value != "" then
      [Element("Play", [Attr("url", args.consentAudioUrl.value)], None)]
    else if args.consentText.Some? && args.consentText.value != "" then
      [Element("Say", [Attr("voice", "woman")], args.consentText)]
    else []
  }

  lemma AnnouncedIsAnnouncement(args: DialArgs)
    ensures Announced(args) == Announcement(args)
  {
  }

  /** What was asked for is what a reader of the answer finds: every argument is
      recovered, for all strings, and an absent one leaves no trace. */
  lemma DialIsUnderstood(args: DialArgs)
    ensures var read := ReadDocument(PrintDocument(DialDocument(args)));
      && read.Some? && read.value != []
      && read.value[..|read.value| - 1] == Announced(args)
      && Asks(read.value[|read.value| - 1], args)
  {
    AnnouncedIsAnnouncement(args);
    var doc := DialDocument(args);
    DialDocumentIsWellNamed(args);
    DocumentIsRead(doc);
    DialAsks(args);
    assert doc[|doc| - 1] == Dial(OptionalAttrs(args), args.destination);
  }

  /** Two calls that produce the same answer asked for the same thing. */
  lemma SameAnswerSameRequest(a: DialArgs, b: DialArgs)
    requires PrintDocument(DialDocument(a)) == PrintDocument(DialDocument(b))
    ensures a.destination == b.destination && a.recordingEnabled == b.recordingEnabled
    ensures GivenPart(a.callerId) == GivenPart(b.callerId)
    ensures GivenPart(a.ringbackTone) == GivenPart(b.ringbackTone)
    ensures Announced(a) == Announced(b)
    ensures a.maxDurationSeconds.GetOr(0) > 0 ==> a.maxDurationSeconds == b.maxDurationSeconds
    ensures b.maxDurationSeconds.GetOr(0) > 0 ==> a.maxDurationSeconds == b.maxDurationSeconds
  {
    DialIsUnderstood(a);
    DialIsUnderstood(b);
    var read := ReadDocument(PrintDocument(DialDocument(a))).value;
    assert Announced(a) == read[..|read| - 1];
    assert Announced(b) == read[..|read| - 1];
  }

  lemma HangupIsPrinted()
    ensures "<Hangup/>" == PrintElement(HANGUP)
  {
  }

  lemma FiveParts(body: string, tag: string)
    ensures Join([PROLOGUE, OPEN_TAG, body, tag, CLOSE_TAG], "") == PROLOGUE + OPEN_TAG + body + tag + CLOSE_TAG
  {
    OpeningParts();
    OneMorePart([PROLOGUE, OPEN_TAG], body);
    OneMorePart([PROLOGUE, OPEN_TAG, body], tag);
    OneMorePart([PROLOGUE, OPEN_TAG, body, tag], CLOSE_TAG);
    assert [PROLOGUE, OPEN_TAG] + [body] == [PROLOGUE, OPEN_TAG, body];
    assert [PROLOGUE, OPEN_TAG, body] + [tag] == [PROLOGUE, OPEN_TAG, body, tag];
    assert [PROLOGUE, OPEN_TAG, body, tag] + [CLOSE_TAG] == [PROLOGUE, OPEN_TAG, body, tag, CLOSE_TAG];
  }

  lemma BodyThenHangup(body: string, es: seq<Element>)
    requires body == PrintElements(es)
    ensures Join([PROLOGUE, OPEN_TAG, body, "<Hangup/>", CLOSE_TAG], "") == PrintDocument(es + [HANGUP])
  {
    var tag := PrintElement(HANGUP);
    HangupIsPrinted();
    FiveParts(body, tag);
    PrintLastElement(es, HANGUP);
    Associate(PROLOGUE, OPEN_TAG, body + tag, CLOSE_TAG);
    Associate(PROLOGUE + OPEN_TAG, body, tag, CLOSE_TAG);
  }

  lemma PrintOneElement(e: Element)
    ensures PrintElements([e]) == PrintElement(e)
  {
    assert [e][1..] == [];
  }

  lemma SpokenThenHangup(text: string)
    ensures SpeakAndHangUp(text) == PrintDocument([Spoken(text)] + [HANGUP])
  {
    SpokenIsPrinted(text);
    PrintOneElement(Spoken(text));
    BodyThenHangup(SpokenTag(text), [Spoken(text)]);
  }

  lemma SpokenThenHangupAreNamed(text: string)
    ensures forall e :: e in [Spoken(text), HANGUP] ==> WellNamed(e)
  {
    ElementNames();
    AttrNames();
  }

  lemma SpokenIsUnderstood(text: string)
    ensures ReadDocument(SpeakAndHangUp(text)) == Some([Spoken(text), HANGUP])
  {
    SpokenThenHangup(text);
    SpokenThenHangupAreNamed(text);
    assert [Spoken(text)] + [HANGUP] == [Spoken(text), HANGUP];
    DocumentIsRead([Spoken(text), HANGUP]);
  }

  function RejectWords(reason: RejectReason, message: Option<string>): string {
    match message
    case Some(words) => words
    case None =>
      match reason
      case Unauthorized => "This number is not authorized to make this call"
      case _ => "This number is no longer in service"
  }

  lemma RejectWordsAreSpoken(reason: RejectReason, message: Option<string>)
    ensures RejectWords(reason, message) == RejectMessage(reason, message)
  {
  }

  /** Any message, the caller's or the default, is spoken word for word. */
  lemma RejectIsUnderstood(reason: RejectReason, message: Option<string>)
    ensures ReadDocument(BuildRejectResponse(reason, message)) ==
            Some([Element("Say", [Attr("voice", "woman")], Some(RejectWords(reason, message))),
                  Element("Hangup", [], None)])
  {
    RejectWordsAreSpoken(reason, message);
    SpokenIsUnderstood(RejectMessage(reason, message));
  }

  function Said(text: string): Element {
    Element("Say", [], Some(text))
  }

  /** Audio when there is a recording, else the text, else nothing. */
  function Message(audioUrl: string, text: Option<string>): seq<Element> {
    if audioUrl != "" then [Play(audioUrl)] else if Given(text) then [Said(text.value)] else []
  }

  lemma SaidIsPrinted(text: string)
    ensures SayTag(text) == PrintElement(Said(text))
  {
    assert "<Say>" == "<" + "Say" + "" + ">";
    assert "</Say>" == "</" + "Say" + ">";
  }

  lemma PlayMessageIsUnderstood(audioUrl: string, text: Option<string>)
    ensures ReadDocument(BuildPlayMessageResponse(audioUrl, text)) ==
            Some((if audioUrl != "" then [Element("Play", [Attr("url", audioUrl)], None)]
                  else if text.Some? && text.value != "" then [Element("Say", [], text)]
                  else []) + [Element("Hangup", [], None)])
  {
    var message := Message(audioUrl, text);
    if audioUrl != "" {
      PlayIsPrinted(audioUrl);
      PrintOneElement(Play(audioUrl));
    } else if Given(text) {
      SaidIsPrinted(text.value);
      PrintOneElement(Said(text.value));
    }
    BodyThenHangup(PrintElements(message), message);
    ElementNames();
    AttrNames();
    DocumentIsRead(message + [HANGUP]);
  }

  lemma RedirectIsPrinted(supportPhone: string, callerId: Option<string>)
    ensures BuildRedirectResponse(supportPhone, callerId)
         == PrintDocument([Dial(OptionalAttr("callerId", callerId), supportPhone)])
  {
    var attrs := OptionalAttr("callerId", callerId);
    var dial := Dial(attrs, supportPhone);
    if Given(callerId) {
      PrintOnlyAttr(Attr("callerId", callerId.value));
    }
    var tag := DialTag(PrintAttrs(attrs), supportPhone);
    DialIsPrinted(attrs, supportPhone);
    OpeningParts();
    OneMoreTag([PROLOGUE, OPEN_TAG], [], tag, dial);
    assert [PROLOGUE, OPEN_TAG] + [tag] == [PROLOGUE, OPEN_TAG, tag];
    assert [PROLOGUE, OPEN_TAG, tag] + [CLOSE_TAG] == [PROLOGUE, OPEN_TAG, tag, CLOSE_TAG];
    assert [] + [dial] == [dial];
    ClosingTag([PROLOGUE, OPEN_TAG, tag], [dial]);
  }

  lemma RedirectIsUnderstood(supportPhone: string, callerId: Option<string>)
    ensures ReadDocument(BuildRedirectResponse(supportPhone, callerId)) ==
            Some([Element("Dial",
                          (if callerId.Some? && callerId.value != "" then [Attr("callerId", callerId.value)] else [])
                          + [Attr("phoneNumbers", supportPhone)], None)])
  {
    RedirectIsPrinted(supportPhone, callerId);
    ElementNames();
    AttrNames();
    DocumentIsRead([Dial(OptionalAttr("callerId", callerId), supportPhone)]);
  }
}
