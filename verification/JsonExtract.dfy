/** The brace-matching scanner that finds a JSON object inside free text
    (src/hubspot_agent/planning.py, `_extract_json`), and a printer for RFC 8259 texts. */
module JsonExtract {
  import opened Wrappers

  // ----- The scanner, one character at a time -----

  /** The three loop variables, or `Closed` once the depth has come back to zero. */
  datatype Scanner = Scanning(depth: int, inString: bool, escape: bool) | Closed

  function Next(st: Scanner, ch: char): Scanner {
    match st
    case Closed => Closed
    case Scanning(depth, inString, escape) =>
      if escape then Scanning(depth, inString, false)
      else if ch == '\\' && inString then Scanning(depth, inString, true)
      else if ch == '"' then Scanning(depth, !inString, false)
      else if inString then st
      else if ch == '{' || ch == '[' then Scanning(depth + 1, false, false)
      else if ch == '}' || ch == ']' then
        if depth - 1 == 0 then Closed else Scanning(depth - 1, false, false)
      else st
  }

  function Feed(st: Scanner, text: string): Scanner
    decreases |text|
  {
    if text == "" then st else Feed(Next(st, text[0]), text[1..])
  }

  const START := Scanning(0, false, false)

  /** `end` is the first cut of `text` at which the scanner closes. */
  ghost predicate ClosesFirstAt(text: string, end: nat) {
    && end <= |text|
    && Feed(START, text[..end]) == Closed
    && forall k: nat :: k < end ==> Feed(START, text[..k]) != Closed
  }

  lemma {:induction false} FeedConcat(st: Scanner, a: string, b: string)
    ensures Feed(st, a + b) == Feed(Feed(st, a), b)
    decreases |a|
  {
    if a == "" {
      assert a + b == b;
    } else {
      assert (a + b)[1..] == a[1..] + b;
      FeedConcat(Next(st, a[0]), a[1..], b);
    }
  }

  lemma {:induction false} ClosedAbsorbs(text: string)
    ensures Feed(Closed, text) == Closed
  {
    if text != "" { ClosedAbsorbs(text[1..]); }
  }

  lemma FeedSnoc(st: Scanner, text: string, k: nat)
    requires k < |text|
    ensures Feed(st, text[..k + 1]) == Next(Feed(st, text[..k]), text[k])
  {
    assert text[..k + 1] == text[..k] + [text[k]];
    FeedConcat(st, text[..k], [text[k]]);
    assert [text[k]][1..] == "";
  }

  /** `start` is where `candidate.find("{")` lands. */
  ghost predicate FirstBraceAt(text: string, start: nat) {
    && start < |text| && text[start] == '{'
    && forall k: nat :: k < start ==> text[k] != '{'
  }

  /** What `_extract_json` answers: the text from the first `{` to the first close, if there is one. */
  ghost predicate Extracts(candidate: string, r: Option<string>) {
    match r
    case Some(text) =>
      exists start: nat, end: nat ::
        && FirstBraceAt(candidate, start)
        && ClosesFirstAt(candidate[start..], end)
        && text == candidate[start..][..end]
    case None =>
      forall start: nat, end: nat ::
        FirstBraceAt(candidate, start) ==> !ClosesFirstAt(candidate[start..], end)
  }

  /** `_extract_json` after the fence and `strip()`: find the first `{`, then scan. */
  method ExtractJson(candidate: string) returns (r: Option<string>)
    ensures Extracts(candidate, r)
  {
    var start := 0;
    while start < |candidate| && candidate[start] != '{'
      invariant 0 <= start <= |candidate|
      invariant forall k: nat :: k < start ==> candidate[k] != '{'
    {
      start := start + 1;
    }
    if start == |candidate| {
      return None;
    }
    var depth, inString, escape := 0, false, false;
    var idx := start;
    ghost var rest := candidate[start..];
    while idx < |candidate|
      invariant start <= idx <= |candidate|
      invariant Feed(START, rest[..idx - start]) == Scanning(depth, inString, escape)
      invariant forall k: nat :: k <= idx - start ==> Feed(START, rest[..k]) != Closed
    {
      var ch := candidate[idx];
      FeedSnoc(START, rest, idx - start);
      if escape {
        escape := false;
      } else if ch == '\\' && inString {
        escape := true;
      } else if ch == '"' && !inString {
        inString := true;
      } else if ch == '"' && inString {
        inString := false;
      } else if !inString {
        if ch == '{' || ch == '[' {
          depth := depth + 1;
        } else if ch == '}' || ch == ']' {
          depth := depth - 1;
          if depth == 0 {
            assert ClosesFirstAt(rest, idx + 1 - start);
            assert rest[..idx + 1 - start] == candidate[start..idx + 1];
            return Some(candidate[start..idx + 1]);
          }
        }
      }
      idx := idx + 1;
    }
    return None;
  }

  /** The answer is determined by the text. */
  lemma ExtractsUnique(candidate: string, r: Option<string>, r': Option<string>)
    requires Extracts(candidate, r) && Extracts(candidate, r')
    ensures r == r'
  {
    if r.Some? && r'.Some? {
      var s: nat, e: nat :| FirstBraceAt(candidate, s) && ClosesFirstAt(candidate[s..], e) && r.value == candidate[s..][..e];
      var s': nat, e': nat :| FirstBraceAt(candidate, s') && ClosesFirstAt(candidate[s'..], e') && r'.value == candidate[s'..][..e'];
      assert s == s' && e == e';
    }
  }

  // ----- JSON texts of RFC 8259: every choice of whitespace and string escape -----

  /** One character of a string as section 7 of RFC 8259 lets it be written. */
  datatype StringChar =
    | Plain(c: char)                                // unescaped
    | Short(c: char)                                // \" \\ \/ \b \f \n \r \t
    | Unicode(h0: char, h1: char, h2: char, h3: char) // \uXXXX

  datatype Json =
    | Scalar(text: string)                          // number, true, false, null
    | Text(chars: seq<StringChar>)
    | Array(open: string, items: Items)             // `open`: whitespace after '['
    | Object(open: string, members: Members)        // `open`: whitespace after '{'

  /** A value with the whitespace around it; the comma comes before every later item. */
  datatype Items = NoItem | Item(before: string, value: Json, after: string, rest: Items)

  datatype Members =
    | NoMember
    | Member(w0: string, key: seq<StringChar>, w1: string, w2: string, value: Json, w3: string, rest: Members)

  predicate IsHex(c: char) { '0' <= c <= '9' || 'a' <= c <= 'f' || 'A' <= c <= 'F' }

  predicate Blank(s: string) { forall c <- s :: c in " \t\n\r" }

  predicate WellFormedChar(c: StringChar) {
    match c
    case Plain(x) => x >= ' ' && x != '"' && x != '\\'
    case Short(x) => x in "\"\\/bfnrt"
    case Unicode(a, b, d, e) => IsHex(a) && IsHex(b) && IsHex(d) && IsHex(e)
  }

  predicate WellFormed(v: Json) {
    match v
    case Scalar(t) => forall c <- t :: IsHex(c) || c in "-+.trunlsE"
    case Text(cs) => forall c <- cs :: WellFormedChar(c)
    case Array(w, items) => Blank(w) && WellFormedItems(items)
    case Object(w, members) => Blank(w) && WellFormedMembers(members)
  }

  predicate WellFormedItems(items: Items) {
    match items
    case NoItem => true
    case Item(w0, v, w1, rest) => Blank(w0) && WellFormed(v) && Blank(w1) && WellFormedItems(rest)
  }

  predicate WellFormedMembers(ms: Members) {
    match ms
    case NoMember => true
    case Member(w0, key, w1, w2, v, w3, rest) =>
      && Blank(w0) && Blank(w1) && Blank(w2) && Blank(w3)
      && (forall c <- key :: WellFormedChar(c)) && WellFormed(v) && WellFormedMembers(rest)
  }

  function PrintChar(c: StringChar): string {
    match c
    case Plain(x) => [x]
    case Short(x) => ['\\', x]
    case Unicode(a, b, d, e) => ['\\', 'u', a, b, d, e]
  }

  function PrintChars(cs: seq<StringChar>): string {
    if cs == [] then "" else PrintChar(cs[0]) + PrintChars(cs[1..])
  }

  function PrintString(cs: seq<StringChar>): string {
    "\"" + PrintChars(cs) + "\""
  }

  function Print(v: Json): string {
    match v
    case Scalar(t) => t
    case Text(cs) => PrintString(cs)
    case Array(w, items) => "[" + (w + PrintItems(items, true)) + "]"
    case Object(w, members) => "{" + (w + PrintMembers(members, true)) + "}"
  }

  function PrintItems(items: Items, first: bool): string {
    match items
    case NoItem => ""
    case Item(w0, v, w1, rest) =>
      (if first then "" else ",") + (w0 + (Print(v) + (w1 + PrintItems(rest, false))))
  }

  function PrintMembers(ms: Members, first: bool): string {
    match ms
    case NoMember => ""
    case Member(w0, key, w1, w2, v, w3, rest) =>
      (if first then "" else ",") +
      (w0 + (PrintString(key) + (w1 + (":" + (w2 + (Print(v) + (w3 + PrintMembers(rest, false))))))))
  }

  // ----- A printed value leaves the scanner where it found it -----

  /** Outside a string at some positive depth, `text` brings the scanner back to the same state. */
  ghost predicate Neutral(text: string) {
    forall d: int {:trigger Scanning(d, false, false)} | d >= 1 ::
      Feed(Scanning(d, false, false), text) == Scanning(d, false, false)
  }

  lemma NeutralConcat(a: string, b: string)
    requires Neutral(a) && Neutral(b)
    ensures Neutral(a + b)
  {
    forall d: int | d >= 1
      ensures Feed(Scanning(d, false, false), a + b) == Scanning(d, false, false)
    {
      FeedConcat(Scanning(d, false, false), a, b);
    }
  }

  /** Text without quotes or brackets is neutral: whitespace, numbers, literals, `,` and `:`. */
  lemma {:induction false} InertIsNeutral(text: string)
    requires forall c <- text :: c !in "\"{}[]"
    ensures Neutral(text)
  {
    if text != "" {
      InertIsNeutral(text[1..]);
      forall d: int | d >= 1
        ensures Feed(Scanning(d, false, false), text) == Scanning(d, false, false)
      {
        assert text[0] in text;
        assert Next(Scanning(d, false, false), text[0]) == Scanning(d, false, false);
      }
    }
  }

  lemma {:induction false} CharsStayInString(d: int, cs: seq<StringChar>)
    requires d >= 1 && forall c <- cs :: WellFormedChar(c)
    ensures Feed(Scanning(d, true, false), PrintChars(cs)) == Scanning(d, true, false)
  {
    if cs != [] {
      var st := Scanning(d, true, false);
      var one := PrintChar(cs[0]);
      assert WellFormedChar(cs[0]);
      FeedConcat(st, one, PrintChars(cs[1..]));
      CharsStayInString(d, cs[1..]);
      assert Feed(st, one) == st by {
        match cs[0] {
          case Plain(x) => assert Feed(st, [x]) == Next(st, x);
          case Short(x) =>
            assert one[1..] == [x];
            assert Feed(st, one) == Feed(Next(st, '\\'), [x]);
            assert [x][1..] == "";
          case Unicode(a, b, e, f) =>
            FeedConcat(st, ['\\', 'u'], [a, b, e, f]);
            assert one == ['\\', 'u'] + [a, b, e, f];
            assert ['\\', 'u'][1..] == ['u'] && ['u'][1..] == "";
            assert Feed(st, ['\\', 'u']) == Feed(Next(st, '\\'), ['u']) == Next(Next(st, '\\'), 'u');
            HexStaysInString(st, [a, b, e, f]);
        }
      }
    }
  }

  lemma {:induction false} HexStaysInString(st: Scanner, text: string)
    requires st.Scanning? && st.inString && !st.escape && forall c <- text :: IsHex(c)
    ensures Feed(st, text) == st
  {
    if text != "" {
      assert IsHex(text[0]);
      HexStaysInString(st, text[1..]);
    }
  }

  lemma StringIsNeutral(cs: seq<StringChar>)
    requires forall c <- cs :: WellFormedChar(c)
    ensures Neutral(PrintString(cs))
  {
    forall d: int | d >= 1
      ensures Feed(Scanning(d, false, false), PrintString(cs)) == Scanning(d, false, false)
    {
      var st := Scanning(d, false, false);
      assert PrintString(cs) == "\"" + (PrintChars(cs) + "\"");
      FeedConcat(st, "\"", PrintChars(cs) + "\"");
      assert "\""[1..] == "";
      FeedConcat(Scanning(d, true, false), PrintChars(cs), "\"");
      CharsStayInString(d, cs);
    }
  }

  lemma OneChar(st: Scanner, c: char)
    ensures Feed(st, [c]) == Next(st, c)
  {
    assert [c][1..] == "";
  }

  /** An inner text in either bracket: one level down, and back. */
  lemma BracketsAreNeutral(open: char, inner: string, close: char)
    requires Neutral(inner) && open in "{[" && close in "}]"
    ensures Neutral([open] + inner + [close])
  {
    forall d: int | d >= 1
      ensures Feed(Scanning(d, false, false), [open] + inner + [close]) == Scanning(d, false, false)
    {
      BracketsReturn(open, inner, close, d);
    }
  }

  lemma BracketsReturn(open: char, inner: string, close: char, d: int)
    requires d >= 1 && open in "{[" && close in "}]"
    requires Feed(Scanning(d + 1, false, false), inner) == Scanning(d + 1, false, false)
    ensures Feed(Scanning(d, false, false), [open] + inner + [close]) == Scanning(d, false, false)
  {
    FeedConcat(Scanning(d, false, false), [open] + inner, [close]);
    FeedConcat(Scanning(d, false, false), [open], inner);
    OneChar(Scanning(d, false, false), open);
    OneChar(Scanning(d + 1, false, false), close);
  }

  lemma {:induction false} PrintedIsNeutral(v: Json)
    requires WellFormed(v)
    ensures Neutral(Print(v))
    decreases v
  {
    match v
    case Scalar(t) => InertIsNeutral(t);
    case Text(cs) => StringIsNeutral(cs);
    case Array(w, items) =>
      ItemsAreNeutral(items, true);
      InertIsNeutral(w);
      NeutralConcat(w, PrintItems(items, true));
      BracketsAreNeutral('[', w + PrintItems(items, true), ']');
    case Object(w, members) =>
      MembersAreNeutral(members, true);
      InertIsNeutral(w);
      NeutralConcat(w, PrintMembers(members, true));
      BracketsAreNeutral('{', w + PrintMembers(members, true), '}');
  }

  lemma {:induction false} ItemsAreNeutral(items: Items, first: bool)
    requires WellFormedItems(items)
    ensures Neutral(PrintItems(items, first))
    decreases items
  {
    match items
    case NoItem =>
      InertIsNeutral("");
    case Item(w0, v, w1, rest) =>
      var comma := if first then "" else ",";
      ItemsAreNeutral(rest, false);
      PrintedIsNeutral(v);
      InertIsNeutral(comma); InertIsNeutral(w0); InertIsNeutral(w1);
      var tail := w1 + PrintItems(rest, false);
      NeutralConcat(w1, PrintItems(rest, false));
      NeutralConcat(Print(v), tail);
      NeutralConcat(w0, Print(v) + tail);
      NeutralConcat(comma, w0 + (Print(v) + tail));
  }

  lemma {:induction false} MembersAreNeutral(ms: Members, first: bool)
    requires WellFormedMembers(ms)
    ensures Neutral(PrintMembers(ms, first))
    decreases ms
  {
    match ms
    case NoMember =>
      InertIsNeutral("");
    case Member(w0, key, w1, w2, v, w3, rest) =>
      MembersAreNeutral(rest, false);
      PrintedIsNeutral(v);
      StringIsNeutral(key);
      InertIsNeutral(if first then "" else ",");
      InertIsNeutral(w0); InertIsNeutral(w1); InertIsNeutral(":"); InertIsNeutral(w2); InertIsNeutral(w3);
      var value := w2 + (Print(v) + (w3 + PrintMembers(rest, false)));
      NeutralConcat4(w2, Print(v), w3, PrintMembers(rest, false));
      NeutralConcat4(PrintString(key), w1, ":", value);
      NeutralConcat(w0, PrintString(key) + (w1 + (":" + value)));
      NeutralConcat(if first then "" else ",", w0 + (PrintString(key) + (w1 + (":" + value))));
  }

  lemma NeutralConcat4(a: string, b: string, c: string, d: string)
    requires Neutral(a) && Neutral(b) && Neutral(c) && Neutral(d)
    ensures Neutral(a + (b + (c + d)))
  {
    NeutralConcat(c, d);
    NeutralConcat(b, c + d);
    NeutralConcat(a, b + (c + d));
  }

  // ----- Main results -----

  /** A printed object closes exactly at its end: no proper prefix closes, however it is cut. */
  lemma PrintedObjectClosesAtEnd(v: Json, suffix: string)
    requires v.Object? && WellFormed(v)
    ensures ClosesFirstAt(Print(v) + suffix, |Print(v)|)
  {
    var text := Print(v);
    var inner := v.open + PrintMembers(v.members, true);
    var body := "{" + inner;
    assert text == body + "}";
    PrintedBodyIsOpen(v);
    FeedConcat(START, body, "}");
    assert "}"[1..] == "";
    assert (text + suffix)[..|text|] == text;
    forall k: nat | k < |text|
      ensures Feed(START, (text + suffix)[..k]) != Closed
    {
      assert (text + suffix)[..k] == body[..k];
      assert body == body[..k] + body[k..];
      FeedConcat(START, body[..k], body[k..]);
      ClosedAbsorbs(body[k..]);
    }
  }

  lemma PrintedBodyIsOpen(v: Json)
    requires v.Object? && WellFormed(v)
    ensures Feed(START, "{" + (v.open + PrintMembers(v.members, true))) == Scanning(1, false, false)
  {
    var inner := v.open + PrintMembers(v.members, true);
    MembersAreNeutral(v.members, true);
    InertIsNeutral(v.open);
    NeutralConcat(v.open, PrintMembers(v.members, true));
    FeedConcat(START, "{", inner);
    assert "{"[1..] == "";
    assert Feed(START, "{") == Scanning(1, false, false);
  }

  /** Extraction undoes printing, whatever text surrounds the object. */
  lemma ExtractionUndoesPrinting(prefix: string, v: Json, suffix: string)
    requires v.Object? && WellFormed(v) && '{' !in prefix
    ensures Extracts(prefix + Print(v) + suffix, Some(Print(v)))
  {
    var all := prefix + Print(v) + suffix;
    PrintedObjectClosesAtEnd(v, suffix);
    assert all[|prefix|..] == Print(v) + suffix;
    assert Print(v)[0] == '{' == all[|prefix|];
    assert FirstBraceAt(all, |prefix|);
    assert (Print(v) + suffix)[..|Print(v)|] == Print(v);
  }

  /** An object that is cut off anywhere is never returned, not even in part. */
  lemma CutObjectIsNotExtracted(prefix: string, v: Json, cut: nat)
    requires v.Object? && WellFormed(v) && '{' !in prefix && cut < |Print(v)|
    ensures Extracts(prefix + Print(v)[..cut], None)
  {
    var text := Print(v);
    var part := prefix + text[..cut];
    PrintedObjectClosesAtEnd(v, "");
    assert text + "" == text;
    assert Print(v)[0] == '{';
    assert forall k: nat :: k < |prefix| ==> part[k] in prefix;
    assert cut > 0 ==> part[|prefix|] == '{';
    forall start: nat, end: nat | FirstBraceAt(part, start) && end <= |part| - start
      ensures Feed(START, part[start..][..end]) != Closed
    {
      assert start == |prefix|;
      assert part[start..][..end] == text[..end];
    }
  }
}
