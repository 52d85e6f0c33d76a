/** The rules for quotes, brackets, parentheses and escapes that the three scanners of the translator share: cutting a
    selector list at its commas, a branch at its last double colon, and a base into compounds and combinators.  Text
    in which no scanner stops, and which leaves no trace behind it, is called quiet.  What that means is said without
    the scanner: texts nested as their quotes, brackets and parentheses show are quiet unless they have a character to
    stop at outside all of them. */
module CssScan {
  import opened Wrappers
  import opened Text
  import opened CssLang

  // ---------- the scanner ----------

  datatype Kind = Commas | Colons | Spaces

  datatype Scan = Scan(quote: Option<char>, paren: nat, bracket: nat, escaped: bool)

  const CLEAN := Scan(None, 0, 0, false)

  /** The scan after one more character.  The step scanner does not count parentheses. */
  function Next(kind: Kind, s: Scan, c: char): Scan {
    if s.escaped then s.(escaped := false)
    else if c == '\\' then s.(escaped := true)
    else if s.quote.Some? then if c == s.quote.value then s.(quote := None) else s
    else if c == '\'' || c == '"' then s.(quote := Some(c))
    else if c == '(' && kind != Spaces then s.(paren := s.paren + 1)
    else if c == ')' && kind != Spaces then s.(paren := if s.paren > 0 then s.paren - 1 else 0)
    else if c == '[' then s.(bracket := s.bracket + 1)
    else if c == ']' then s.(bracket := if s.bracket > 0 then s.bracket - 1 else 0)
    else s
  }

  predicate IsStop(kind: Kind, c: char) {
    match kind case Commas => c == ',' case Colons => c == ':' case Spaces => c == '>' || IsSpace(c)
  }

  /** The character is seen outside quotes, brackets and parentheses, and ends a piece. */
  predicate Stops(kind: Kind, s: Scan, c: char) {
    s == CLEAN && IsStop(kind, c)
  }

  /** The scan after a text. */
  function After(kind: Kind, s: Scan, t: string): Scan
    decreases t
  {
    if t == "" then s else After(kind, Next(kind, s, t[0]), t[1..])
  }

  /** No character of the text stops the scan. */
  predicate NoStop(kind: Kind, s: Scan, t: string)
    decreases t
  {
    t == "" || (!Stops(kind, s, t[0]) && NoStop(kind, Next(kind, s, t[0]), t[1..]))
  }

  /** A text that the scan passes over without stopping and without lasting effect. */
  predicate Quiet(kind: Kind, t: string) {
    NoStop(kind, CLEAN, t) && After(kind, CLEAN, t) == CLEAN
  }

  lemma {:induction false} ScanAppend(kind: Kind, s: Scan, a: string, b: string)
    ensures After(kind, s, a + b) == After(kind, After(kind, s, a), b)
    ensures NoStop(kind, s, a + b) <==> NoStop(kind, s, a) && NoStop(kind, After(kind, s, a), b)
    decreases a
  {
    if a == "" {
      assert a + b == b;
    } else {
      assert (a + b)[1..] == a[1..] + b;
      ScanAppend(kind, Next(kind, s, a[0]), a[1..], b);
    }
  }

  lemma QuietAppend(kind: Kind, a: string, b: string)
    requires Quiet(kind, a) && Quiet(kind, b)
    ensures Quiet(kind, a + b)
  {
    ScanAppend(kind, CLEAN, a, b);
  }

  lemma CharQuiet(kind: Kind, c: char)
    requires Next(kind, CLEAN, c) == CLEAN && !IsStop(kind, c)
    ensures Quiet(kind, [c])
  {
    assert [c][1..] == "";
  }

  // ---------- nested text ----------

  /** Text as its quotes, brackets, parentheses and escapes nest it. */
  datatype Item =
    | Char(c: char)
    | Escape(c: char)
    | Quoted(quote: char, body: seq<Item>)
    | Brackets(body: seq<Item>)
    | Parens(body: seq<Item>)

  function ShowItem(item: Item): string {
    match item
    case Char(c) => [c]
    case Escape(c) => ['\\', c]
    case Quoted(q, body) => [q] + ShowItems(body) + [q]
    case Brackets(body) => "[" + ShowItems(body) + "]"
    case Parens(body) => "(" + ShowItems(body) + ")"
  }

  function ShowItems(items: seq<Item>): string {
    if items == [] then "" else ShowItem(items[0]) + ShowItems(items[1..])
  }

  predicate IsQuotedChar(quote: char, item: Item) {
    item.Escape? || (item.Char? && item.c != quote && item.c != '\\')
  }

  /** `inside` brackets or parentheses any character may stand that does not open or close; outside, none that ends
      a piece.  To the step scanner parentheses are characters like others. */
  predicate WellNested(kind: Kind, item: Item, inside: bool) {
    match item
    case Char(c) =>
      && c != '\\' && !IsQuote(c) && c != '[' && c != '('
      && (if inside then c != ']' && c != ')' else !IsStop(kind, c))
    case Escape(c) => true
    case Quoted(q, body) => IsQuote(q) && forall b :: b in body ==> IsQuotedChar(q, b)
    case Brackets(body) => forall b :: b in body ==> WellNested(kind, b, true)
    case Parens(body) => forall b :: b in body ==> WellNested(kind, b, inside || kind != Spaces)
  }

  predicate AllNested(kind: Kind, items: seq<Item>, inside: bool) {
    forall item :: item in items ==> WellNested(kind, item, inside)
  }

  /** A state between items, outside quotes. */
  predicate Between(s: Scan, inside: bool) {
    s.quote.None? && !s.escaped && (if inside then s.bracket > 0 || s.paren > 0 else s == CLEAN)
  }

  /** No stop in `t`, which takes the scan from one state to another. */
  predicate Passes(kind: Kind, s: Scan, t: string, s': Scan) {
    NoStop(kind, s, t) && After(kind, s, t) == s'
  }

  lemma PassesBoth(kind: Kind, s: Scan, a: string, s': Scan, b: string, s'': Scan)
    requires Passes(kind, s, a, s') && Passes(kind, s', b, s'')
    ensures Passes(kind, s, a + b, s'')
  {
    ScanAppend(kind, s, a, b);
  }

  lemma PassesChar(kind: Kind, s: Scan, c: char)
    requires !Stops(kind, s, c)
    ensures Passes(kind, s, [c], Next(kind, s, c))
  {
    assert [c][1..] == "";
  }

  /** Characters that each leave the scan where it is. */
  lemma {:induction false} PlainPasses(kind: Kind, s: Scan, t: string)
    requires forall i :: 0 <= i < |t| ==> Next(kind, s, t[i]) == s && !Stops(kind, s, t[i])
    ensures Passes(kind, s, t, s)
  {
    if t != "" { PlainPasses(kind, s, t[1..]); }
  }

  /** An opening and a closing character around a text. */
  lemma PassesAround(kind: Kind, s: Scan, open: char, body: string, close: char, within: Scan)
    requires !Stops(kind, s, open) && Next(kind, s, open) == within
    requires Passes(kind, within, body, within)
    requires !Stops(kind, within, close) && Next(kind, within, close) == s
    ensures Passes(kind, s, [open] + body + [close], s)
  {
    hide Passes;
    PassesChar(kind, s, open);
    PassesChar(kind, within, close);
    PassesBoth(kind, s, [open], within, body, within);
    PassesBoth(kind, s, [open] + body, within, [close], s);
  }

  lemma {:induction false} QuotedPasses(kind: Kind, s: Scan, q: char, body: seq<Item>)
    requires s.quote == Some(q) && !s.escaped && forall b :: b in body ==> IsQuotedChar(q, b)
    ensures Passes(kind, s, ShowItems(body), s)
  {
    if body != [] {
      assert body[0] in body;
      EscapePasses(kind, s, body[0].c);
      if body[0].Char? { PassesChar(kind, s, body[0].c); }
      QuotedPasses(kind, s, q, body[1..]);
      PassesBoth(kind, s, ShowItem(body[0]), s, ShowItems(body[1..]), s);
    }
  }

  lemma EscapePasses(kind: Kind, s: Scan, c: char)
    requires !s.escaped
    ensures Passes(kind, s, ['\\', c], s)
  {
    PassesChar(kind, s, '\\');
    PassesChar(kind, s.(escaped := true), c);
    PassesBoth(kind, s, ['\\'], s.(escaped := true), [c], s);
    assert ['\\'] + [c] == ['\\', c];
  }

  /** The scan passes over every well nested item without a stop, and is then where it was. */
  lemma {:induction false} ItemPasses(kind: Kind, s: Scan, item: Item, inside: bool)
    requires Between(s, inside) && WellNested(kind, item, inside)
    ensures Passes(kind, s, ShowItem(item), s)
    decreases item, 0
  {
    hide Passes;
    match item
    case Char(c) => PassesChar(kind, s, c);
    case Escape(c) => EscapePasses(kind, s, c);
    case Quoted(q, body) =>
      QuotedPasses(kind, s.(quote := Some(q)), q, body);
      PassesAround(kind, s, q, ShowItems(body), q, s.(quote := Some(q)));
    case Brackets(body) =>
      ItemsPass(kind, s.(bracket := s.bracket + 1), body, true);
      PassesAround(kind, s, '[', ShowItems(body), ']', s.(bracket := s.bracket + 1));
    case Parens(body) =>
      var within := if kind == Spaces then s else s.(paren := s.paren + 1);
      ItemsPass(kind, within, body, inside || kind != Spaces);
      PassesAround(kind, s, '(', ShowItems(body), ')', within);
  }

  lemma {:induction false} ItemsPass(kind: Kind, s: Scan, items: seq<Item>, inside: bool)
    requires Between(s, inside) && AllNested(kind, items, inside)
    ensures Passes(kind, s, ShowItems(items), s)
    decreases items, 1
  {
    if items != [] {
      assert items[0] in items;
      ItemPasses(kind, s, items[0], inside);
      ItemsPass(kind, s, items[1..], inside);
      PassesBoth(kind, s, ShowItem(items[0]), s, ShowItems(items[1..]), s);
    }
  }

  lemma NestedIsQuiet(kind: Kind, items: seq<Item>)
    requires AllNested(kind, items, false)
    ensures Quiet(kind, ShowItems(items))
  {
    ItemsPass(kind, CLEAN, items, false);
  }

  /** After a quote, bracket or parenthesis that is never closed, nothing ends a piece any more. */
  lemma UnclosedGoesOn(kind: Kind, items: seq<Item>, open: char, body: seq<Item>)
    requires AllNested(kind, items, false)
    requires if IsQuote(open) then forall b :: b in body ==> IsQuotedChar(open, b)
             else AllNested(kind, body, true) && (open == '[' || (open == '(' && kind != Spaces))
    ensures NoStop(kind, CLEAN, ShowItems(items) + [open] + ShowItems(body))
  {
    hide ShowItems, NoStop, After;
    var within := Next(kind, CLEAN, open);
    ItemsPass(kind, CLEAN, items, false);
    PassesChar(kind, CLEAN, open);
    PassesBoth(kind, CLEAN, ShowItems(items), CLEAN, [open], within);
    if IsQuote(open) { QuotedPasses(kind, within, open, body); } else { ItemsPass(kind, within, body, true); }
    PassesBoth(kind, CLEAN, ShowItems(items) + [open], within, ShowItems(body), within);
  }
}
