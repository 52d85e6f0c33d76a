/** Reading generated selectors back as CSS and as XPath.  The readers take the two grammars that the generator
    writes.  What they make of a part is said for every id and every tag that an HTML tokenizer can produce: the
    part itself, or a failure, or a part that asks for another id or for a tag of another length, in which case the
    reader is still at the end of the part's text when it goes on. */
module SelectorReading {
  import opened Wrappers
  import opened Text
  import opened SelectorGen
  import opened SelectorText
  import I = CssIdentifier
  import L = XPathLiteral
  import X = XPathLang

  // ---------- the two grammars ----------

  /** A run of decimal digits on top of `acc`, and the rest. */
  function TakeDigits(s: string, acc: nat): (r: (nat, string))
    ensures |r.1| <= |s|
  {
    if s != "" && '0' <= s[0] <= '9' then TakeDigits(s[1..], acc * 10 + (s[0] - '0') as nat) else (acc, s)
  }

  /** Digits and a closing mark. */
  function ReadNumber(s: string, close: string): (r: X.Parsed<nat>)
    ensures r.Some? ==> |r.value.1| <= |s|
  {
    if s == "" || !('0' <= s[0] <= '9') then None
    else
      var (n, rest) := TakeDigits(s, 0);
      match X.Skip(rest, close) case None => None case Some(after) => Some((n, after))
  }

  /** An id selector, or a type selector with an optional :nth-of-type(). */
  function ReadCssPart(s: string): (r: X.Parsed<Part>)
    ensures r.Some? ==> |r.value.1| <= |s|
  {
    if s != "" && s[0] == '#' then
      if I.StartsIdent(s[1..]) then
        var (name, rest) := I.TakeName(s[1..]);
        Some((IdPart(name), rest))
      else None
    else if I.StartsIdent(s) then
      var (name, rest) := I.TakeName(s);
      match X.Skip(rest, ":nth-of-type(")
      case None => Some((TagPart(name, 1), rest))
      case Some(more) =>
        match ReadNumber(more, ")") case None => None case Some((n, after)) => Some((TagPart(name, n), after))
    else None
  }

  /** An id test on any element, or a name test with an optional position. */
  function ReadXPathPart(s: string): (r: X.Parsed<Part>)
    ensures r.Some? ==> |r.value.1| <= |s|
  {
    match X.Skip(s, "*[@id=")
    case Some(after) =>
      (match X.ParseExpr(after)
       case None => None
       case Some((e, rest)) =>
         if L.LiteralValue(e).None? then None
         else
           match X.Skip(rest, "]") case None => None case Some(more) => Some((IdPart(L.LiteralValue(e).value), more)))
    case None =>
      match X.ParseName(s)
      case None => None
      case Some((name, rest)) =>
        match X.Skip(rest, "[")
        case None => Some((TagPart(name, 1), rest))
        case Some(more) =>
          match ReadNumber(more, "]") case None => None case Some((n, after)) => Some((TagPart(name, n), after))
  }

  function ReadPart(format: Format, s: string): (r: X.Parsed<Part>)
    ensures r.Some? ==> |r.value.1| <= |s|
  {
    if format.Css? then ReadCssPart(s) else ReadXPathPart(s)
  }

  function Separator(format: Format): (s: string)
    ensures s != ""
  {
    if format.Css? then " > " else "/"
  }

  function ReadParts(format: Format, s: string): Option<seq<Part>>
    decreases |s|
  {
    match ReadPart(format, s)
    case None => None
    case Some((part, rest)) =>
      if rest == "" then Some([part])
      else
        match X.Skip(rest, Separator(format))
        case None => None
        case Some(more) =>
          match ReadParts(format, more) case None => None case Some(parts) => Some([part] + parts)
  }

  /** A whole selector; an XPath begins with //. */
  function ReadPath(format: Format, s: string): Option<seq<Part>> {
    if format.Css? then ReadParts(format, s)
    else match X.Skip(s, "//") case None => None case Some(more) => ReadParts(format, more)
  }

  // ---------- reading undoes writing ----------

  lemma {:induction false} DecimalReads(n: nat, more: string)
    ensures TakeDigits(Decimal(n) + more, 0) == TakeDigits(more, n)
    ensures '0' <= Decimal(n)[0] <= '9'
  {
    var d := '0' + (n % 10) as char;
    assert ([d] + more)[1..] == more;
    if n >= 10 {
      DecimalReads(n / 10, [d] + more);
      assert Decimal(n) + more == Decimal(n / 10) + ([d] + more);
    }
  }

  lemma NumberReads(n: nat, close: string, rest: string)
    requires close == ")" || close == "]"
    ensures ReadNumber(Decimal(n) + close + rest, close) == Some((n, rest))
  {
    hide TakeDigits, Decimal, X.Skip;
    assert Decimal(n) + close + rest == Decimal(n) + (close + rest);
    DecimalReads(n, close + rest);
    DigitsEnd(n, close + rest);
    X.Skips(close, rest);
  }

  lemma DigitsEnd(n: nat, rest: string)
    requires rest != "" && !('0' <= rest[0] <= '9')
    ensures TakeDigits(rest, n) == (n, rest)
  {
  }

  // ---------- which parts read back ----------

  /** What an HTML tokenizer takes for a tag name: a letter, and then anything but blanks, / and >. */
  predicate IsHtmlTag(tag: string) {
    && tag != "" && ('a' <= tag[0] <= 'z' || 'A' <= tag[0] <= 'Z')
    && forall i :: 0 <= i < |tag| ==> !EndsTag(tag[i])
  }

  predicate EndsTag(c: char) {
    c == ' ' || c == '\t' || c == '\n' || c == '\r' || c == 12 as char || c == '/' || c == '>'
  }

  /** A part as the generator makes it. */
  predicate IsMade(part: Part) {
    part.TagPart? ==> IsHtmlTag(part.tag) && part.index >= 1
  }

  ghost predicate AreMade(parts: seq<Part>) {
    forall p :: p in parts ==> IsMade(p)
  }

  /** A tag, written without escapes, that the language reads as a name. */
  predicate IsNameIn(format: Format, tag: string) {
    if format.Css? then I.Decode(tag) == Some(tag) else X.IsName(tag)
  }

  /** An id that can be written: in CSS see CssIdentifier.DecodeUndoesEscape. */
  predicate CanWriteId(format: Format, id: string) {
    format.XPath? || (I.Writable(id) && 0 as char !in id)
  }

  /** A part that reads back. */
  predicate ReadsBack(format: Format, part: Part) {
    match part case IdPart(id) => CanWriteId(format, id) case TagPart(tag, _) => IsNameIn(format, tag)
  }

  /** What another part is read as instead: it asks for another id, or for a tag of another length. */
  predicate Misses(p: Part, part: Part) {
    match part
    case IdPart(id) => p.IdPart? && p.id != id
    case TagPart(tag, _) => p.TagPart? && |p.tag| != |tag|
  }

  predicate Resembles(format: Format, p: Part, part: Part) {
    if ReadsBack(format, part) then p == part else Misses(p, part)
  }

  /** What may follow a part. */
  predicate EndsPart(format: Format, rest: string) {
    rest == "" || HasPrefix(rest, Separator(format))
  }

  /** If the reader goes on behind a part, then at its end, with the part or with one that misses. */
  predicate ReadsOn(format: Format, r: X.Parsed<Part>, part: Part, rest: string) {
    r.Some? && EndsPart(format, r.value.1) ==> r.value.1 == rest && Resembles(format, r.value.0, part)
  }

  // ---------- what readers leave over ----------

  /** `r` is what is left of `a + rest` by a reader that does not go beyond `a`. */
  predicate Within(a: string, rest: string, r: string) {
    HasSuffix(a + rest, r) && |r| >= |rest|
  }

  /** A literal without the first character of `rest` is skipped within `a`. */
  lemma SkipWithin(a: string, rest: string, s: string, lit: string)
    requires Within(a, rest, s) && (rest == "" || rest[0] !in lit)
    ensures X.Skip(s, lit).Some? ==> Within(a, rest, X.Skip(s, lit).value)
  {
    if X.Skip(s, lit).Some? {
      assert forall k :: 0 <= k < |lit| ==> s[k] == s[..|lit|][k] == lit[k];
      if rest != "" { assert s[|s| - |rest|] == (a + rest)[|a|] == rest[0]; }
    }
  }

  lemma {:induction false} DigitsWithin(a: string, rest: string, s: string, acc: nat)
    requires Within(a, rest, s) && (rest == "" || !('0' <= rest[0] <= '9'))
    ensures Within(a, rest, TakeDigits(s, acc).1)
    decreases |s|
  {
    if s != "" && '0' <= s[0] <= '9' {
      assert |s| == |rest| ==> s == rest;
      DigitsWithin(a, rest, s[1..], acc * 10 + (s[0] - '0') as nat);
    }
  }

  lemma NumberWithin(a: string, rest: string, s: string, close: string)
    requires Within(a, rest, s) && (rest == "" || (!('0' <= rest[0] <= '9') && rest[0] !in close))
    ensures ReadNumber(s, close).Some? ==> Within(a, rest, ReadNumber(s, close).value.1)
  {
    hide Within, TakeDigits, X.Skip;
    DigitsWithin(a, rest, s, 0);
    SkipWithin(a, rest, TakeDigits(s, 0).1, close);
  }

  /** Left over within `a`, and the separator or nothing comes next: that is the end of `a`. */
  lemma WithinEnds(format: Format, a: string, rest: string, r: string)
    requires Within(a, rest, r) && EndsPart(format, r) && Separator(format)[0] !in a
    ensures r == rest
  {
    FirstWithin(a, rest, r);
    FirstOfEnd(format, r);
  }

  lemma FirstWithin(a: string, rest: string, r: string)
    requires Within(a, rest, r)
    ensures |r| > |rest| ==> r[0] in a
  {
    if |r| > |rest| { assert r[0] == a[|a| + |rest| - |r|]; }
  }

  lemma FirstOfEnd(format: Format, r: string)
    ensures EndsPart(format, r) && r != "" ==> r[0] == Separator(format)[0]
  {
    if EndsPart(format, r) && r != "" { assert r[..|Separator(format)|][0] == r[0]; }
  }

  // ---------- CSS ----------

  lemma {:induction false} IdentsAreName(tag: string, rest: string)
    requires (forall i :: 0 <= i < |tag| ==> I.IsIdent(tag[i])) && I.EndsName(rest)
    ensures I.TakeName(tag + rest) == (tag, rest)
  {
    if tag == "" {
      assert tag + rest == rest;
    } else {
      hide I.EndsName;
      IdentsAreName(tag[1..], rest);
      assert (tag + rest)[1..] == tag[1..] + rest;
      assert [tag[0]] + tag[1..] == tag;
    }
  }

  /** A tag is a CSS name exactly when it consists of identifier characters. */
  lemma CssNames(tag: string)
    requires IsHtmlTag(tag)
    ensures IsNameIn(Css, tag) <==> forall i :: 0 <= i < |tag| ==> I.IsIdent(tag[i])
  {
    I.NameLength(tag);
    if forall i :: 0 <= i < |tag| ==> I.IsIdent(tag[i]) {
      IdentsAreName(tag, "");
      assert tag + "" == tag;
    }
  }

  lemma EndIsNoName(rest: string)
    requires EndsPart(Css, rest)
    ensures I.EndsName(rest) && X.Skip(rest, ":nth-of-type(").None?
  {
    X.SkipsNot(rest, ":nth-of-type(", 0);
  }

  lemma CssTagReads(tag: string, index: nat, u: Unicode, rest: string)
    requires IsHtmlTag(tag) && IsNameIn(Css, tag) && index >= 1 && EndsPart(Css, rest)
    ensures ReadCssPart(PartText(u, Css, TagPart(tag, index)) + rest) == Some((TagPart(tag, index), rest))
  {
    EndIsNoName(rest);
    CssNames(tag);
    hide Decimal, ReadNumber, IsNameIn, EndsPart, I.TakeName, X.Skip;
    var after := if index == 1 then rest else ":nth-of-type(" + (Decimal(index) + ")" + rest);
    assert PartText(u, Css, TagPart(tag, index)) + rest == tag + after;
    IdentsAreName(tag, after);
    if index > 1 {
      X.Skips(":nth-of-type(", Decimal(index) + ")" + rest);
      NumberReads(index, ")", rest);
    }
  }

  /** A name read from an identifier text stays within it, except that an escape at its end may take one
      character more. */
  predicate NameWithin(a: string, rest: string, r: string) {
    Within(a, rest, r) || (rest != "" && r == rest[1..])
  }

  lemma {:induction false} HexWithin(a: string, rest: string, k: nat, acc: nat)
    requires rest == "" || !I.IsHex(rest[0])
    ensures Within(a, rest, I.TakeHex(a + rest, k, acc).1)
  {
    if k > 0 && a + rest != "" && I.IsHex((a + rest)[0]) {
      assert a != "";
      assert (a + rest)[1..] == a[1..] + rest;
      HexWithin(a[1..], rest, k - 1, acc * 16 + I.HexValue(a[0]));
    }
  }

  /** Text without the characters that end a tag. */
  predicate Clean(a: string) {
    forall c :: c in a ==> !EndsTag(c)
  }

  lemma EscapeWithin(a: string, rest: string)
    requires a + rest != "" && Separated(rest) && Clean(a)
    ensures NameWithin(a, rest, I.TakeEscape(a + rest).1)
  {
    var s := a + rest;
    if a == "" {
      assert s == rest;
    } else if I.IsHex(s[0]) {
      assert s[1..] == a[1..] + rest;
      HexWithin(a[1..], rest, 5, I.HexValue(s[0]));
      var left := I.TakeHex(s[1..], 5, I.HexValue(s[0])).1;
      if |left| > |rest| { assert left[0] == s[|s| - |left|] && left[0] in a; } else { assert left == rest; }
    }
  }

  /** Nothing, or the separator of CSS with more. */
  predicate Separated(rest: string) {
    rest == "" || (|rest| >= 2 && rest[0] == ' ' && rest[1] == '>')
  }

  lemma SuffixWithin(a: string, b: string, rest: string, r: string)
    requires HasSuffix(a, b) && NameWithin(b, rest, r)
    ensures NameWithin(a, rest, r)
  {
    if Within(b, rest, r) {
      var k := |b| + |rest| - |r|;
      assert r == (b + rest)[k..] && b == a[|a| - |b|..];
      assert b + rest == (a + rest)[|a| - |b|..];
    }
  }

  /** After an escape: a shorter text, or beyond it. */
  lemma EscapeLeaves(a: string, rest: string) returns (left: string)
    requires a != "" && a + rest != "" && |a + rest| >= 2 && Separated(rest) && Clean(a)
    ensures var after := I.TakeEscape((a + rest)[1..]).1;
            (rest != "" && after == rest[1..]) || (after == left + rest && HasSuffix(a, left) && |left| < |a|)
  {
    assert (a + rest)[1..] == a[1..] + rest;
    EscapeWithin(a[1..], rest);
    var after := I.TakeEscape((a + rest)[1..]).1;
    left := if Within(a[1..], rest, after) then after[..|after| - |rest|] else "";
  }

  lemma SuffixIsClean(a: string, b: string)
    requires Clean(a) && HasSuffix(a, b)
    ensures Clean(b)
  {
    hide EndsTag;
    assert forall c :: c in b ==> c in a;
  }

  lemma NoNameBefore(rest: string)
    requires Separated(rest)
    ensures I.TakeName(rest) == ("", rest) && (rest != "" ==> I.TakeName(rest[1..]) == ("", rest[1..]))
  {
  }

  lemma {:induction false} NameStaysWithin(a: string, rest: string)
    requires Separated(rest) && Clean(a)
    ensures NameWithin(a, rest, I.TakeName(a + rest).1)
    decreases |a|
  {
    hide Clean, I.TakeEscape, Separated;
    var s := a + rest;
    NoNameBefore(rest);
    if a == "" {
      assert s == rest;
    } else if I.IsIdent(s[0]) {
      assert s[1..] == a[1..] + rest;
      SuffixIsClean(a, a[1..]);
      NameStaysWithin(a[1..], rest);
      SuffixWithin(a, a[1..], rest, I.TakeName(s[1..]).1);
    } else if I.ValidEscape(s) {
      var left := EscapeLeaves(a, rest);
      var after := I.TakeEscape(s[1..]).1;
      if after == left + rest && HasSuffix(a, left) && |left| < |a| {
        SuffixIsClean(a, left);
        NameStaysWithin(left, rest);
        SuffixWithin(a, left, rest, I.TakeName(after).1);
      }
    }
  }

  /** An unescaped parenthesis ends a name. */
  lemma {:induction false} ParenthesisEnds(b: string, more: string)
    requires b == "" || b[|b| - 1] != '\\'
    ensures |I.TakeName(b + "(" + more).1| > |more|
    decreases |b|
  {
    var s := b + "(" + more;
    if b != "" {
      assert s[1..] == b[1..] + "(" + more;
      if I.IsIdent(s[0]) {
        ParenthesisEnds(b[1..], more);
      } else if I.ValidEscape(s) {
        EscapeBeforeParenthesis(b[1..], more);
        var after := I.TakeEscape(s[1..]).1;
        var b' := after[..|after| - |more| - 1];
        assert after == b' + "(" + more;
        ParenthesisEnds(b', more);
      }
    }
  }

  lemma EscapeBeforeParenthesis(b: string, more: string)
    requires b != ""
    ensures Within(b, "(" + more, I.TakeEscape(b + "(" + more).1)
  {
    assert b + "(" + more == b + ("(" + more);
    if I.IsHex(b[0]) {
      assert (b + ("(" + more))[1..] == b[1..] + ("(" + more);
      HexWithin(b[1..], "(" + more, 5, I.HexValue(b[0]));
    }
  }

  lemma EndIsSeparated(rest: string)
    requires EndsPart(Css, rest)
    ensures Separated(rest)
  {
    if rest != "" { assert rest[0] == rest[..3][0] && rest[1] == rest[..3][1]; }
  }

  /** Reading one tag part, and going on behind it: the reader is at the part's end. */
  lemma CssTagEnds(a: string, rest: string)
    requires a != "" && a[0] != '#' && Clean(a) && EndsPart(Css, rest)
    requires ReadCssPart(a + rest).Some? && EndsPart(Css, ReadCssPart(a + rest).value.1)
    ensures var (p, r) := ReadCssPart(a + rest).value; r == rest && p.TagPart? && p.tag == I.TakeName(a + rest).0
    ensures NameWithin(a, rest, I.TakeName(a + rest).1)
  {
    EndIsSeparated(rest);
    NameStaysWithin(a, rest);
    var left := I.TakeName(a + rest).1;
    hide I.TakeName, TakeDigits, I.StartsIdent;
    FirstOfEnd(Css, left);
    assert EndsTag(' ') && ' ' !in a;
    if X.Skip(left, ":nth-of-type(").Some? {
      assert left[0] == left[..13][0];
      hide EndsPart, X.Skip, Separated;
      var more := X.Skip(left, ":nth-of-type(").value;
      SkipWithin(a, rest, left, ":nth-of-type(");
      NumberWithin(a, rest, more, ")");
      WithinEnds(Css, a, rest, ReadNumber(more, ")").value.1);
    } else if Within(a, rest, left) {
      WithinEnds(Css, a, rest, left);
    }
  }

  function CssIndex(index: nat): string {
    if index <= 1 then "" else ":nth-of-type(" + Decimal(index) + ")"
  }

  /** A name as long as the tag was read from the tag itself. */
  lemma CssNameLength(tag: string, index: nat, rest: string)
    requires IsHtmlTag(tag)
    requires var s := tag + CssIndex(index) + rest;
             && NameWithin(tag + CssIndex(index), rest, I.TakeName(s).1) && |I.TakeName(s).0| == |tag|
             && ReadCssPart(s).Some? && ReadCssPart(s).value.1 == rest
    ensures IsNameIn(Css, tag)
  {
    var s := tag + CssIndex(index) + rest;
    var (name, left) := I.TakeName(s);
    I.NameLength(s);
    assert |ReadCssPart(s).value.1| <= |left|;
    if index > 1 { NameInIndex(tag, index, rest); }
    assert name == s[..|tag|] == tag;
    CssNames(tag);
  }

  /** A name that runs into the index stops at its parenthesis, and then nothing can follow. */
  lemma NameInIndex(tag: string, index: nat, rest: string)
    requires IsHtmlTag(tag) && index > 1
    requires var s := tag + CssIndex(index) + rest;
             && NameWithin(tag + CssIndex(index), rest, I.TakeName(s).1)
             && ReadCssPart(s).Some? && ReadCssPart(s).value.1 == rest
    ensures |I.TakeName(tag + CssIndex(index) + rest).1| >= |CssIndex(index)| + |rest|
  {
    var s := tag + CssIndex(index) + rest;
    var left := I.TakeName(s).1;
    var b, more := tag + ":nth-of-type", Decimal(index) + ")" + rest;
    assert s == b + "(" + more;
    ParenthesisEnds(b, more);
    hide I.TakeName, Decimal, ReadNumber;
    var d := |s| - |left| - |tag|;
    assert left == s[|tag| + d..] && d <= 12;
    InsideIndex(s, |tag|, left);
  }

  /** What is left begins inside ":nth-of-type(": the reader takes no index. */
  lemma InsideIndex(s: string, k: nat, left: string)
    requires k + 13 <= |s| && s[k..k + 13] == ":nth-of-type("
    requires |s| - k - 12 <= |left| <= |s| && left == s[|s| - |left|..]
    ensures |left| < |s| - k ==> X.Skip(left, ":nth-of-type(").None?
  {
    if |left| < |s| - k {
      var d := |s| - |left| - k;
      assert left[0] == s[k..k + 13][d] != ':';
      X.SkipsNot(left, ":nth-of-type(", 0);
    }
  }

  lemma CssTagReadsOn(u: Unicode, tag: string, index: nat, rest: string)
    requires IsHtmlTag(tag) && index >= 1 && EndsPart(Css, rest)
    ensures ReadsOn(Css, ReadCssPart(PartText(u, Css, TagPart(tag, index)) + rest), TagPart(tag, index), rest)
  {
    hide I.TakeName, I.StartsIdent, IsNameIn, EndsPart, ReadCssPart, NameWithin;
    if IsNameIn(Css, tag) {
      CssTagReads(tag, index, u, rest);
    } else {
      var a := tag + CssIndex(index);
      assert PartText(u, Css, TagPart(tag, index)) == a;
      var read := ReadCssPart(a + rest);
      if read.Some? && EndsPart(Css, read.value.1) {
        IndexIsClean(index);
        CssTagEnds(a, rest);
        if |read.value.0.tag| == |tag| { CssNameLength(tag, index, rest); }
      }
    }
  }

  lemma IndexIsClean(index: nat)
    ensures Clean(CssIndex(index)) && Clean(XPathIndex(index))
  {
    DecimalDigits(index);
  }

  lemma {:induction false} DecimalDigits(n: nat)
    ensures forall c :: c in Decimal(n) ==> '0' <= c <= '9'
  {
    if n >= 10 { DecimalDigits(n / 10); }
  }

  lemma CssIdReadsOn(u: Unicode, id: string, rest: string)
    requires I.AsciiTables(u) && EndsPart(Css, rest)
    ensures var r := ReadCssPart(PartText(u, Css, IdPart(id)) + rest);
            ReadsOn(Css, r, IdPart(id), rest) && (CanWriteId(Css, id) ==> r == Some((IdPart(id), rest)))
  {
    EndIsNoName(rest);
    hide I.StartsIdent, I.TakeName, I.Identifier, EndsPart, I.AsciiTables, I.Writable;
    var s := PartText(u, Css, IdPart(id)) + rest;
    assert s[0] == '#' && s[1..] == I.Identifier(u, id) + rest;
    I.EscapeStart(u, id, rest);
    IdentifierReads(u, id, rest);
    I.NulIsLost(id);
  }

  lemma IdentifierReads(u: Unicode, id: string, rest: string)
    requires I.AsciiTables(u) && I.EndsName(rest)
    ensures I.TakeName(I.Identifier(u, id) + rest) == (I.WithoutNul(id), rest)
  {
    I.NameReads(u, id, true, rest);
  }

  // ---------- XPath ----------

  function XPathIndex(index: nat): string {
    if index <= 1 then "" else "[" + Decimal(index) + "]"
  }

  lemma XPathTagReads(u: Unicode, tag: string, index: nat, rest: string)
    requires IsHtmlTag(tag) && IsNameIn(XPath, tag) && index >= 1 && EndsPart(XPath, rest)
    ensures ReadXPathPart(PartText(u, XPath, TagPart(tag, index)) + rest) == Some((TagPart(tag, index), rest))
  {
    hide Decimal, ReadNumber, X.Skip, X.ParseName, X.ParseExpr;
    var after := if index == 1 then rest else "[" + (Decimal(index) + "]" + rest);
    assert PartText(u, XPath, TagPart(tag, index)) + rest == tag + after;
    X.SkipsNot(tag + after, "*[@id=", 0);
    X.NameReads(tag, after);
    if index > 1 {
      X.Skips("[", Decimal(index) + "]" + rest);
      NumberReads(index, "]", rest);
    } else {
      X.SkipsNot(rest, "[", 0);
    }
  }

  lemma {:induction false} XPathNameWithin(a: string, rest: string)
    requires rest == "" || rest[0] == '/'
    ensures Within(a, rest, X.NameChars(a + rest).1)
  {
    var s := a + rest;
    if a == "" {
      assert s == rest;
    } else {
      assert s[1..] == a[1..] + rest;
      XPathNameWithin(a[1..], rest);
    }
  }

  lemma XPathTagEnds(a: string, rest: string)
    requires a != "" && X.IsNameStart(a[0]) && Clean(a) && EndsPart(XPath, rest)
    requires ReadXPathPart(a + rest).Some? && EndsPart(XPath, ReadXPathPart(a + rest).value.1)
    ensures var (p, r) := ReadXPathPart(a + rest).value; r == rest && p.TagPart? && p.tag == X.NameChars(a + rest).0
  {
    X.SkipsNot(a + rest, "*[@id=", 0);
    assert rest != "" ==> rest[0] == rest[..1][0] == '/';
    XPathNameWithin(a, rest);
    hide X.NameChars, TakeDigits, EndsPart, X.Skip, X.ParseExpr;
    assert EndsTag('/') && '/' !in a;
    var left := X.NameChars(a + rest).1;
    SkipWithin(a, rest, left, "[");
    if X.Skip(left, "[").Some? {
      NumberWithin(a, rest, X.Skip(left, "[").value, "]");
      WithinEnds(XPath, a, rest, ReadNumber(X.Skip(left, "[").value, "]").value.1);
    } else {
      WithinEnds(XPath, a, rest, left);
    }
  }

  lemma XPathTagReadsOn(u: Unicode, tag: string, index: nat, rest: string)
    requires IsHtmlTag(tag) && index >= 1 && EndsPart(XPath, rest)
    ensures ReadsOn(XPath, ReadXPathPart(PartText(u, XPath, TagPart(tag, index)) + rest), TagPart(tag, index), rest)
  {
    hide X.NameChars, EndsPart, ReadXPathPart;
    if IsNameIn(XPath, tag) {
      XPathTagReads(u, tag, index, rest);
    } else {
      var a := tag + XPathIndex(index);
      assert PartText(u, XPath, TagPart(tag, index)) == a;
      var read := ReadXPathPart(a + rest);
      if read.Some? && EndsPart(XPath, read.value.1) {
        IndexIsClean(index);
        XPathTagEnds(a, rest);
        if |X.NameChars(a + rest).0| == |tag| { XPathNameLength(tag, XPathIndex(index), rest); }
      }
    }
  }

  lemma XPathNameLength(tag: string, index: string, rest: string)
    requires IsHtmlTag(tag) && |X.NameChars(tag + index + rest).0| == |tag|
    ensures IsNameIn(XPath, tag)
  {
    hide X.NameChars, X.IsWideStart;
    var s := tag + index + rest;
    X.NameCharsSplit(s);
    assert X.NameChars(s).0 == s[..|tag|] == tag;
  }

  lemma XPathIdReads(u: Unicode, id: string, rest: string)
    ensures ReadXPathPart(PartText(u, XPath, IdPart(id)) + rest) == Some((IdPart(id), rest))
  {
    hide X.ParseExpr, L.Literal, L.LiteralValue, X.Skip, X.ParseName;
    var after := L.Literal(id) + ("]" + rest);
    assert PartText(u, XPath, IdPart(id)) + rest == "*[@id=" + after;
    X.Skips("*[@id=", after);
    L.LiteralDenotes(id, "]" + rest);
    X.Skips("]", rest);
  }

  // ---------- whole paths ----------

  /** Reading one written part gives it back, or fails, or gives a part that misses. */
  lemma PartReads(u: Unicode, format: Format, part: Part, rest: string)
    requires I.AsciiTables(u) && IsMade(part) && EndsPart(format, rest)
    ensures var r := ReadPart(format, PartText(u, format, part) + rest);
            ReadsOn(format, r, part, rest) && (ReadsBack(format, part) ==> r == Some((part, rest)))
  {
    hide I.AsciiTables, PartText, EndsPart, ReadCssPart, ReadXPathPart, IsHtmlTag, IsNameIn, I.Writable;
    match part
    case IdPart(id) => if format.Css? { CssIdReadsOn(u, id, rest); } else { XPathIdReads(u, id, rest); }
    case TagPart(tag, index) =>
      if format.Css? {
        CssTagReadsOn(u, tag, index, rest);
        if IsNameIn(format, tag) { CssTagReads(tag, index, u, rest); }
      } else {
        XPathTagReadsOn(u, tag, index, rest);
        if IsNameIn(format, tag) { XPathTagReads(u, tag, index, rest); }
      }
  }

  ghost predicate AllReadBack(format: Format, parts: seq<Part>) {
    forall p :: p in parts ==> ReadsBack(format, p)
  }

  /** Part by part, what was read resembles what was written. */
  ghost predicate ReadAs(format: Format, read: seq<Part>, parts: seq<Part>) {
    |read| == |parts| && forall i :: 0 <= i < |parts| ==> Resembles(format, read[i], parts[i])
  }

  lemma {:induction false} PartsRead(u: Unicode, format: Format, parts: seq<Part>)
    requires I.AsciiTables(u) && parts != [] && AreMade(parts)
    ensures var r := ReadParts(format, Join(PartTexts(u, format, parts), Separator(format)));
            (r.Some? ==> ReadAs(format, r.value, parts)) && (AllReadBack(format, parts) ==> r.Some?)
  {
    hide I.AsciiTables, PartText, ReadPart, IsMade, ReadsBack, Resembles, X.Skip, HasPrefix;
    var part, rest := parts[0], parts[1..];
    assert IsMade(part) && parts == [part] + rest;
    assert PartTexts(u, format, parts)[1..] == PartTexts(u, format, rest);
    if rest == [] {
      PartReads(u, format, part, "");
      assert PartText(u, format, part) + "" == PartText(u, format, part);
      EndOrSkip(format, part, ReadPart(format, PartText(u, format, part)), "");
    } else {
      var more := Join(PartTexts(u, format, rest), Separator(format));
      var tail := Separator(format) + more;
      X.Skips(Separator(format), more);
      assert EndsPart(format, tail) by { Prefixed(Separator(format), more); }
      PartReads(u, format, part, tail);
      assert PartText(u, format, part) + Separator(format) + more == PartText(u, format, part) + tail;
      EndOrSkip(format, part, ReadPart(format, PartText(u, format, part) + tail), tail);
      PartsRead(u, format, rest);
    }
  }

  lemma Prefixed(head: string, tail: string)
    ensures HasPrefix(head + tail, head)
  {
  }

  /** A reader that goes on has read a part that resembles the one written, and is at its end. */
  lemma EndOrSkip(format: Format, part: Part, r: X.Parsed<Part>, rest: string)
    requires ReadsOn(format, r, part, rest)
    ensures r.Some? && (r.value.1 == "" || X.Skip(r.value.1, Separator(format)).Some?) ==>
              r.value.1 == rest && Resembles(format, r.value.0, part)
  {
    hide Resembles;
  }

  /** A written path is read as its parts, if it is read at all, except that parts that do not read back are
      read as others that miss their element.  It is read when all its parts read back. */
  lemma PathReads(u: Unicode, format: Format, parts: seq<Part>)
    requires I.AsciiTables(u) && parts != [] && AreMade(parts)
    ensures var r := ReadPath(format, PathText(u, format, parts));
            && (r.Some? ==> ReadAs(format, r.value, parts))
            && (r == Some(parts) <==> AllReadBack(format, parts))
  {
    hide I.AsciiTables, AreMade, ReadParts, PartTexts, Join, X.Skip, ReadsBack;
    PartsRead(u, format, parts);
    if format.XPath? { X.Skips("//", Join(PartTexts(u, format, parts), "/")); }
    var r := ReadPath(format, PathText(u, format, parts));
    if r.Some? { SameReadBack(format, r.value, parts); }
  }

  lemma SameReadBack(format: Format, read: seq<Part>, parts: seq<Part>)
    requires ReadAs(format, read, parts)
    ensures read == parts <==> AllReadBack(format, parts)
  {
    hide ReadsBack;
    if AllReadBack(format, parts) {
      forall i | 0 <= i < |parts| ensures read[i] == parts[i] {
        assert parts[i] in parts && Resembles(format, read[i], parts[i]);
      }
    } else {
      var p :| p in parts && !ReadsBack(format, p);
      var i :| 0 <= i < |parts| && parts[i] == p;
      assert Resembles(format, read[i], parts[i]);
    }
  }
}
