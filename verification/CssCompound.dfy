/** Compound selectors and their predicates, as texts: reading a printed one gives the text of its XPath test,
    and no front-end scanner stops inside it. */
module CssCompound {
  import opened Wrappers
  import opened Text
  import opened CssScan
  import opened CssFront
  import opened CssSimple
  import opened CssMeaning
  import opened XPathLiteral
  import C = CssLang
  import X = XPathLang

  // ---------- one predicate ----------

  predicate EndsIdent(rest: string) {
    rest == "" || !C.IsIdentChar(rest[0])
  }

  lemma {:induction false} IdentReads(name: string, rest: string)
    requires EndsIdent(rest) && forall i :: 0 <= i < |name| ==> C.IsIdentChar(name[i])
    ensures TakeIdent(name + rest) == (name, rest)
  {
    if name == "" {
      assert name + rest == rest;
    } else {
      assert (name + rest)[1..] == name[1..] + rest;
      IdentReads(name[1..], rest);
      assert [name[0]] + name[1..] == name;
    }
  }

  /** Text without quotes and closing brackets is read over. */
  lemma {:induction false} PlainBracket(text: string, tail: string)
    requires forall i :: 0 <= i < |text| ==> text[i] != ']' && !C.IsQuote(text[i])
    ensures ReadBracket(text + tail, None) == Prepend(text, ReadBracket(tail, None))
  {
    if text == "" {
      assert text + tail == tail;
      PrependNone(ReadBracket(tail, None));
    } else {
      assert (text + tail)[1..] == text[1..] + tail;
      PlainBracket(text[1..], tail);
      PrependOne([], text[0], Prepend(text[1..], ReadBracket(tail, None)));
      PrependBoth(text, ReadBracket(tail, None));
    }
  }

  lemma PrependBoth(text: string, r: Option<(string, string)>)
    requires text != ""
    ensures Prepend([text[0]], Prepend(text[1..], r)) == Prepend(text, r)
  {
    if r.Some? { assert [text[0]] + (text[1..] + r.value.0) == text + r.value.0; }
  }

  /** Inside quotes everything up to the closing quote is read over. */
  lemma {:induction false} QuotedBracket(q: char, v: string, tail: string)
    requires C.IsQuote(q) && q !in v
    ensures ReadBracket(v + [q] + tail, Some(q)) == Prepend(v + [q], ReadBracket(tail, None))
  {
    var s := v + [q] + tail;
    if v == "" {
      assert s[1..] == tail && v + [q] == [q];
    } else {
      assert s[0] == v[0] && s[1..] == v[1..] + [q] + tail;
      QuotedBracket(q, v[1..], tail);
      assert (v + [q])[1..] == v[1..] + [q];
      PrependBoth(v + [q], ReadBracket(tail, None));
    }
  }

  lemma ValueBracket(q: C.Quoting, v: string, tail: string)
    requires C.GoodValue(q, v)
    ensures ReadBracket(C.ShowValue(q, v) + tail, None) == Prepend(C.ShowValue(q, v), ReadBracket(tail, None))
  {
    if q.Bare? {
      PlainBracket(v, tail);
    } else {
      var c := if q.InSingle? then '\'' else '"';
      var s := C.ShowValue(q, v) + tail;
      assert C.ShowValue(q, v) == [c] + (v + [c]);
      assert s == [c] + (v + [c] + tail);
      QuotedBracket(c, v, tail);
      assert s[1..] == v + [c] + tail;
      assert C.ShowValue(q, v)[1..] == v + [c];
      PrependBoth(C.ShowValue(q, v), ReadBracket(tail, None));
    }
  }

  lemma PrependTwo(a: string, b: string, r: Option<(string, string)>)
    ensures Prepend(a, Prepend(b, r)) == Prepend(a + b, r)
  {
    if r.Some? { assert a + (b + r.value.0) == a + b + r.value.0; }
  }

  /** What stands before the value of an attribute predicate: all of it when there is none. */
  function Operator(p: C.Pred): string
    requires !p.ClassIs? && !p.IdIs?
  {
    match p
    case HasAttr(a, b) => b.open + a + b.close
    case AttrIs(a, _, _, b) => b.open + (a + b.before + "=" + b.after)
    case AttrContains(a, _, _, b) => b.open + (a + b.before + "*=" + b.after)
  }

  lemma OperatorIsPlain(p: C.Pred)
    requires C.GoodPred(p) && !p.ClassIs? && !p.IdIs?
    ensures forall i :: 0 <= i < |Operator(p)| ==>
              C.IsIdentChar(Operator(p)[i]) || IsSpace(Operator(p)[i]) || Operator(p)[i] == '=' || Operator(p)[i] == '*'
  {
  }

  lemma BracketShape(p: C.Pred)
    requires !p.ClassIs? && !p.IdIs?
    ensures C.ShowBracket(p) ==
            if p.HasAttr? then Operator(p) else Operator(p) + C.ShowValue(p.quoting, p.value) + p.blanks.close
  {
    hide C.ShowValue;
    match p
    case HasAttr(a, b) =>
    case AttrIs(a, q, v, b) =>
      var shown := C.ShowValue(q, v);
      assert a + b.before + "=" + (b.after + shown) == a + b.before + "=" + b.after + shown;
      Regroup(b.open, a + b.before + "=" + b.after, shown);
    case AttrContains(a, q, v, b) =>
      var shown := C.ShowValue(q, v);
      assert a + b.before + "*=" + (b.after + shown) == a + b.before + "*=" + b.after + shown;
      Regroup(b.open, a + b.before + "*=" + b.after, shown);
  }

  lemma BracketEnds(rest: string)
    ensures ReadBracket("]" + rest, None) == Some(("", rest))
  {
    assert ("]" + rest)[1..] == rest;
  }

  lemma BracketReads(p: C.Pred, rest: string)
    requires C.GoodPred(p) && !p.ClassIs? && !p.IdIs?
    ensures ReadBracket(C.ShowBracket(p) + "]" + rest, None) == Some((C.ShowBracket(p), rest))
  {
    OperatorIsPlain(p);
    BracketShape(p);
    hide ReadBracket, C.ShowValue, Operator, C.ShowBracket;
    if p.HasAttr? {
      BracketEnds(rest);
      PlainBracket(Operator(p), "]" + rest);
      assert Operator(p) + ("]" + rest) == Operator(p) + "]" + rest && Operator(p) + "" == Operator(p);
    } else {
      assert AllSpace(p.blanks.close);
      ValueBracketReads(Operator(p), p.quoting, p.value, p.blanks.close, rest);
    }
  }

  lemma ValueBracketReads(op: string, q: C.Quoting, v: string, close: string, rest: string)
    requires forall i :: 0 <= i < |op| ==> op[i] != ']' && !C.IsQuote(op[i])
    requires C.GoodValue(q, v) && AllSpace(close)
    ensures var content := op + C.ShowValue(q, v) + close;
            ReadBracket(content + "]" + rest, None) == Some((content, rest))
  {
    hide ReadBracket, C.ShowValue, C.GoodValue;
    var value, tail := C.ShowValue(q, v), "]" + rest;
    PlainBracket(op, value + (close + tail));
    ValueBracket(q, v, close + tail);
    PlainBracket(close, tail);
    BracketEnds(rest);
    PrependTwo(value, close, Some(("", rest)));
    PrependTwo(op, value + close, Some(("", rest)));
    assert op + (value + (close + tail)) == op + value + close + "]" + rest;
    assert op + (value + close) + "" == op + value + close;
  }

  lemma ValueTrims(q: C.Quoting, v: string)
    requires C.GoodValue(q, v)
    ensures TrimValue(C.ShowValue(q, v)) == v
  {
    if q.Bare? {
      IdentTrims(v);
    } else {
      var c := if q.InSingle? then '\'' else '"';
      assert C.ShowValue(q, v) == [c] + (v + [c]);
      QuotesTrim(c, v);
    }
  }

  lemma QuotesTrim(c: char, v: string)
    requires C.IsQuote(c) && C.PlainEnds(v)
    ensures TrimValue([c] + (v + [c])) == v
  {
    var shown := [c] + (v + [c]);
    TrimmedStays(shown);
    TrimmedStays(v);
    hide TrimSpace, IsSpace;
    assert shown[1..] == v + [c];
    if v == "" {
      assert v + [c] == [c];
      assert TrimQuotes([c]) == "" by { assert [c][1..] == ""; }
    } else {
      assert (v + [c])[..|v|] == v;
      assert TrimQuotes(shown) == TrimQuotes(v + [c]) == TrimQuotes(v) == v;
    }
  }

  lemma AttrNameTrims(a: string)
    requires C.GoodAttr(a)
    ensures TrimSpace(a) == a && a != "" && '*' !in a && '=' !in a
  {
    TrimmedStays(a);
  }

  /** No *= is found when neither side of the equals sign has one. */
  lemma NoStarEqual(name: string, shown: string)
    requires '*' !in name && !Contains(shown, "*=")
    ensures Index(name + "=" + shown, "*=") == -1
  {
    var s := name + "=" + shown;
    forall i | 0 <= i <= |s| - 2 ensures !HasPrefix(s[i..], "*=") {
      assert s[i..][..2] == [s[i], s[i + 1]];
      if i <= |name| {
        assert s[i] != '*';
      } else {
        var j := i - |name| - 1;
        assert s[i] == shown[j] && s[i + 1] == shown[j + 1];
        assert !HasPrefix(shown[j..], "*=");
        assert shown[j..][..2] == [shown[j], shown[j + 1]];
      }
    }
    NoIndex(s, "*=");
  }

  lemma ShownNoStar(after: string, q: C.Quoting, v: string)
    requires AllSpace(after) && C.GoodValue(q, v) && !Contains(v, "*=")
    ensures !Contains(after + C.ShowValue(q, v), "*=")
  {
    var shown := C.ShowValue(q, v);
    var s := after + shown;
    forall i | 0 <= i <= |s| - 2 ensures !HasPrefix(s[i..], "*=") {
      assert s[i..][..2] == [s[i], s[i + 1]];
      if i < |after| {
        assert s[i] != '*';
      } else {
        assert s[i] == shown[i - |after|] && s[i + 1] == shown[i - |after| + 1];
        ValueNoStar(q, v, i - |after|);
      }
    }
  }

  lemma ValueNoStar(q: C.Quoting, v: string, j: nat)
    requires C.GoodValue(q, v) && !Contains(v, "*=") && j + 1 < |C.ShowValue(q, v)|
    ensures !(C.ShowValue(q, v)[j] == '*' && C.ShowValue(q, v)[j + 1] == '=')
  {
    var shown := C.ShowValue(q, v);
    if q.Bare? {
      assert C.IsIdentChar(v[j]);
    } else if j > 0 && j < |v| {
      assert shown[j] == v[j - 1] && shown[j + 1] == v[j];
      assert !HasPrefix(v[j - 1..], "*=");
      assert v[j - 1..][..2] == [v[j - 1], v[j]];
    } else if j > 0 {
      assert C.IsQuote(shown[j + 1]) || j + 1 > |v|;
    }
  }

  lemma HasReads(a: string)
    requires C.GoodAttr(a)
    ensures AttributePredicate(a) == Ok(X.ShowTest(X.Truth(X.Attr(a))))
  {
    hide TrimSpace, TrimValue, Index, Contains, C.GoodAttr;
    AttrNameTrims(a);
    NotContained(a, "*=");
    NotContained(a, "=");
    NoIndex(a, "*=");
    NoIndex(a, "=");
  }

  /** What is read from a name, an equals sign and a value. */
  lemma EqualContent(name: string, shown: string, v: string)
    requires name != "" && TrimSpace(name) != "" && '=' !in name && TrimValue(shown) == v
    requires Index(name + "=" + shown, "*=") == -1
    ensures AttributePredicate(name + "=" + shown) == Ok("@" + TrimSpace(name) + "=" + Literal(v))
  {
    hide TrimSpace, TrimValue, Index, Contains, Literal;
    FirstIndex(name, "=", shown);
    var content := name + "=" + shown;
    assert content[..|name|] == name && content[|name| + 1..] == shown;
  }

  /** Blanks around the operator are not part of name and value. */
  lemma OperatorTrims(a: string, before: string, after: string, q: C.Quoting, v: string)
    requires C.GoodAttr(a) && C.GoodValue(q, v) && C.AllBlank(before) && C.AllBlank(after)
    ensures TrimSpace(a + before) == a && a + before != "" && '*' !in a + before && '=' !in a + before
    ensures AllSpace(after) && TrimValue(after + C.ShowValue(q, v)) == v
  {
    AttrNameTrims(a);
    assert Trimmed(a);
    PaddingTrims("", a, before);
    assert "" + a + before == a + before;
    ValueTrims(q, v);
    ValueTrimmed(q, v);
    var shown := C.ShowValue(q, v);
    PaddingTrims(after, shown, "");
    assert after + shown + "" == after + shown;
    TrimmedStays(shown);
  }

  lemma ValueTrimmed(q: C.Quoting, v: string)
    requires C.GoodValue(q, v)
    ensures Trimmed(C.ShowValue(q, v))
  {
    if !q.Bare? {
      var c := if q.InSingle? then '\'' else '"';
      var shown := C.ShowValue(q, v);
      assert shown[0] == c && shown[|shown| - 1] == c;
    }
  }

  lemma IsReads(p: C.Pred)
    requires C.GoodPred(p) && p.AttrIs?
    ensures AttributePredicate(Content(p)) == Ok(X.ShowTest(TestOf(p)))
  {
    hide TrimSpace, TrimValue, Index, Contains, Literal, LiteralExpr, C.ShowValue, AttributePredicate, C.GoodValue;
    hide C.GoodAttr, C.AllBlank;
    var a, b, v := p.attr, p.blanks, p.value;
    var shown := b.after + C.ShowValue(p.quoting, v);
    AttrNameTrims(a);
    OperatorTrims(a, b.before, b.after, p.quoting, v);
    ShownNoStar(b.after, p.quoting, v);
    NoStarEqual(a + b.before, shown);
    EqualContent(a + b.before, shown, v);
    LiteralShows(v);
    EqualsShows(a, LiteralExpr(v));
  }

  /** What stands between the outer blanks of the brackets. */
  function Content(p: C.Pred): string
    requires !p.ClassIs? && !p.IdIs?
  {
    match p
    case HasAttr(a, b) => a
    case AttrIs(a, q, v, b) => a + b.before + "=" + (b.after + C.ShowValue(q, v))
    case AttrContains(a, q, v, b) => a + b.before + "*=" + (b.after + C.ShowValue(q, v))
  }

  /** Quotes are taken away at the ends, all of them. */
  lemma {:induction false} TrimQuotesShortens(s: string)
    ensures var r := TrimQuotes(s); |r| <= |s| && (r != "" ==> !C.IsQuote(r[0]) && !C.IsQuote(r[|r| - 1]))
    ensures s != "" && C.IsQuote(s[0]) ==> |TrimQuotes(s)| < |s|
    ensures |s| >= 2 && C.IsQuote(s[0]) && C.IsQuote(s[|s| - 1]) ==> |TrimQuotes(s)| <= |s| - 2
  {
    if s != "" {
      if C.IsQuote(s[0]) {
        TrimQuotesShortens(s[1..]);
        if |s| >= 2 && C.IsQuote(s[|s| - 1]) { LastQuoteGoes(s[1..]); }
      } else if C.IsQuote(s[|s| - 1]) {
        TrimQuotesShortens(s[..|s| - 1]);
      }
    }
  }

  lemma {:induction false} LastQuoteGoes(s: string)
    requires s != "" && C.IsQuote(s[|s| - 1])
    ensures |TrimQuotes(s)| < |s|
  {
    if C.IsQuote(s[0]) {
      if |s| > 1 { LastQuoteGoes(s[1..]); }
    } else {
      TrimQuotesShortens(s[..|s| - 1]);
    }
  }

  /** A quoted value is read as it stands exactly when it has neither blanks nor quotes at its ends. */
  lemma QuotedTrimsIff(c: char, v: string)
    requires C.IsQuote(c)
    ensures TrimValue([c] + (v + [c])) == v <==> C.PlainEnds(v)
  {
    var shown := [c] + (v + [c]);
    TrimmedStays(shown);
    if C.PlainEnds(v) {
      QuotesTrim(c, v);
    } else if TrimValue(shown) == v {
      var w := TrimQuotes(shown);
      TrimQuotesShortens(shown);
      TrimSpaceShortens(w);
    }
  }

  /** No *= is found in a quoted value that has none. */
  lemma QuotedNoStar(a: string, c: char, v: string)
    requires C.GoodAttr(a) && C.IsQuote(c) && !Contains(v, "*=")
    ensures Index(a + "=" + ([c] + (v + [c])), "*=") == -1
  {
    var s := [c] + (v + [c]);
    forall i | 0 <= i <= |s| - 2 ensures !HasPrefix(s[i..], "*=") {
      assert s[i..][..2] == [s[i], s[i + 1]];
      if 0 < i < |v| {
        assert s[i] == v[i - 1] && s[i + 1] == v[i];
        assert !HasPrefix(v[i - 1..], "*=");
        assert v[i - 1..][..2] == [v[i - 1], v[i]];
      }
    }
    NoStarEqual(a, s);
  }

  lemma StarIsFound(a: string, c: char, v: string)
    requires Contains(v, "*=")
    ensures Index(a + "=" + ([c] + (v + [c])), "*=") >= 0
  {
    var s := a + "=" + ([c] + (v + [c]));
    var i :| 0 <= i <= |v| - 2 && HasPrefix(v[i..], "*=");
    var k := |a| + 2 + i;
    assert s[k..][..2] == v[i..][..2];
    assert HasPrefix(s[k..], "*=");
    FoundIndex(s, "*=");
  }

  lemma StarContentStarts(content: string)
    requires Index(content, "*=") >= 0
    ensures AttributePredicate(content).Err? || AttributePredicate(content).value[..1] == "c"
  {
    hide TrimSpace, TrimValue, Index, Literal;
  }

  lemma LiteralIsInjective(v: string, w: string)
    requires Literal(v) == Literal(w)
    ensures v == w
  {
    LiteralDenotes(v, "");
    LiteralDenotes(w, "");
  }

  /** A quoted value is compared as it stands if and only if it has no *= inside and neither blanks nor
      quotes at its ends. */
  lemma QuotedEqualsIff(a: string, c: char, v: string)
    requires C.GoodAttr(a) && C.IsQuote(c)
    ensures AttributePredicate(a + "=" + ([c] + (v + [c]))) == Ok("@" + a + "=" + Literal(v)) <==>
            C.PlainEnds(v) && !Contains(v, "*=")
  {
    hide TrimSpace, TrimValue, Index, Contains, Literal, C.PlainEnds, AttributePredicate, C.GoodAttr;
    var shown := [c] + (v + [c]);
    AttrNameTrims(a);
    QuotedTrimsIff(c, v);
    var wanted := "@" + a + "=" + Literal(v);
    if Contains(v, "*=") {
      StarIsFound(a, c, v);
      StarContentStarts(a + "=" + shown);
      assert wanted[..1] == "@";
    } else {
      QuotedNoStar(a, c, v);
      EqualContent(a, shown, TrimValue(shown));
      var got := "@" + a + "=" + Literal(TrimValue(shown));
      var head := "@" + a + "=";
      assert got[|head|..] == Literal(TrimValue(shown)) && wanted[|head|..] == Literal(v);
      if got == wanted { LiteralIsInjective(TrimValue(shown), v); }
    }
  }

  lemma EqualsShows(a: string, r: X.Expr)
    ensures X.ShowTest(X.Equals(X.Attr(a), r)) == "@" + a + "=" + X.ShowExpr(r)
  {
  }

  /** What is read from a name, the *= operator and a value. */
  lemma StarContent(name: string, shown: string, v: string)
    requires TrimSpace(name) != "" && '*' !in name && TrimValue(shown) == v && v != ""
    ensures AttributePredicate(name + "*=" + shown) == Ok("contains(@" + TrimSpace(name) + ", " + Literal(v) + ")")
  {
    hide TrimSpace, TrimValue, Index, Contains, Literal;
    FirstIndex(name, "*=", shown);
    var content := name + "*=" + shown;
    assert content[..|name|] == name && content[|name| + 2..] == shown;
  }

  lemma EmptyStarContent(a: string, shown: string)
    requires '*' !in a && TrimValue(shown) == ""
    ensures AttributePredicate(a + "*=" + shown).Err?
  {
    hide TrimSpace, TrimValue, Index, Contains, Literal;
    FirstIndex(a, "*=", shown);
    var content := a + "*=" + shown;
    assert content[..|a|] == a && content[|a| + 2..] == shown;
  }

  /** A quoted value is looked for as it stands if and only if it is not empty and has neither blanks nor quotes
      at its ends; a `*=` inside it does no harm here. */
  lemma QuotedContainsIff(a: string, c: char, v: string)
    requires C.GoodAttr(a) && C.IsQuote(c)
    ensures AttributePredicate(a + "*=" + ([c] + (v + [c]))) == Ok("contains(@" + a + ", " + Literal(v) + ")") <==>
            C.PlainEnds(v) && v != ""
  {
    hide TrimSpace, TrimValue, Index, Contains, Literal, C.PlainEnds, AttributePredicate, C.GoodAttr;
    var shown := [c] + (v + [c]);
    var w := TrimValue(shown);
    AttrNameTrims(a);
    QuotedTrimsIff(c, v);
    if w == "" {
      EmptyStarContent(a, shown);
    } else {
      StarContent(a, shown, w);
      var head := "contains(@" + a + ", ";
      var got, wanted := head + Literal(w) + ")", head + Literal(v) + ")";
      assert got[|head|..|got| - 1] == Literal(w) && wanted[|head|..|wanted| - 1] == Literal(v);
      if got == wanted { LiteralIsInjective(w, v); }
    }
  }

  lemma ContainsReads(p: C.Pred)
    requires C.GoodPred(p) && p.AttrContains?
    ensures AttributePredicate(Content(p)) == Ok(X.ShowTest(TestOf(p)))
  {
    hide TrimSpace, TrimValue, Contains, Literal, LiteralExpr, C.ShowValue, AttributePredicate, X.ShowTest, X.ShowExpr;
    hide C.GoodValue, C.GoodAttr, C.AllBlank;
    var a, b, v := p.attr, p.blanks, p.value;
    AttrNameTrims(a);
    OperatorTrims(a, b.before, b.after, p.quoting, v);
    StarContent(a + b.before, b.after + C.ShowValue(p.quoting, v), v);
    LiteralShows(v);
    ContainsShows(X.Attr(a), LiteralExpr(v));
    AttrShows(a);
    assert "contains(" + ("@" + a) == "contains(@" + a;
  }

  /** Brackets with nothing in them, and an operator without a name, are errors. */
  lemma NamelessFails(blanks: string, shown: string)
    requires AllSpace(blanks)
    ensures AttributePredicate(blanks) == Err(EmptyAttribute)
    ensures !Contains(shown, "*=") ==> AttributePredicate(blanks + "=" + shown) == Err(InvalidAttribute)
    ensures AttributePredicate(blanks + "*=" + shown) == Err(InvalidContains)
  {
    PaddingTrims(blanks, "", "");
    assert blanks + "" + "" == blanks && '=' !in blanks && '*' !in blanks;
    hide AttributePredicate, TrimSpace, Contains, AllSpace;
    BlankContent(blanks);
    NamelessContent(blanks, shown);
  }

  lemma BlankContent(blanks: string)
    requires TrimSpace(blanks) == "" && '=' !in blanks && '*' !in blanks
    ensures AttributePredicate(blanks) == Err(EmptyAttribute)
  {
    hide TrimSpace, Index, Contains;
    NotContained(blanks, "=");
    NotContained(blanks, "*=");
    NoIndex(blanks, "=");
    NoIndex(blanks, "*=");
  }

  lemma NamelessContent(blanks: string, shown: string)
    requires TrimSpace(blanks) == "" && '=' !in blanks && '*' !in blanks
    ensures !Contains(shown, "*=") ==> AttributePredicate(blanks + "=" + shown) == Err(InvalidAttribute)
    ensures AttributePredicate(blanks + "*=" + shown) == Err(InvalidContains)
  {
    hide TrimSpace, TrimValue, Index, Contains, Literal;
    var equal, star := blanks + "=" + shown, blanks + "*=" + shown;
    FirstIndex(blanks, "=", shown);
    FirstIndex(blanks, "*=", shown);
    assert equal[..|blanks|] == blanks && star[..|blanks|] == blanks;
    if !Contains(shown, "*=") { NoStarEqual(blanks, shown); }
  }

  lemma AttrShows(a: string)
    ensures X.ShowExpr(X.Attr(a)) == "@" + a
  {
  }

  lemma AttributeReads(p: C.Pred)
    requires C.GoodPred(p) && !p.ClassIs? && !p.IdIs?
    ensures AttributePredicate(TrimSpace(C.ShowBracket(p))) == Ok(X.ShowTest(TestOf(p)))
  {
    BracketTrims(p);
    hide TrimSpace, AttributePredicate, X.ShowTest, C.ShowValue, C.GoodValue, C.GoodAttr;
    match p
    case HasAttr(a, _) => HasReads(a);
    case AttrIs(_, _, _, _) => IsReads(p);
    case AttrContains(_, _, _, _) => ContainsReads(p);
  }

  lemma BracketTrims(p: C.Pred)
    requires C.GoodPred(p) && !p.ClassIs? && !p.IdIs?
    ensures TrimSpace(C.ShowBracket(p)) == Content(p)
  {
    hide TrimSpace, C.ShowValue, C.GoodValue;
    var content, b := Content(p), p.blanks;
    assert C.ShowBracket(p) == b.open + content + b.close;
    assert content[0] == p.attr[0];
    if p.HasAttr? {
      assert Trimmed(content);
    } else {
      ValueTrimmed(p.quoting, p.value);
      assert C.ShowValue(p.quoting, p.value) != "" by { ValueShown(p.quoting, p.value); }
      var shown := C.ShowValue(p.quoting, p.value);
      assert content[|content| - 1] == shown[|shown| - 1];
    }
    PaddingTrims(b.open, content, b.close);
  }

  lemma ValueShown(q: C.Quoting, v: string)
    requires C.GoodValue(q, v)
    ensures C.ShowValue(q, v) != ""
  {
  }

  lemma CallShows(f: X.Func, args: seq<X.Expr>)
    ensures X.ShowExpr(X.Call(f, args)) == X.FuncName(f) + "(" + X.ShowArgs(args) + ")"
  {
  }

  lemma TwoArgsShow(l: X.Expr, r: X.Expr)
    ensures X.ShowArgs([l, r]) == X.ShowExpr(l) + ", " + X.ShowExpr(r)
  {
    hide X.ShowExpr;
    assert [l, r][1..] == [r];
    assert X.ShowArgs([r]) == X.ShowExpr(r);
  }

  lemma ContainsShows(l: X.Expr, r: X.Expr)
    ensures X.ShowTest(X.Truth(X.Call(X.Contains, [l, r]))) == "contains(" + X.ShowExpr(l) + ", " + X.ShowExpr(r) + ")"
  {
    TwoArgsShow(l, r);
    CallShows(X.Contains, [l, r]);
    hide X.ShowExpr, X.ShowArgs;
    var shown := X.ShowExpr(l) + ", " + X.ShowExpr(r);
    assert "contains" + "(" + shown + ")" == "contains(" + X.ShowExpr(l) + ", " + X.ShowExpr(r) + ")";
  }

  lemma NormalizedShows()
    ensures X.ShowExpr(X.Call(X.NormalizeSpace, [X.Attr("class")])) == NORMALIZED_CLASS
  {
    CallShows(X.NormalizeSpace, [X.Attr("class")]);
    assert X.ShowArgs([X.Attr("class")]) == X.ShowExpr(X.Attr("class")) == "@class";
  }

  lemma PaddedShows()
    ensures X.ShowExpr(PADDED_CLASS) == "concat(' ', " + NORMALIZED_CLASS + ", ' ')"
  {
    var args := PADDED_CLASS.args;
    NormalizedShows();
    assert X.ShowExpr(X.Lit(" ")) == "' '";
    CallShows(X.Concat, args);
    hide X.ShowExpr;
    TwoArgsShow(args[1], args[2]);
    assert args[1..] == [args[1], args[2]];
    assert X.ShowArgs(args) == X.ShowExpr(args[0]) + ", " + X.ShowArgs(args[1..]);
    PaddedText(NORMALIZED_CLASS);
  }

  lemma PaddedText(n: string)
    ensures "concat" + "(" + ("' '" + ", " + (n + ", " + "' '")) + ")" == "concat(' ', " + n + ", ' ')"
  {
    assert "concat" + "(" + ("' '" + ", ") == "concat(' ', ";
    assert ", " + "' '" + ")" == ", ' ')";
  }

  lemma ClassShows(name: string)
    ensures ClassPredicate(name) == X.ShowTest(TestOf(C.ClassIs(name)))
  {
    PaddedShows();
    LiteralShows(" " + name + " ");
    ContainsShows(PADDED_CLASS, LiteralExpr(" " + name + " "));
    hide X.ShowExpr, X.ShowTest, Literal, LiteralExpr;
  }

  /** A printed predicate is read as the text of its test. */
  lemma PredReads(p: C.Pred, rest: string)
    requires C.GoodPred(p) && EndsIdent(rest)
    ensures ReadPredicate(C.ShowPred(p) + rest) == Ok((X.ShowTest(TestOf(p)), rest))
  {
    if p.ClassIs? {
      ClassReads(p.name, rest);
    } else if p.IdIs? {
      IdReads(p.name, rest);
    } else {
      BracketPredReads(p, rest);
    }
  }

  /** A class or id predicate, once its name is read. */
  lemma NameTurn(name: string, rest: string)
    requires name != "" && TakeIdent(name + rest) == (name, rest)
    ensures ReadPredicate("." + name + rest) == Ok((ClassPredicate(name), rest))
    ensures ReadPredicate("#" + name + rest) == Ok(("@id=" + Literal(name), rest))
  {
    hide TakeIdent, ClassPredicate, Literal, ReadBracket;
    assert ("." + name + rest)[1..] == name + rest;
    assert ("#" + name + rest)[1..] == name + rest;
  }

  lemma ClassReads(c: string, rest: string)
    requires C.IsIdent(c) && EndsIdent(rest)
    ensures ReadPredicate("." + c + rest) == Ok((X.ShowTest(TestOf(C.ClassIs(c))), rest))
  {
    hide X.ShowTest, TestOf, TakeIdent, ClassPredicate, ReadPredicate;
    IdentReads(c, rest);
    NameTurn(c, rest);
    ClassShows(c);
  }

  lemma IdReads(id: string, rest: string)
    requires C.IsIdent(id) && EndsIdent(rest)
    ensures ReadPredicate("#" + id + rest) == Ok((X.ShowTest(TestOf(C.IdIs(id))), rest))
  {
    hide X.ShowTest, TakeIdent, Literal, LiteralExpr, ReadPredicate;
    IdentReads(id, rest);
    NameTurn(id, rest);
    LiteralShows(id);
    EqualsShows("id", LiteralExpr(id));
    assert "@" + "id" + "=" == "@id=";
  }

  lemma BracketPredReads(p: C.Pred, rest: string)
    requires C.GoodPred(p) && !p.ClassIs? && !p.IdIs?
    ensures ReadPredicate(C.ShowPred(p) + rest) == Ok((X.ShowTest(TestOf(p)), rest))
  {
    BracketReads(p, rest);
    AttributeReads(p);
    hide AttributePredicate, ReadBracket, ReadPredicate, TrimSpace, C.ShowBracket, X.ShowTest, TestOf, C.GoodPred;
    BracketTurn(C.ShowBracket(p), rest, X.ShowTest(TestOf(p)));
  }

  lemma BracketTurn(content: string, rest: string, test: string)
    requires ReadBracket(content + "]" + rest, None) == Some((content, rest))
    requires AttributePredicate(TrimSpace(content)) == Ok(test)
    ensures ReadPredicate("[" + content + "]" + rest) == Ok((test, rest))
  {
    hide AttributePredicate, ReadBracket, TrimSpace, TakeIdent, Literal, ClassPredicate;
    var s := "[" + content + "]" + rest;
    assert s[1..] == content + "]" + rest;
  }

  // ---------- one compound ----------

  function ShownTests(preds: seq<C.Pred>): (r: seq<string>)
    ensures |r| == |preds|
  {
    if preds == [] then [] else [X.ShowTest(TestOf(preds[0]))] + ShownTests(preds[1..])
  }

  lemma PredStart(p: C.Pred)
    ensures C.ShowPred(p) != "" && !C.IsIdentChar(C.ShowPred(p)[0])
    ensures C.ShowPred(p)[0] != '*'
  {
  }

  lemma PredsStart(preds: seq<C.Pred>)
    ensures EndsIdent(C.ShowPreds(preds)) && (C.ShowPreds(preds) == "" || C.ShowPreds(preds)[0] != '*')
    ensures preds != [] ==> C.ShowPreds(preds) != ""
  {
    if preds != [] { PredStart(preds[0]); }
  }

  lemma RestPreds(preds: seq<C.Pred>)
    requires preds != [] && C.GoodPreds(preds)
    ensures C.GoodPred(preds[0]) && C.GoodPreds(preds[1..])
  {
  }

  lemma {:induction false} PredsRead(preds: seq<C.Pred>, rest: string)
    requires C.GoodPreds(preds) && EndsIdent(rest)
    ensures ReadPredicates(C.ShowPreds(preds) + rest) == Follow(ShownTests(preds), ReadPredicates(rest))
  {
    if preds == [] {
      assert C.ShowPreds(preds) + rest == rest;
      FollowNone(ReadPredicates(rest));
    } else {
      hide ReadPredicate, C.ShowPred, C.GoodPreds, C.GoodPred, EndsIdent;
      var shown, more := C.ShowPred(preds[0]), C.ShowPreds(preds[1..]);
      RestPreds(preds);
      assert EndsIdent(more + rest) by { MoreEndsIdent(preds[1..], rest); }
      PredStart(preds[0]);
      PredReads(preds[0], more + rest);
      Regroup(shown, more, rest);
      PredsRead(preds[1..], rest);
      FollowOne([], X.ShowTest(TestOf(preds[0])), ReadPredicates(more + rest));
      FollowTwo(X.ShowTest(TestOf(preds[0])), ShownTests(preds[1..]), ReadPredicates(rest));
    }
  }

  lemma FollowTwo(p: string, ps: seq<string>, r: Result<seq<string>, Error>)
    ensures Follow([p], Follow(ps, r)) == Follow([p] + ps, r)
  {
    if r.Ok? { assert [p] + (ps + r.value) == [p] + ps + r.value; }
  }

  lemma MoreEndsIdent(preds: seq<C.Pred>, rest: string)
    requires EndsIdent(rest)
    ensures EndsIdent(C.ShowPreds(preds) + rest)
    ensures (preds != [] || rest == "" || rest[0] != '*') && C.ShowPreds(preds) + rest != "" ==>
              (C.ShowPreds(preds) + rest)[0] != '*'
  {
    hide C.ShowPreds;
    PredsStart(preds);
    if C.ShowPreds(preds) == "" { assert C.ShowPreds(preds) + rest == rest; }
  }

  lemma {:induction false} TestsShow(preds: seq<C.Pred>)
    ensures X.ShowTests(TestsOf(preds)) == Join(ShownTests(preds), " and ")
  {
    if preds != [] {
      TestsShow(preds[1..]);
      assert TestsOf(preds)[1..] == TestsOf(preds[1..]);
      assert ShownTests(preds)[1..] == ShownTests(preds[1..]);
    }
  }

  lemma TagReads(t: C.TagTest, rest: string)
    requires (t.TagIs? ==> C.IsProperName(t.name)) && EndsIdent(rest)
    requires t.NoTag? && rest != "" ==> rest[0] != '*'
    ensures ReadTag(C.ShowTag(t) + rest) == (X.ShowTag(TagOf(t)), rest)
  {
    var s := C.ShowTag(t) + rest;
    match t
    case NoTag => assert s == rest;
    case Star => assert s[1..] == rest;
    case TagIs(name) => IdentReads(name, rest);
  }

  /** What is read of the tag and the predicates of a printed compound, and then of the rest. */
  lemma CompoundReads(c: C.Compound, rest: string)
    requires C.GoodCompound(c) && EndsIdent(rest) && (C.IsEmpty(c) && rest != "" ==> rest[0] != '*')
    ensures ReadTag(C.ShowCompound(c) + rest) == (X.ShowTag(TagOf(c.tag)), C.ShowPreds(c.preds) + rest)
    ensures ReadPredicates(C.ShowPreds(c.preds) + rest) == Follow(ShownTests(c.preds), ReadPredicates(rest))
  {
    hide ReadTag, ReadPredicates, C.GoodPreds, C.IsProperName, C.ShowPreds, X.ShowTag, EndsIdent;
    MoreEndsIdent(c.preds, rest);
    Regroup(C.ShowTag(c.tag), C.ShowPreds(c.preds), rest);
    TagReads(c.tag, C.ShowPreds(c.preds) + rest);
    PredsRead(c.preds, rest);
  }

  /** Translating a printed compound gives the text of its XPath node test. */
  lemma CompoundRoundTrip(first: bool, s: C.Step)
    requires C.GoodCompound(s.compound)
    ensures SimpleToXPath(C.ShowCompound(s.compound)) == Ok(X.ShowNode(StepOf(first, s)))
  {
    var c := s.compound;
    CompoundReads(c, "");
    TestsShow(c.preds);
    assert ShownTests(c.preds) + [] == ShownTests(c.preds);
    assert C.ShowCompound(c) + "" == C.ShowCompound(c);
    assert ReadPredicates("") == Ok([]);
    hide ReadTag, ReadPredicates, C.GoodCompound, C.ShowPreds, X.ShowTests, Join, X.ShowTag, C.ShowCompound;
    assert X.ShowTag(TagOf(c.tag)) + "" == X.ShowTag(TagOf(c.tag));
    var joined, tag := X.ShowTests(TestsOf(c.preds)), X.ShowTag(TagOf(c.tag));
    assert tag + ("[" + joined + "]") == tag + "[" + joined + "]";
  }

  /** What is wrong with a text in the place of a predicate. */
  function Fault(rest: string): Option<Error> {
    if rest == "" then None
    else if rest[0] !in ".#[" then Some(Unsupported)
    else if rest[0] == '[' then if ']' in rest then None else Some(Unterminated)
    else if |rest| > 1 && C.IsIdentChar(rest[1]) then None
    else if rest[0] == '.' then Some(EmptyClass)
    else Some(EmptyId)
  }

  lemma {:induction false} NeverCloses(s: string, quote: Option<char>)
    requires ']' !in s
    ensures ReadBracket(s, quote) == None
    decreases s
  {
    if s != "" {
      NeverCloses(s[1..], if quote.Some? then if s[0] == quote.value then None else quote
                          else if C.IsQuote(s[0]) then Some(s[0]) else None);
    }
  }

  lemma FaultReads(rest: string)
    requires Fault(rest).Some?
    ensures ReadPredicates(rest) == Err(Fault(rest).value)
  {
    if rest[0] == '[' { NeverCloses(rest[1..], None); }
  }

  /** A compound with a fault behind it is an error: another pseudo-class, say, or a name missing. */
  lemma CompoundFails(c: C.Compound, rest: string)
    requires C.GoodCompound(c) && Fault(rest).Some? && EndsIdent(rest) && (C.IsEmpty(c) ==> rest[0] != '*')
    ensures SimpleToXPath(C.ShowCompound(c) + rest) == Err(Fault(rest).value)
  {
    hide ReadTag, ReadPredicates, C.GoodCompound, C.ShowCompound, C.ShowPreds, Fault, X.ShowTag;
    CompoundReads(c, rest);
    FaultReads(rest);
  }

  // ---------- compounds are good texts for the front end ----------

  const IN_BRACKET := CLEAN.(bracket := 1)

  lemma ShownValueQuiet(kind: Kind, q: C.Quoting, v: string)
    requires C.GoodValue(q, v)
    ensures Passes(kind, IN_BRACKET, C.ShowValue(q, v), IN_BRACKET)
  {
    if q.Bare? {
      PlainPasses(kind, IN_BRACKET, v);
    } else {
      var c := if q.InSingle? then '\'' else '"';
      PlainPasses(kind, IN_BRACKET.(quote := Some(c)), v);
      PassesAround(kind, IN_BRACKET, c, v, c, IN_BRACKET.(quote := Some(c)));
      assert C.ShowValue(q, v) == [c] + v + [c];
    }
  }

  lemma InsideQuiet(kind: Kind, p: C.Pred)
    requires C.GoodPred(p) && !p.ClassIs? && !p.IdIs?
    ensures Passes(kind, IN_BRACKET, C.ShowBracket(p), IN_BRACKET)
  {
    hide Passes, C.ShowValue, C.GoodValue, Operator, C.ShowBracket;
    BracketShape(p);
    OperatorQuiet(kind, p);
    if !p.HasAttr? {
      var op, value, close := Operator(p), C.ShowValue(p.quoting, p.value), p.blanks.close;
      ShownValueQuiet(kind, p.quoting, p.value);
      PlainPasses(kind, IN_BRACKET, close);
      PassesBoth(kind, IN_BRACKET, op, IN_BRACKET, value, IN_BRACKET);
      PassesBoth(kind, IN_BRACKET, op + value, IN_BRACKET, close, IN_BRACKET);
    }
  }

  lemma OperatorQuiet(kind: Kind, p: C.Pred)
    requires C.GoodPred(p) && !p.ClassIs? && !p.IdIs?
    ensures Passes(kind, IN_BRACKET, Operator(p), IN_BRACKET)
  {
    OperatorIsPlain(p);
    hide Operator;
    PlainPasses(kind, IN_BRACKET, Operator(p));
  }

  lemma BracketQuiet(kind: Kind, p: C.Pred)
    requires C.GoodPred(p) && !p.ClassIs? && !p.IdIs?
    ensures Quiet(kind, "[" + C.ShowBracket(p) + "]")
  {
    InsideQuiet(kind, p);
    PassesAround(kind, CLEAN, '[', C.ShowBracket(p), ']', IN_BRACKET);
  }

  lemma PredQuiet(kind: Kind, p: C.Pred)
    requires C.GoodPred(p)
    ensures Quiet(kind, C.ShowPred(p))
  {
    match p
    case ClassIs(c) =>
      CharQuiet(kind, '.');
      PlainPasses(kind, CLEAN, c);
      QuietAppend(kind, ".", c);
    case IdIs(id) =>
      CharQuiet(kind, '#');
      PlainPasses(kind, CLEAN, id);
      QuietAppend(kind, "#", id);
    case _ => BracketQuiet(kind, p);
  }

  lemma PredEnd(p: C.Pred)
    requires C.GoodPred(p)
    ensures var s := C.ShowPred(p); s != "" && !IsSpace(s[0]) && !IsSpace(s[|s| - 1])
  {
  }

  lemma {:induction false} PredsQuiet(kind: Kind, preds: seq<C.Pred>)
    requires C.GoodPreds(preds)
    ensures Quiet(kind, C.ShowPreds(preds)) && Trimmed(C.ShowPreds(preds))
  {
    if preds != [] {
      hide C.GoodPreds, C.GoodPred, C.ShowPred;
      RestPreds(preds);
      var s, rest := C.ShowPred(preds[0]), C.ShowPreds(preds[1..]);
      PredQuiet(kind, preds[0]);
      PredEnd(preds[0]);
      PredsQuiet(kind, preds[1..]);
      QuietAppend(kind, s, rest);
      EndsTrimmed(s, rest);
    }
  }

  lemma TagQuiet(kind: Kind, t: C.TagTest)
    requires t.TagIs? ==> C.IsProperName(t.name)
    ensures Quiet(kind, C.ShowTag(t)) && Trimmed(C.ShowTag(t)) && (C.ShowTag(t) == "" <==> t.NoTag?)
  {
    match t
    case NoTag =>
    case Star => CharQuiet(kind, '*');
    case TagIs(name) => PlainPasses(kind, CLEAN, name);
  }

  lemma CompoundIsGoodText(c: C.Compound)
    requires C.GoodCompound(c) && !C.IsEmpty(c)
    ensures GoodText(C.ShowCompound(c))
  {
    hide C.GoodPreds, Quiet, Trimmed;
    var tag, preds := C.ShowTag(c.tag), C.ShowPreds(c.preds);
    TagQuiet(Commas, c.tag);
    TagQuiet(Colons, c.tag);
    TagQuiet(Spaces, c.tag);
    PredsQuiet(Commas, c.preds);
    PredsQuiet(Colons, c.preds);
    PredsQuiet(Spaces, c.preds);
    QuietAppend(Commas, tag, preds);
    QuietAppend(Colons, tag, preds);
    QuietAppend(Spaces, tag, preds);
    EndsTrimmed(tag, preds);
    PredsStart(c.preds);
  }
}
