/** Writing a text as an XPath expression when XPath has no escapes. */
module XPathLiteral {
  import opened Wrappers
  import opened Text
  import opened XPathLang

  /** strings.Split at single quotes. */
  function SplitQuotes(s: string): (parts: seq<string>)
    ensures parts != []
  {
    if s == "" then [""]
    else
      var rest := SplitQuotes(s[1..]);
      if s[0] == '\'' then [""] + rest else [[s[0]] + rest[0]] + rest[1..]
  }

  /** The list that xpathLiteral builds: non-empty parts in single quotes, with the quote itself in
      double quotes between parts. */
  function QuotedParts(parts: seq<string>): seq<string> {
    if parts == [] then [] else QuotedPart(parts[0]) + QuotedTail(parts[1..])
  }

  function QuotedPart(part: string): seq<string> {
    if part != "" then ["'" + part + "'"] else []
  }

  function QuotedTail(parts: seq<string>): seq<string> {
    if parts == [] then [] else ["\"'\""] + (QuotedPart(parts[0]) + QuotedTail(parts[1..]))
  }

  /** xpathLiteral */
  function Literal(value: string): string {
    if '\'' !in value then "'" + value + "'"
    else if '"' !in value then "\"" + value + "\""
    else "concat(" + Join(QuotedParts(SplitQuotes(value)), ", ") + ")"
  }

  /** xpathLiteral, with its loop. */
  method BuildLiteral(value: string) returns (r: string)
    ensures r == Literal(value)
  {
    if '\'' !in value { return "'" + value + "'"; }
    if '"' !in value { return "\"" + value + "\""; }
    var parts := SplitQuotes(value);
    var quoted: seq<string> := [];
    for i := 0 to |parts|
      invariant quoted + QuotedParts(parts[i..]) == QuotedParts(parts)
    {
      LoopTurn(quoted, parts, i);
      quoted := quoted + QuotedPart(parts[i]);
      if i < |parts| - 1 { quoted := quoted + ["\"'\""]; }
    }
    assert parts[|parts|..] == [] && quoted + [] == quoted;
    return "concat(" + Join(quoted, ", ") + ")";
  }

  lemma LoopTurn(quoted: seq<string>, parts: seq<string>, i: nat)
    requires i < |parts|
    ensures quoted + QuotedParts(parts[i..]) ==
            quoted + QuotedPart(parts[i]) + (if i < |parts| - 1 then ["\"'\""] else []) + QuotedParts(parts[i + 1..])
  {
    hide QuotedPart;
    assert parts[i..][1..] == parts[i + 1..];
    if i < |parts| - 1 {
      assert parts[i + 1..][1..] == parts[i + 2..];
    }
  }

  // ---------- the expression that the text denotes ----------

  function PartExprs(parts: seq<string>): seq<Expr> {
    if parts == [] then [] else PartExpr(parts[0]) + TailExprs(parts[1..])
  }

  function PartExpr(part: string): seq<Expr> {
    if part != "" then [Lit(part)] else []
  }

  function TailExprs(parts: seq<string>): seq<Expr> {
    if parts == [] then [] else [Lit("'")] + (PartExpr(parts[0]) + TailExprs(parts[1..]))
  }

  function LiteralExpr(value: string): Expr {
    if '\'' !in value || '"' !in value then Lit(value) else Call(Concat, PartExprs(SplitQuotes(value)))
  }

  lemma {:induction false} PartsAreQuoteFree(s: string)
    ensures forall p :: p in SplitQuotes(s) ==> '\'' !in p
    ensures '\'' in s ==> |SplitQuotes(s)| > 1
    ensures (exists c :: c in s && c != '\'') ==> exists p :: p in SplitQuotes(s) && p != ""
  {
    if s != "" {
      PartsAreQuoteFree(s[1..]);
      var rest := SplitQuotes(s[1..]);
      assert s == [s[0]] + s[1..];
      assert rest[0] in rest;
      forall p | p in rest[1..] ensures p in rest {}
      if s[0] == '\'' {
        assert forall p :: p in rest ==> p in SplitQuotes(s);
      } else {
        assert [s[0]] + rest[0] in SplitQuotes(s);
      }
    }
  }

  lemma {:induction false} TailExprsGood(parts: seq<string>)
    requires forall p :: p in parts ==> '\'' !in p
    ensures forall e :: e in TailExprs(parts) ==> e.Lit? && GoodExpr(e)
    ensures |TailExprs(parts)| >= |parts|
    ensures (exists p :: p in parts && p != "") ==> |TailExprs(parts)| > |parts|
  {
    if parts != [] {
      TailExprsGood(parts[1..]);
      assert parts == [parts[0]] + parts[1..];
      assert GoodExpr(Lit("'"));
    }
  }

  /** The expression is legal XPath: in the mixed case a concat of at least two literals. */
  lemma LiteralIsLegal(value: string)
    ensures GoodExpr(LiteralExpr(value))
    ensures '\'' in value && '"' in value ==> LiteralExpr(value).Call? && |LiteralExpr(value).args| >= 2
    ensures '\'' in value && '"' in value ==> forall e :: e in LiteralExpr(value).args ==> e.Lit?
  {
    if '\'' in value && '"' in value {
      var parts := SplitQuotes(value);
      PartsAreQuoteFree(value);
      assert '"' in value && '"' != '\'';
      assert parts == [parts[0]] + parts[1..];
      TailExprsGood(parts[1..]);
    }
  }

  lemma LitsShow(part: string)
    requires '\'' !in part
    ensures ShowExpr(Lit(part)) == "'" + part + "'" && ShowExpr(Lit("'")) == "\"'\""
    ensures ShowArgs([]) == Join([], ", ")
  {
  }

  lemma ShowPart(part: string, exprs: seq<Expr>, quoted: seq<string>)
    requires '\'' !in part && ShowArgs(exprs) == Join(quoted, ", ") && |exprs| == |quoted|
    ensures ShowArgs(PartExpr(part) + exprs) == Join(QuotedPart(part) + quoted, ", ")
    ensures |PartExpr(part) + exprs| == |QuotedPart(part) + quoted|
  {
    LitsShow(part);
    if part != "" { ShowCons(Lit(part), exprs, "'" + part + "'", quoted); }
    assert [] + exprs == exprs && [] + quoted == quoted;
  }

  lemma ShowCons(e: Expr, exprs: seq<Expr>, q: string, quoted: seq<string>)
    requires ShowExpr(e) == q && ShowArgs(exprs) == Join(quoted, ", ") && |exprs| == |quoted|
    ensures ShowArgs([e] + exprs) == Join([q] + quoted, ", ")
  {
    assert ([e] + exprs)[1..] == exprs && ([q] + quoted)[1..] == quoted;
  }

  lemma {:induction false} TailsShow(parts: seq<string>)
    requires forall p :: p in parts ==> '\'' !in p
    ensures ShowArgs(TailExprs(parts)) == Join(QuotedTail(parts), ", ")
    ensures |TailExprs(parts)| == |QuotedTail(parts)|
  {
    hide ShowExpr, ShowArgs, Join, PartExpr, QuotedPart;
    LitsShow("");
    if parts != [] {
      var exprs, quoted := TailExprs(parts[1..]), QuotedTail(parts[1..]);
      TailsShow(parts[1..]);
      ShowPart(parts[0], exprs, quoted);
      ShowCons(Lit("'"), PartExpr(parts[0]) + exprs, "\"'\"", QuotedPart(parts[0]) + quoted);
    }
  }

  /** xpathLiteral writes exactly that expression. */
  lemma LiteralShows(value: string)
    ensures ShowExpr(LiteralExpr(value)) == Literal(value)
  {
    hide ShowArgs, Join, PartExpr, QuotedPart, TailExprs, QuotedTail, SplitQuotes;
    if '\'' in value && '"' in value {
      var parts := SplitQuotes(value);
      PartsAreQuoteFree(value);
      TailsShow(parts[1..]);
      ShowPart(parts[0], TailExprs(parts[1..]), QuotedTail(parts[1..]));
    }
  }

  // ---------- its value ----------

  /** The value of a list of literals as concat arguments. */
  function Values(exprs: seq<Expr>): string {
    if exprs == [] then "" else (if exprs[0].Lit? then exprs[0].value else "") + Values(exprs[1..])
  }

  /** What a literal expression evaluates to; XPath 1.0 sections 3.7 and 4.2. */
  function LiteralValue(e: Expr): Option<string> {
    match e
    case Lit(v) => Some(v)
    case Call(Concat, args) => if forall a :: a in args ==> a.Lit? then Some(Values(args)) else None
    case _ => None
  }

  lemma {:induction false} ValuesAppend(a: seq<Expr>, b: seq<Expr>)
    ensures Values(a + b) == Values(a) + Values(b)
  {
    if a == [] {
      assert a + b == b;
    } else {
      assert (a + b)[1..] == a[1..] + b;
      ValuesAppend(a[1..], b);
    }
  }

  lemma PartValue(part: string, exprs: seq<Expr>)
    ensures Values(PartExpr(part) + exprs) == part + Values(exprs)
    ensures Values([Lit("'")] + exprs) == "'" + Values(exprs)
  {
    ValuesAppend(PartExpr(part), exprs);
    assert ([Lit("'")] + exprs)[1..] == exprs;
    assert part != "" ==> [Lit(part)][1..] == [];
  }

  /** The parts of a text, from the second on, evaluate to what follows the first. */
  lemma {:induction false} PartsValue(s: string)
    ensures Values(PartExprs(SplitQuotes(s))) == s
  {
    hide Values, PartExpr;
    var parts := SplitQuotes(s);
    if s == "" {
      PartValue("", []);
      assert parts[1..] == [];
      EmptyValue();
    } else {
      var rest := SplitQuotes(s[1..]);
      PartsValue(s[1..]);
      PartValue(rest[0], TailExprs(rest[1..]));
      PartValue(parts[0], TailExprs(parts[1..]));
      if s[0] == '\'' {
        assert parts[1..] == rest;
        PartValue("", PartExpr(rest[0]) + TailExprs(rest[1..]));
      } else {
        assert parts[1..] == rest[1..];
      }
    }
  }

  lemma EmptyValue()
    ensures Values([]) == ""
  {
  }

  /** Parsing the written text and evaluating it gives the text back, whatever follows it. */
  lemma LiteralDenotes(value: string, rest: string)
    requires Ends(rest)
    ensures exists e :: ParseExpr(Literal(value) + rest) == Some((e, rest)) && LiteralValue(e) == Some(value)
  {
    var e := LiteralExpr(value);
    LiteralIsLegal(value);
    LiteralShows(value);
    ExprReads(e, rest);
    PartsValue(value);
    assert LiteralValue(e) == Some(value);
  }
}
