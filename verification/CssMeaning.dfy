/** The translation from CSS to XPath on syntax trees, and that it keeps the meaning. */
module CssMeaning {
  import opened Wrappers
  import opened Text
  import opened Dom
  import opened XPathEval
  import opened ClassTokens
  import opened XPathLiteral
  import C = CssLang
  import X = XPathLang

  // ---------- the translation ----------

  /** concat(' ', normalize-space(@class), ' ') */
  const PADDED_CLASS :=
    X.Call(X.Concat, [X.Lit(" "), X.Call(X.NormalizeSpace, [X.Attr("class")]), X.Lit(" ")])

  function TestOf(p: C.Pred): X.Test {
    match p
    case ClassIs(c) => X.Truth(X.Call(X.Contains, [PADDED_CLASS, LiteralExpr(" " + c + " ")]))
    case IdIs(id) => X.Equals(X.Attr("id"), LiteralExpr(id))
    case HasAttr(a, _) => X.Truth(X.Attr(a))
    case AttrIs(a, _, v, _) => X.Equals(X.Attr(a), LiteralExpr(v))
    case AttrContains(a, _, v, _) => X.Truth(X.Call(X.Contains, [X.Attr(a), LiteralExpr(v)]))
  }

  function TestsOf(preds: seq<C.Pred>): (tests: seq<X.Test>)
    ensures |tests| == |preds|
    ensures forall i :: 0 <= i < |preds| ==> tests[i] == TestOf(preds[i])
  {
    if preds == [] then [] else [TestOf(preds[0])] + TestsOf(preds[1..])
  }

  function TagOf(t: C.TagTest): Option<string> {
    if t.TagIs? then Some(C.Lower(t.name)) else None
  }

  /** One step; the first step of a path is always a // step. */
  function StepOf(first: bool, s: C.Step): X.Step {
    X.Step(first || s.combinator == C.Descendant, TagOf(s.compound.tag), TestsOf(s.compound.preds))
  }

  function StepsOf(steps: seq<C.Step>): (r: seq<X.Step>)
    ensures |r| == |steps|
  {
    if steps == [] then []
    else StepsOf(steps[..|steps| - 1]) + [StepOf(|steps| == 1, steps[|steps| - 1])]
  }

  function TailOf(e: C.Extraction): X.Tail {
    match e case WholeElement => X.NoTail case TextNodes => X.TextTail case AttrValue(name) => X.AttrTail(name)
  }

  function PathOf(c: C.Complex): X.Path {
    X.Path(StepsOf(c.steps), TailOf(c.extraction))
  }

  function UnionOf(list: seq<C.Complex>): (paths: seq<X.Path>)
    ensures |paths| == |list|
    ensures forall i :: 0 <= i < |list| ==> paths[i] == PathOf(list[i])
  {
    if list == [] then [] else [PathOf(list[0])] + UnionOf(list[1..])
  }

  // ---------- predicates ----------

  lemma {:induction false} ConcatOfLits(args: seq<X.Expr>, attrs: map<string, string>)
    requires forall a :: a in args ==> a.Lit?
    ensures ConcatOf(args, attrs) == Values(args)
  {
    if args != [] {
      assert args[0] in args;
      ConcatOfLits(args[1..], attrs);
    }
  }

  /** A written literal evaluates to the text, at every element. */
  lemma LiteralEvaluates(v: string, attrs: map<string, string>)
    ensures StringOf(LiteralExpr(v), attrs) == v && !LiteralExpr(v).Attr?
  {
    if '\'' in v && '"' in v {
      LiteralIsLegal(v);
      PartsValue(v);
      ConcatOfLits(LiteralExpr(v).args, attrs);
    }
  }

  lemma PaddedEvaluates(attrs: map<string, string>)
    ensures StringOf(PADDED_CLASS, attrs) == Padded(if "class" in attrs then attrs["class"] else "")
  {
    var value := if "class" in attrs then attrs["class"] else "";
    var args := PADDED_CLASS.args;
    assert StringOf(args[1], attrs) == NormalizeXml(value);
    assert args[1..][0] == args[1] && args[1..][1..][0] == args[2] && args[1..][1..][1..] == [];
    assert ConcatOf(args, attrs) == " " + (NormalizeXml(value) + (" " + ""));
    assert " " + (NormalizeXml(value) + (" " + "")) == Padded(value);
  }

  lemma LowerStays(a: string)
    requires C.IsLower(a)
    ensures C.Lower(a) == a
  {
  }

  /** The emitted test is true only where the CSS predicate is. */
  lemma TestImpliesPred(p: C.Pred, attrs: map<string, string>)
    requires C.GoodPred(p) && Holds(TestOf(p), attrs)
    ensures C.PredHolds(p, attrs)
  {
    match p
    case ClassIs(c) =>
      ClassHolds(c, attrs);
      if "class" in attrs { TestIsSound(attrs["class"], c); }
    case IdIs(id) => LiteralEvaluates(id, attrs);
    case HasAttr(a, _) => LowerStays(a);
    case AttrIs(a, _, v, _) => LiteralEvaluates(v, attrs); LowerStays(a);
    case AttrContains(a, _, v, _) => ContainsHolds(a, v, attrs); LowerStays(a);
  }

  /** Every class token that is an identifier is also delimited by what XPath takes for white space. */
  ghost predicate Separated(value: string) {
    forall c :: C.IsIdent(c) && c in CssTokens(value) ==> c in XmlFields(value)
  }

  /** Where the class attribute is so separated, the emitted test is true exactly where the CSS predicate
      is. */
  lemma TestIsPred(p: C.Pred, attrs: map<string, string>)
    requires C.GoodPred(p) && ("class" in attrs ==> Separated(attrs["class"]))
    ensures Holds(TestOf(p), attrs) <==> C.PredHolds(p, attrs)
  {
    match p
    case ClassIs(c) =>
      ClassHolds(c, attrs);
      if "class" in attrs {
        TestIsXmlField(attrs["class"], c);
        if Holds(TestOf(p), attrs) { TestIsSound(attrs["class"], c); }
      }
    case IdIs(id) => LiteralEvaluates(id, attrs);
    case HasAttr(a, _) => LowerStays(a);
    case AttrIs(a, _, v, _) => LiteralEvaluates(v, attrs); LowerStays(a);
    case AttrContains(a, _, v, _) => ContainsHolds(a, v, attrs); LowerStays(a);
  }

  lemma ClassHolds(c: string, attrs: map<string, string>)
    ensures Holds(TestOf(C.ClassIs(c)), attrs) <==> ClassTest(if "class" in attrs then attrs["class"] else "", c)
  {
    LiteralEvaluates(" " + c + " ", attrs);
    PaddedEvaluates(attrs);
  }

  lemma ContainsHolds(a: string, v: string, attrs: map<string, string>)
    requires v != ""
    ensures Holds(X.Truth(X.Call(X.Contains, [X.Attr(a), LiteralExpr(v)])), attrs) <==>
            a in attrs && Contains(attrs[a], v)
  {
    LiteralEvaluates(v, attrs);
    var args := [X.Attr(a), LiteralExpr(v)];
    var text := if a in attrs then attrs[a] else "";
    assert StringOf(args[0], attrs) == text && StringOf(args[1], attrs) == v;
    assert |"true"| != |"false"|;
    assert !Contains("", v);
  }

  /** One of [a], [a=v] and [a*=v]; the last has a value, without which the translator reports an error. */
  predicate IsAttrTest(p: C.Pred) {
    !p.ClassIs? && !p.IdIs? && (p.AttrContains? ==> p.value != "")
  }

  /** Test and predicate agree at an element whose attribute names are lower-case. */
  ghost predicate AgreesOn(p: C.Pred, attrs: map<string, string>) {
    (forall k :: k in attrs ==> C.IsLower(k)) ==> (Holds(TestOf(p), attrs) <==> C.PredHolds(p, attrs))
  }

  /** What the emitted test of an attribute asks for: the attribute under its name as written. */
  lemma AttrTestHolds(p: C.Pred, attrs: map<string, string>)
    requires IsAttrTest(p)
    ensures Holds(TestOf(p), attrs) <==>
            p.attr in attrs && (p.AttrIs? ==> attrs[p.attr] == p.value) &&
            (p.AttrContains? ==> Contains(attrs[p.attr], p.value))
  {
    match p
    case HasAttr(a, _) =>
    case AttrIs(a, _, v, _) => LiteralEvaluates(v, attrs);
    case AttrContains(a, _, v, _) => ContainsHolds(a, v, attrs);
  }

  /** The attribute name is emitted as written, so the test agrees with CSS at every element exactly when the
      name is lower-case. */
  lemma AttributeCaseMatters(p: C.Pred)
    requires IsAttrTest(p)
    ensures C.IsLower(p.attr) <==> forall attrs :: AgreesOn(p, attrs)
  {
    hide Holds, TestOf;
    if C.IsLower(p.attr) {
      forall attrs ensures AgreesOn(p, attrs) {
        AttrTestHolds(p, attrs);
        LowerStays(p.attr);
      }
    } else {
      var attrs: map<string, string> := map[C.Lower(p.attr) := if p.HasAttr? then "" else p.value];
      AttrTestHolds(p, attrs);
      assert C.IsLower(C.Lower(p.attr));
      var i :| 0 <= i < |p.attr| && 'A' <= p.attr[i] <= 'Z';
      assert C.Lower(p.attr)[i] != p.attr[i];
      ContainsItself(if p.HasAttr? then "" else p.value);
      assert !AgreesOn(p, attrs);
    }
  }

  lemma ContainsItself(s: string)
    ensures Contains(s, s)
  {
    assert s[0..] == s && HasPrefix(s[0..], s);
  }

  // ---------- steps ----------

  /** All class attributes of the document are separated. */
  ghost predicate ClassesSeparated(root: Node) {
    forall loc :: IsElement(root, loc) && "class" in At(root, loc).value.attrs ==>
      Separated(At(root, loc).value.attrs["class"])
  }

  /** A document without form feeds in class attributes is one of these. */
  lemma NoFormFeedSeparates(root: Node)
    requires forall loc :: IsElement(root, loc) && "class" in At(root, loc).value.attrs ==>
               FORM_FEED !in At(root, loc).value.attrs["class"]
    ensures ClassesSeparated(root)
  {
    forall loc, c |
      IsElement(root, loc) && "class" in At(root, loc).value.attrs && C.IsIdent(c) &&
      c in CssTokens(At(root, loc).value.attrs["class"])
      ensures c in XmlFields(At(root, loc).value.attrs["class"])
    {
      TestIsExact(At(root, loc).value.attrs["class"], c);
      TestIsXmlField(At(root, loc).value.attrs["class"], c);
    }
  }

  lemma NodeTestImpliesCompound(first: bool, s: C.Step, n: Node)
    requires C.GoodCompound(s.compound) && NodeTest(n, StepOf(first, s))
    ensures C.CompoundHolds(s.compound, n)
  {
    forall p | p in s.compound.preds ensures C.PredHolds(p, n.attrs) {
      assert TestOf(p) in TestsOf(s.compound.preds);
      TestImpliesPred(p, n.attrs);
    }
  }

  lemma NodeTestIsCompound(first: bool, s: C.Step, n: Node)
    requires C.GoodCompound(s.compound) && n.Element? && ("class" in n.attrs ==> Separated(n.attrs["class"]))
    ensures NodeTest(n, StepOf(first, s)) <==> C.CompoundHolds(s.compound, n)
  {
    if C.CompoundHolds(s.compound, n) {
      var preds := s.compound.preds;
      forall i | 0 <= i < |preds| ensures Holds(TestsOf(preds)[i], n.attrs) {
        assert preds[i] in preds;
        TestIsPred(preds[i], n.attrs);
      }
    }
    if NodeTest(n, StepOf(first, s)) { NodeTestImpliesCompound(first, s, n); }
  }

  ghost function Found(root: Node, steps: seq<C.Step>): iset<Loc> {
    StepsFrom(root, iset{[]}, StepsOf(steps))
  }

  /** What the last emitted step adds to what the steps before it found. */
  lemma FoundByLast(root: Node, steps: seq<C.Step>, loc: Loc)
    requires steps != []
    ensures var init, last := steps[..|steps| - 1], steps[|steps| - 1];
            loc in Found(root, steps) <==>
              && IsElement(root, loc) && NodeTest(At(root, loc).value, StepOf(|steps| == 1, last))
              && (init != [] ==>
                    match last.combinator
                    case Child => Parent(loc) in Found(root, init)
                    case Descendant => exists k: nat :: k < |loc| && loc[..k] in Found(root, init))
  {
    var init, last := steps[..|steps| - 1], steps[|steps| - 1];
    var s := StepOf(|steps| == 1, last);
    StepsSnoc(root, iset{[]}, StepsOf(init), s);
    if s.deep { DeepStep(root, Found(root, init), s, loc); }
    if init == [] {
      assert Found(root, init) == iset{[]};
      if IsElement(root, loc) { assert loc[..0] == []; }
    }
  }

  /** On every document the emitted steps find only elements that the selector matches. */
  lemma {:induction false} FoundMatches(root: Node, steps: seq<C.Step>, loc: Loc)
    requires steps != [] && C.GoodSteps(steps) && loc in Found(root, steps)
    ensures C.Matches(root, steps, loc)
    decreases |steps|
  {
    var init, last := steps[..|steps| - 1], steps[|steps| - 1];
    FoundByLast(root, steps, loc);
    NodeTestImpliesCompound(|steps| == 1, last, At(root, loc).value);
    if init != [] {
      match last.combinator
      case Child => FoundMatches(root, init, Parent(loc));
      case Descendant =>
        var k: nat :| k < |loc| && loc[..k] in Found(root, init);
        FoundMatches(root, init, loc[..k]);
    }
  }

  /** Without form feeds they find exactly those. */
  lemma {:induction false} MatchesFound(root: Node, steps: seq<C.Step>, loc: Loc)
    requires ClassesSeparated(root) && steps != [] && C.GoodSteps(steps) && C.Matches(root, steps, loc)
    ensures loc in Found(root, steps)
    decreases |steps|
  {
    var init, last := steps[..|steps| - 1], steps[|steps| - 1];
    FoundByLast(root, steps, loc);
    NodeTestIsCompound(|steps| == 1, last, At(root, loc).value);
    if init != [] {
      match last.combinator
      case Child => MatchesFound(root, init, Parent(loc));
      case Descendant =>
        var k: nat :| k < |loc| && C.Matches(root, init, loc[..k]);
        MatchesFound(root, init, loc[..k]);
    }
  }

  // ---------- whole selectors ----------

  lemma PathIsSound(root: Node, c: C.Complex, hit: Hit)
    requires C.GoodComplex(c) && PathSelects(root, PathOf(c), hit)
    ensures C.ComplexSelects(root, c, hit)
  {
    match c.extraction
    case WholeElement => FoundMatches(root, c.steps, hit.loc);
    case TextNodes => FoundMatches(root, c.steps, Parent(hit.loc));
    case AttrValue(name) => FoundMatches(root, c.steps, hit.loc);
  }

  lemma PathIsComplete(root: Node, c: C.Complex, hit: Hit)
    requires ClassesSeparated(root) && C.GoodComplex(c) && C.ComplexSelects(root, c, hit)
    ensures PathSelects(root, PathOf(c), hit)
  {
    match c.extraction
    case WholeElement => MatchesFound(root, c.steps, hit.loc);
    case TextNodes => MatchesFound(root, c.steps, Parent(hit.loc));
    case AttrValue(name) =>
      MatchesFound(root, c.steps, hit.loc);
  }

  /** The emitted union selects only what the selector list selects, on every document. */
  lemma UnionIsSound(root: Node, list: seq<C.Complex>, hit: Hit)
    requires C.GoodList(list) && UnionSelects(root, UnionOf(list), hit)
    ensures C.ListSelects(root, list, hit)
  {
    var i :| 0 <= i < |list| && PathSelects(root, UnionOf(list)[i], hit);
    assert list[i] in list;
    PathIsSound(root, list[i], hit);
  }

  /** And exactly that, on every document whose class attributes are separated. */
  lemma UnionIsExact(root: Node, list: seq<C.Complex>, hit: Hit)
    requires C.GoodList(list) && ClassesSeparated(root)
    ensures UnionSelects(root, UnionOf(list), hit) <==> C.ListSelects(root, list, hit)
  {
    if UnionSelects(root, UnionOf(list), hit) { UnionIsSound(root, list, hit); }
    if C.ListSelects(root, list, hit) {
      var i :| 0 <= i < |list| && C.ComplexSelects(root, list[i], hit);
      assert list[i] in list;
      PathIsComplete(root, list[i], hit);
      assert PathSelects(root, UnionOf(list)[i], hit);
    }
  }
}
