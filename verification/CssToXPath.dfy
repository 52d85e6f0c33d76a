/** The translator from CSS to XPath, end to end. */
module CssToXPath {
  import opened Wrappers
  import opened Text
  import opened CssFront
  import opened CssSimple
  import opened ClassTokens
  import opened CssCompound
  import opened CssMeaning
  import opened XPathLiteral
  import opened Dom
  import opened XPathEval
  import C = CssLang
  import X = XPathLang

  // ---------- the program ----------

  /** The steps of a branch as XPath text; the first one always begins with //. */
  function StepsToXPath(steps: seq<RawStep>, first: bool): Result<string, Error> {
    if steps == [] then Ok("")
    else
      match SimpleToXPath(steps[0].text)
      case Err(e) => Err(e)
      case Ok(node) =>
        match StepsToXPath(steps[1..], false)
        case Err(e) => Err(e)
        case Ok(rest) => Ok(X.Slash(first || steps[0].combinator == C.Descendant) + node + rest)
  }

  function TailText(e: C.Extraction): string {
    match e case WholeElement => "" case TextNodes => "/text()" case AttrValue(name) => "/@" + name
  }

  /** cssBranchToXPath */
  function BranchToXPath(selector: string): Result<string, Error> {
    match ParseExtraction(selector)
    case Err(e) => Err(e)
    case Ok((base, extraction)) =>
      match ParseSteps(base)
      case Err(e) => Err(e)
      case Ok(steps) =>
        if steps == [] then Err(EmptySelector)
        else
          match StepsToXPath(steps, true)
          case Err(e) => Err(e)
          case Ok(text) => Ok(text + TailText(extraction))
  }

  function BranchesToXPath(branches: seq<string>): Result<seq<string>, Error> {
    if branches == [] then Ok([])
    else
      match BranchToXPath(branches[0])
      case Err(e) => Err(e)
      case Ok(x) =>
        match BranchesToXPath(branches[1..])
        case Err(e) => Err(e)
        case Ok(xs) => Ok([x] + xs)
  }

  /** CSSToXPath */
  function Translate(selector: string): Result<string, Error> {
    match BranchesToXPath(Branches(selector))
    case Err(e) => Err(e)
    case Ok(xs) => Ok(Join(xs, " | "))
  }

  /** cssBranchToXPath, with its builder. */
  method CssBranchToXPath(selector: string) returns (result: Result<string, Error>)
    ensures result == BranchToXPath(selector)
  {
    hide ParseExtraction, ParseSteps, SimpleToXPath;
    var cut := ParseExtraction(selector);
    if cut.Err? { return Err(cut.error); }
    var parsed := ParseCssSteps(cut.value.0);
    if parsed.Err? { return Err(parsed.error); }
    var steps := parsed.value;
    if |steps| == 0 { return Err(EmptySelector); }
    var builder := "";
    AfterNone(StepsToXPath(steps, true));
    for index := 0 to |steps|
      invariant StepsToXPath(steps, true) == AfterText(builder, StepsToXPath(steps[index..], index == 0))
    {
      assert steps[index..][0] == steps[index] && steps[index..][1..] == steps[index + 1..];
      var node := CssSimpleSelectorToXPath(steps[index].text);
      if node.Err? { return Err(node.error); }
      var part := X.Slash(index == 0 || steps[index].combinator == C.Descendant) + node.value;
      AfterOne(builder, part, StepsToXPath(steps[index + 1..], false));
      builder := builder + part;
    }
    assert builder + "" == builder;
    return Ok(builder + TailText(cut.value.1));
  }

  function AfterText(text: string, r: Result<string, Error>): Result<string, Error> {
    match r case Err(e) => Err(e) case Ok(rest) => Ok(text + rest)
  }

  lemma AfterNone(r: Result<string, Error>)
    ensures AfterText("", r) == r
  {
    if r.Ok? { assert "" + r.value == r.value; }
  }

  lemma AfterOne(text: string, part: string, r: Result<string, Error>)
    ensures AfterText(text, AfterText(part, r)) == AfterText(text + part, r)
  {
    if r.Ok? { assert text + (part + r.value) == text + part + r.value; }
  }

  /** CSSToXPath, with its loop. */
  method CssToXPath(selector: string) returns (result: Result<string, Error>)
    ensures result == Translate(selector)
  {
    hide BranchToXPath, Branches;
    var branches := Branches(selector);
    var xpaths: seq<string> := [];
    FollowBranchNone(BranchesToXPath(branches));
    for i := 0 to |branches|
      invariant BranchesToXPath(branches) == FollowBranch(xpaths, BranchesToXPath(branches[i..]))
    {
      assert branches[i..][0] == branches[i] && branches[i..][1..] == branches[i + 1..];
      var x := CssBranchToXPath(branches[i]);
      if x.Err? { return Err(x.error); }
      FollowBranchOne(xpaths, x.value, BranchesToXPath(branches[i + 1..]));
      xpaths := xpaths + [x.value];
    }
    assert xpaths + [] == xpaths;
    return Ok(Join(xpaths, " | "));
  }

  function FollowBranch(xs: seq<string>, r: Result<seq<string>, Error>): Result<seq<string>, Error> {
    match r case Err(e) => Err(e) case Ok(more) => Ok(xs + more)
  }

  lemma FollowBranchNone(r: Result<seq<string>, Error>)
    ensures FollowBranch([], r) == r
  {
    if r.Ok? { assert [] + r.value == r.value; }
  }

  lemma FollowBranchOne(xs: seq<string>, x: string, r: Result<seq<string>, Error>)
    ensures FollowBranch(xs, FollowBranch([x], r)) == FollowBranch(xs + [x], r)
  {
    if r.Ok? { assert xs + ([x] + r.value) == xs + [x] + r.value; }
  }

  // ---------- branches ----------

  /** The compounds of a selector as texts, with what stands before them. */
  function PrintedSteps(steps: seq<C.Step>): (r: seq<Printed>)
    ensures |r| == |steps|
    ensures forall i :: 0 <= i < |steps| ==> r[i] == PrintedStep(steps[i])
  {
    seq(|steps|, i requires 0 <= i < |steps| => PrintedStep(steps[i]))
  }

  function PrintedStep(s: C.Step): Printed {
    Printed(s.gap, RawStep(s.combinator, C.ShowCompound(s.compound)))
  }

  /** A pseudo-element alone. */
  predicate IsAlone(c: C.Complex) {
    |c.steps| == 1 && C.IsEmpty(c.steps[0].compound)
  }

  function RawBranch(c: C.Complex): Branch {
    Branch(if IsAlone(c) then [] else PrintedSteps(c.steps), c.extraction, c.layout, c.before, c.after)
  }

  function RawList(list: seq<C.Complex>): (r: seq<Branch>)
    ensures |r| == |list|
    ensures forall i :: 0 <= i < |list| ==> r[i] == RawBranch(list[i])
  {
    seq(|list|, i requires 0 <= i < |list| => RawBranch(list[i]))
  }

  /** The text of a selector list. */
  function ShowList(list: seq<C.Complex>): string {
    ShowBranches(RawList(list))
  }

  /** Blanks of CSS are blanks of the program. */
  lemma BlanksAreSpace(s: string)
    ensures C.AllBlank(s) ==> AllSpace(s)
  {
  }

  lemma GapIsSpelled(c: C.Combinator, gap: string)
    ensures C.SpellsBy(IsCssSpace, c, gap) ==> C.SpellsBy(IsSpace, c, gap)
  {
  }

  lemma BranchIsGood(c: C.Complex)
    requires C.GoodComplex(c)
    ensures GoodBranch(RawBranch(c))
  {
    BlanksAreSpace(c.before);
    BlanksAreSpace(c.after);
    if !IsAlone(c) { StepsAreGood(c); }
    if c.extraction.AttrValue? { LayoutIsGood(c.layout); }
  }

  lemma LayoutIsGood(l: C.NameLayout)
    requires C.GoodLayout(l)
    ensures SpaceLayout(l)
  {
  }

  lemma StepsAreGood(c: C.Complex)
    requires C.GoodComplex(c) && !IsAlone(c)
    ensures GoodPrinted(PrintedSteps(c.steps))
  {
    hide GoodText, C.GoodCompound, C.SpellsBy, C.ShowCompound;
    var steps := PrintedSteps(c.steps);
    forall i | 0 <= i < |steps|
      ensures GoodText(steps[i].step.text)
      ensures i > 0 ==> C.SpellsBy(IsSpace, steps[i].step.combinator, steps[i].gap)
    {
      assert c.steps[i] in c.steps;
      CompoundIsGoodText(c.steps[i].compound);
      GapIsSpelled(c.steps[i].combinator, c.steps[i].gap);
    }
  }

  lemma {:induction false} StepsOfAt(steps: seq<C.Step>, i: nat)
    requires i < |steps|
    ensures StepsOf(steps)[i] == StepOf(i == 0, steps[i])
  {
    if i < |steps| - 1 { StepsOfAt(steps[..|steps| - 1], i); }
  }

  /** From step `i` on the emitted text is that of the XPath steps. */
  lemma {:induction false} StepsTranslate(steps: seq<C.Step>, i: nat)
    requires i <= |steps| && C.GoodSteps(steps)
    ensures StepsToXPath(RawSteps(PrintedSteps(steps))[i..], i == 0) == Ok(X.ShowSteps(StepsOf(steps)[i..]))
    decreases |steps| - i
  {
    if i < |steps| {
      hide SimpleToXPath, C.GoodCompound, X.ShowNode, C.ShowCompound, RawSteps, StepsToXPath, StepsOf, X.ShowSteps;
      assert steps[i] in steps;
      StepsOfAt(steps, i);
      CompoundRoundTrip(i == 0, steps[i]);
      RawStepsAre(PrintedSteps(steps));
      StepsTranslate(steps, i + 1);
      var raw, xs := RawSteps(PrintedSteps(steps)), StepsOf(steps);
      FirstStep(raw[i..], i == 0, xs[i..]);
      assert raw[i..][1..] == raw[i + 1..] && xs[i..][1..] == xs[i + 1..];
    }
  }

  lemma FirstStep(raw: seq<RawStep>, first: bool, xs: seq<X.Step>)
    requires raw != [] && xs != [] && SimpleToXPath(raw[0].text) == Ok(X.ShowNode(xs[0]))
    requires xs[0].deep == (first || raw[0].combinator == C.Descendant)
    requires StepsToXPath(raw[1..], false) == Ok(X.ShowSteps(xs[1..]))
    ensures StepsToXPath(raw, first) == Ok(X.ShowSteps(xs))
  {
    hide SimpleToXPath, X.ShowNode;
  }

  /** The star read for a pseudo-element alone is translated like the compound that says nothing. */
  lemma AloneTranslates(c: C.Complex)
    requires IsAlone(c)
    ensures StepsToXPath(RawSteps([ANY_ELEMENT]), true) == StepsToXPath(RawSteps(PrintedSteps(c.steps)), true)
  {
    assert C.ShowCompound(c.steps[0].compound) == "";
    assert "*"[1..] == "";
    assert SimpleToXPath("*") == SimpleToXPath("") == Ok("*");
    hide SimpleToXPath;
    assert RawSteps([ANY_ELEMENT])[1..] == RawSteps(PrintedSteps(c.steps))[1..] == [];
  }

  lemma StepsReadTranslate(c: C.Complex)
    requires C.GoodSteps(c.steps) && c.steps != []
    ensures var raw := RawSteps(StepsRead(RawBranch(c)));
            raw != [] && StepsToXPath(raw, true) == Ok(X.ShowSteps(StepsOf(c.steps)))
  {
    hide StepsToXPath, C.GoodSteps, X.ShowSteps, StepsOf, C.IsEmpty, RawSteps;
    StepsTranslate(c.steps, 0);
    if IsAlone(c) { AloneTranslates(c); }
    var raw := RawSteps(PrintedSteps(c.steps));
    assert raw[0..] == raw && StepsOf(c.steps)[0..] == StepsOf(c.steps);
  }

  lemma BranchTranslates(c: C.Complex, branch: string, base: string)
    requires C.GoodComplex(c)
    requires ParseExtraction(branch) == Ok((base, c.extraction))
    requires ParseSteps(base) == Ok(RawSteps(StepsRead(RawBranch(c))))
    ensures BranchToXPath(branch) == Ok(X.ShowPath(PathOf(c)))
  {
    StepsReadTranslate(c);
    hide ParseExtraction, ParseSteps, StepsToXPath, C.GoodComplex, X.ShowSteps, StepsOf, RawSteps, StepsRead, RawBranch;
  }

  lemma {:induction false} BranchesTranslate(list: seq<C.Complex>, branches: seq<string>)
    requires |branches| == |list|
    requires forall i :: 0 <= i < |list| ==> BranchToXPath(branches[i]) == Ok(X.ShowPath(PathOf(list[i])))
    ensures BranchesToXPath(branches).Ok? && |BranchesToXPath(branches).value| == |list|
    ensures Join(BranchesToXPath(branches).value, " | ") == X.ShowUnion(UnionOf(list))
  {
    hide BranchToXPath, X.ShowPath;
    if list != [] {
      BranchesTranslate(list[1..], branches[1..]);
      var rest := BranchesToXPath(branches[1..]).value;
      assert BranchesToXPath(branches).value[1..] == rest;
      assert UnionOf(list)[1..] == UnionOf(list[1..]);
    }
  }

  /** The translator turns the text of a selector list into the text of its XPath. */
  lemma TranslationIsText(list: seq<C.Complex>)
    requires C.GoodList(list)
    ensures Translate(ShowList(list)) == Ok(X.ShowUnion(UnionOf(list)))
  {
    var raw := RawList(list);
    forall i | 0 <= i < |list| ensures GoodBranch(raw[i]) && C.GoodComplex(list[i]) {
      assert list[i] in list;
      BranchIsGood(list[i]);
    }
    hide BranchToXPath, ParseExtraction, ParseSteps, GoodBranch, C.GoodComplex, Branches;
    FrontEndRoundTrip(raw, 0);
    var branches := Branches(ShowList(list));
    forall i | 0 <= i < |list| ensures BranchToXPath(branches[i]) == Ok(X.ShowPath(PathOf(list[i]))) {
      FrontEndRoundTrip(raw, i);
      BranchTranslates(list[i], branches[i], ShowPrinted(StepsRead(raw[i])));
    }
    BranchesTranslate(list, branches);
  }

  /** Nothing but blanks and commas is an error: it asks for no element, and the translator emits no XPath. */
  lemma OnlyCommasFail(selector: string)
    requires OnlyCommas(selector)
    ensures Translate(selector).Err?
  {
    OnlyCommasRead(selector);
    hide ParseExtraction, ParseSteps, Branches, TrimSpace, OnlyCommas;
    var sel := TrimSpace(selector);
    if sel != "" {
      var text := ParseSteps(sel).value[0].text;
      assert ReadTag(text) == ("*", text);
      assert ReadPredicate(text) == Err(Unsupported);
    }
  }

  // ---------- the XPath is legal, and means what the selector means ----------

  lemma LowerIsName(name: string)
    requires C.IsProperName(name)
    ensures X.IsName(C.Lower(name))
  {
  }

  lemma TestIsGood(p: C.Pred)
    requires C.GoodPred(p)
    ensures X.GoodTest(TestOf(p))
  {
    match p
    case ClassIs(c) =>
      LiteralIsLegal(" " + c + " ");
      PaddedIsGood();
    case IdIs(id) => LiteralIsLegal(id);
    case HasAttr(a, _) =>
    case AttrIs(a, _, v, _) => LiteralIsLegal(v);
    case AttrContains(a, _, v, _) => LiteralIsLegal(v);
  }

  lemma PaddedIsGood()
    ensures X.GoodExpr(PADDED_CLASS)
  {
    assert X.GoodExpr(X.Call(X.NormalizeSpace, [X.Attr("class")]));
    assert X.GoodExpr(X.Lit(" "));
  }

  lemma StepIsGood(first: bool, s: C.Step)
    requires C.GoodCompound(s.compound)
    ensures X.GoodStep(StepOf(first, s))
  {
    if s.compound.tag.TagIs? { LowerIsName(s.compound.tag.name); }
    var preds := s.compound.preds;
    forall i | 0 <= i < |preds| ensures X.GoodTest(TestsOf(preds)[i]) {
      assert preds[i] in preds;
      TestIsGood(preds[i]);
    }
  }

  lemma PathIsGood(c: C.Complex)
    requires C.GoodComplex(c)
    ensures X.GoodPath(PathOf(c))
  {
    forall i | 0 <= i < |c.steps| ensures X.GoodStep(StepsOf(c.steps)[i]) {
      assert c.steps[i] in c.steps;
      StepsOfAt(c.steps, i);
      StepIsGood(i == 0, c.steps[i]);
    }
  }

  lemma UnionParses(list: seq<C.Complex>)
    requires C.GoodList(list)
    ensures X.ParseUnion(X.ShowUnion(UnionOf(list))) == Some(UnionOf(list))
  {
    forall i | 0 <= i < |list| ensures X.GoodPath(UnionOf(list)[i]) {
      assert list[i] in list;
      PathIsGood(list[i]);
    }
    X.ParseUndoesShow(UnionOf(list));
  }

  /** The emitted XPath never selects anything that the selector list does not. */
  lemma TranslationIsSound(list: seq<C.Complex>, root: Node, hit: Hit)
    requires C.GoodList(list)
    ensures Translate(ShowList(list)).Ok?
    ensures Selects(root, Translate(ShowList(list)).value, hit) ==> C.ListSelects(root, list, hit)
  {
    TranslationIsText(list);
    UnionParses(list);
    if UnionSelects(root, UnionOf(list), hit) { UnionIsSound(root, list, hit); }
  }

  /** The emitted XPath selects exactly what the selector list selects: for every selector list of the
      supported grammar and every document whose class attributes are separated. */
  lemma TranslationKeepsMeaning(list: seq<C.Complex>, root: Node, hit: Hit)
    requires C.GoodList(list) && ClassesSeparated(root)
    ensures MeansTheSame(root, list, hit)
  {
    TranslationIsText(list);
    UnionParses(list);
    UnionIsExact(root, list, hit);
  }

  /** The text of the selector list translates, and both texts agree on whether they select `hit`. */
  ghost predicate MeansTheSame(root: Node, list: seq<C.Complex>, hit: Hit) {
    var xpath := Translate(ShowList(list));
    xpath.Ok? && (Selects(root, xpath.value, hit) <==> C.ListSelects(root, list, hit))
  }

  /** .c */
  function ClassSelector(c: string): seq<C.Complex> {
    [C.Complex([C.Step(C.Descendant, C.Compound(C.NoTag, [C.ClassIs(c)]), "")], C.WholeElement,
               C.NameLayout(C.Bare, "", "", "", ""), "", "")]
  }

  /** A class token that XPath does not see is lost in translation. */
  lemma LostToken(root: Node, loc: Loc, c: string)
    requires IsElement(root, loc) && "class" in At(root, loc).value.attrs && C.IsIdent(c)
    requires c in CssTokens(At(root, loc).value.attrs["class"]) && c !in XmlFields(At(root, loc).value.attrs["class"])
    ensures C.GoodList(ClassSelector(c)) && !MeansTheSame(root, ClassSelector(c), ElementHit(loc))
  {
    hide Translate, ShowList, CssTokens, XmlFields, X.ParseUnion, X.ShowUnion;
    var list := ClassSelector(c);
    var steps := list[0].steps;
    TranslationIsText(list);
    UnionParses(list);
    assert steps[..0] == [];
    assert C.ListSelects(root, list, ElementHit(loc)) by {
      assert C.Matches(root, steps, loc);
      assert C.ComplexSelects(root, list[0], ElementHit(loc));
    }
    TestIsXmlField(At(root, loc).value.attrs["class"], c);
    ClassHolds(c, At(root, loc).value.attrs);
    assert TestsOf([C.ClassIs(c)])[0] == TestOf(C.ClassIs(c));
    FoundByLast(root, steps, loc);
    assert loc !in Found(root, steps);
  }

  /** On a document every selector list keeps its meaning if and only if the class attributes are
      separated. */
  lemma ExactIffSeparated(root: Node)
    ensures ClassesSeparated(root) <==> forall list, hit :: C.GoodList(list) ==> MeansTheSame(root, list, hit)
  {
    hide MeansTheSame, C.GoodList;
    if ClassesSeparated(root) {
      forall list, hit | C.GoodList(list) ensures MeansTheSame(root, list, hit) {
        TranslationKeepsMeaning(list, root, hit);
      }
    } else {
      var loc :| IsElement(root, loc) && "class" in At(root, loc).value.attrs &&
        !Separated(At(root, loc).value.attrs["class"]);
      var value := At(root, loc).value.attrs["class"];
      var c :| C.IsIdent(c) && c in CssTokens(value) && c !in XmlFields(value);
      LostToken(root, loc, c);
    }
  }
}
