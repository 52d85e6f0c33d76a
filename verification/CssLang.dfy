/** The CSS selectors that the translator supports: syntax tree, text and meaning. */
module CssLang {
  import opened Wrappers
  import opened Text
  import opened Dom
  import opened XPathEval
  import opened ClassTokens

  /** How an attribute value is written. */
  datatype Quoting = Bare | InSingle | InDouble

  /** The blanks between brackets: behind the opening one, around the operator, and before the closing one. */
  datatype Blanks = Blanks(open: string, before: string, after: string, close: string)

  datatype Pred =
    | ClassIs(name: string)
    | IdIs(name: string)
    | HasAttr(attr: string, blanks: Blanks)
    | AttrIs(attr: string, quoting: Quoting, value: string, blanks: Blanks)
    | AttrContains(attr: string, quoting: Quoting, value: string, blanks: Blanks)

  datatype TagTest = NoTag | Star | TagIs(name: string)

  datatype Compound = Compound(tag: TagTest, preds: seq<Pred>)

  datatype Combinator = Descendant | Child

  /** `combinator` joins the compound to the one before it and is written `gap`; the first compound has none. */
  datatype Step = Step(combinator: Combinator, compound: Compound, gap: string)

  /** The pseudo-element at the end: the element itself, its text nodes, or one attribute. */
  datatype Extraction = WholeElement | TextNodes | AttrValue(name: string)

  /** How the name between the parentheses of ::attr() is written: blanks, quotes, and blanks within the quotes. */
  datatype NameLayout = NameLayout(quoting: Quoting, open: string, inner: string, innerEnd: string, close: string)

  /** `before` and `after` are the blanks around the whole. */
  datatype Complex = Complex(steps: seq<Step>, extraction: Extraction, layout: NameLayout,
                             before: string, after: string)

  // ---------- well-formed selectors ----------

  /** isCSSIdentChar */
  predicate IsIdentChar(c: char) {
    c == '-' || c == '_' || 'a' <= c <= 'z' || 'A' <= c <= 'Z' || '0' <= c <= '9'
  }

  predicate IsIdent(s: string) {
    s != "" && forall i :: 0 <= i < |s| ==> IsIdentChar(s[i])
  }

  /** An identifier that begins with a letter or underscore. */
  predicate IsProperName(s: string) {
    IsIdent(s) && s[0] != '-' && !('0' <= s[0] <= '9')
  }

  predicate IsQuote(c: char) {
    c == '\'' || c == '"'
  }

  /** Text between quotes that means itself: no backslash, and neither blank nor quote at the ends. */
  predicate IsPlainValue(v: string) {
    '\\' !in v && PlainEnds(v)
  }

  predicate PlainEnds(v: string) {
    v != "" ==> !IsSpace(v[0]) && !IsQuote(v[0]) && !IsSpace(v[|v| - 1]) && !IsQuote(v[|v| - 1])
  }

  predicate GoodValue(q: Quoting, v: string) {
    match q
    case Bare => IsIdent(v)
    case InSingle => IsPlainValue(v) && '\'' !in v
    case InDouble => IsPlainValue(v) && '"' !in v
  }

  predicate IsLower(s: string) {
    forall i :: 0 <= i < |s| ==> !('A' <= s[i] <= 'Z')
  }

  /** HTML attribute names are lower-case in the document, and the selector must write them so. */
  predicate GoodAttr(a: string) {
    IsProperName(a) && IsLower(a)
  }

  /** White space of Selectors Level 3 section 4. */
  predicate AllBlank(s: string) {
    forall i :: 0 <= i < |s| ==> IsCssSpace(s[i])
  }

  predicate GoodBlanks(b: Blanks) {
    AllBlank(b.open) && AllBlank(b.before) && AllBlank(b.after) && AllBlank(b.close)
  }

  predicate GoodPred(p: Pred) {
    match p
    case ClassIs(c) => IsIdent(c)
    case IdIs(id) => IsIdent(id)
    case HasAttr(a, b) => GoodAttr(a) && GoodBlanks(b)
    case AttrIs(a, q, v, b) => GoodAttr(a) && GoodValue(q, v) && !Contains(v, "*=") && GoodBlanks(b)
    case AttrContains(a, q, v, b) => GoodAttr(a) && GoodValue(q, v) && v != "" && GoodBlanks(b)
  }

  ghost predicate GoodPreds(preds: seq<Pred>) {
    forall p :: p in preds ==> GoodPred(p)
  }

  ghost predicate GoodCompound(c: Compound) {
    (c.tag.TagIs? ==> IsProperName(c.tag.name)) && GoodPreds(c.preds)
  }

  ghost predicate GoodSteps(steps: seq<Step>) {
    forall s :: s in steps ==> GoodCompound(s.compound)
  }

  /** The compound that says nothing and is written as nothing. */
  predicate IsEmpty(c: Compound) {
    c.tag.NoTag? && c.preds == []
  }

  /** A descendant is asked for by one or more blanks, a child by > with any blanks around it. */
  ghost predicate SpellsBy(space: char -> bool, c: Combinator, gap: string) {
    match c
    case Descendant => gap != "" && forall i :: 0 <= i < |gap| ==> space(gap[i])
    case Child =>
      exists k :: 0 <= k < |gap| && gap[k] == '>' && forall i :: 0 <= i < |gap| && i != k ==> space(gap[i])
  }

  ghost predicate GoodGaps(steps: seq<Step>) {
    forall i :: 0 < i < |steps| ==> SpellsBy(IsCssSpace, steps[i].combinator, steps[i].gap)
  }

  predicate GoodLayout(l: NameLayout) {
    AllBlank(l.open) && AllBlank(l.inner) && AllBlank(l.innerEnd) && AllBlank(l.close)
  }

  /** Every compound is written, unless a pseudo-element stands alone. */
  ghost predicate GoodComplex(c: Complex) {
    && c.steps != [] && GoodSteps(c.steps) && GoodGaps(c.steps) && c.steps[0].combinator == Descendant
    && ((|c.steps| == 1 && !c.extraction.WholeElement?) || forall s :: s in c.steps ==> !IsEmpty(s.compound))
    && (c.extraction.AttrValue? ==> GoodAttr(c.extraction.name) && GoodLayout(c.layout))
    && AllBlank(c.before) && AllBlank(c.after)
  }

  ghost predicate GoodList(list: seq<Complex>) {
    list != [] && forall c :: c in list ==> GoodComplex(c)
  }

  // ---------- text ----------

  function ShowValue(q: Quoting, v: string): string {
    match q case Bare => v case InSingle => "'" + v + "'" case InDouble => "\"" + v + "\""
  }

  /** What stands between the brackets of an attribute predicate. */
  function ShowBracket(p: Pred): string
    requires !p.ClassIs? && !p.IdIs?
  {
    match p
    case HasAttr(a, b) => b.open + a + b.close
    case AttrIs(a, q, v, b) => b.open + (a + b.before + "=" + (b.after + ShowValue(q, v))) + b.close
    case AttrContains(a, q, v, b) => b.open + (a + b.before + "*=" + (b.after + ShowValue(q, v))) + b.close
  }

  function ShowPred(p: Pred): string {
    match p
    case ClassIs(c) => "." + c
    case IdIs(id) => "#" + id
    case _ => "[" + ShowBracket(p) + "]"
  }

  function ShowPreds(preds: seq<Pred>): string {
    if preds == [] then "" else ShowPred(preds[0]) + ShowPreds(preds[1..])
  }

  function ShowTag(t: TagTest): string {
    match t case NoTag => "" case Star => "*" case TagIs(name) => name
  }

  function ShowCompound(c: Compound): string {
    ShowTag(c.tag) + ShowPreds(c.preds)
  }

  function ShowName(name: string, l: NameLayout): string {
    l.open + (if l.quoting.Bare? then name else ShowValue(l.quoting, l.inner + name + l.innerEnd)) + l.close
  }

  function ShowExtraction(e: Extraction, l: NameLayout): string {
    match e
    case WholeElement => ""
    case TextNodes => "::text"
    case AttrValue(name) => "::attr(" + ShowName(name, l) + ")"
  }

  // ---------- meaning: Selectors Level 3 ----------

  function LowerChar(c: char): char {
    if 'A' <= c <= 'Z' then 'a' + (c - 'A') else c
  }

  function Lower(s: string): (r: string)
    ensures |r| == |s|
  {
    seq(|s|, i requires 0 <= i < |s| => LowerChar(s[i]))
  }

  /** Sections 6.3 to 6.5.  Attribute names are compared without regard to case, as in HTML. */
  predicate PredHolds(p: Pred, attrs: map<string, string>) {
    match p
    case ClassIs(c) => "class" in attrs && c in CssTokens(attrs["class"])
    case IdIs(id) => "id" in attrs && attrs["id"] == id
    case HasAttr(a, _) => Lower(a) in attrs
    case AttrIs(a, _, v, _) => Lower(a) in attrs && attrs[Lower(a)] == v
    case AttrContains(a, _, v, _) => Lower(a) in attrs && v != "" && Contains(attrs[Lower(a)], v)
  }

  ghost predicate CompoundHolds(c: Compound, n: Node) {
    && n.Element?
    && (c.tag.TagIs? ==> n.tag == Lower(c.tag.name))
    && (forall p :: p in c.preds ==> PredHolds(p, n.attrs))
  }

  /** Sections 8.1 and 8.2, read from the right: the element fits the last compound, and some ancestor,
      or the parent, fits what is before it. */
  ghost predicate Matches(root: Node, steps: seq<Step>, loc: Loc)
    decreases |steps|
  {
    if steps == [] then false
    else
      var init, last := steps[..|steps| - 1], steps[|steps| - 1];
      && IsElement(root, loc) && CompoundHolds(last.compound, At(root, loc).value)
      && (init != [] ==>
            match last.combinator
            case Child => Matches(root, init, Parent(loc))
            case Descendant => exists k: nat :: k < |loc| && Matches(root, init, loc[..k]))
  }

  ghost predicate ComplexSelects(root: Node, c: Complex, hit: Hit) {
    match c.extraction
    case WholeElement => hit.ElementHit? && Matches(root, c.steps, hit.loc)
    case TextNodes =>
      hit.TextHit? && hit.loc != [] && At(root, hit.loc).Some? && At(root, hit.loc).value.TextNode? &&
      Matches(root, c.steps, Parent(hit.loc))
    case AttrValue(name) =>
      hit.AttrHit? && hit.name == name && Matches(root, c.steps, hit.loc) && name in At(root, hit.loc).value.attrs
  }

  ghost predicate ListSelects(root: Node, list: seq<Complex>, hit: Hit) {
    exists i :: 0 <= i < |list| && ComplexSelects(root, list[i], hit)
  }
}
