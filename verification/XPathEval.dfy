/** What an XPath of this subset selects in a document. */
module XPathEval {
  import opened Wrappers
  import opened Text
  import opened Dom
  import X = XPathLang

  /** The white space of XPath 1.0 section 3.7. */
  predicate IsXmlSpace(c: char) {
    c == ' ' || c == '\t' || c == '\r' || c == '\n'
  }

  function XmlFields(s: string): seq<string> {
    FieldsFrom(c => !IsXmlSpace(c), s, "")
  }

  /** normalize-space(); XPath 1.0 section 4.2. */
  function NormalizeXml(s: string): string {
    Join(XmlFields(s), " ")
  }

  /** The string value of an expression at an element with these attributes. */
  function StringOf(e: X.Expr, attrs: map<string, string>): string
    decreases e, 0
  {
    match e
    case Attr(name) => if name in attrs then attrs[name] else ""
    case Lit(v) => v
    case Call(Concat, args) => ConcatOf(args, attrs)
    case Call(NormalizeSpace, args) => if args == [] then "" else NormalizeXml(StringOf(args[0], attrs))
    case Call(Contains, args) =>
      if |args| == 2 && Contains(StringOf(args[0], attrs), StringOf(args[1], attrs)) then "true" else "false"
  }

  function ConcatOf(args: seq<X.Expr>, attrs: map<string, string>): string
    decreases args, 1
  {
    if args == [] then "" else StringOf(args[0], attrs) + ConcatOf(args[1..], attrs)
  }

  /** A predicate as a truth value; XPath 1.0 sections 3.4 and 4.3.  An attribute that is absent is an
      empty node-set: it is false, and it equals nothing. */
  function Holds(t: X.Test, attrs: map<string, string>): bool {
    match t
    case Truth(Attr(name)) => name in attrs
    case Truth(Call(Contains, args)) => StringOf(X.Call(X.Contains, args), attrs) == "true"
    case Truth(e) => StringOf(e, attrs) != ""
    case Equals(l, r) =>
      (l.Attr? ==> l.name in attrs) && (r.Attr? ==> r.name in attrs) && StringOf(l, attrs) == StringOf(r, attrs)
  }

  ghost predicate NodeTest(n: Node, s: X.Step) {
    && n.Element?
    && (s.tag.Some? ==> n.tag == s.tag.value)
    && (forall t :: t in s.tests ==> Holds(t, n.attrs))
  }

  /** The descendant-or-self::node() axis. */
  ghost function DescendantOrSelf(root: Node, from: iset<Loc>): iset<Loc> {
    iset loc: Loc, k: nat | k <= |loc| && loc[..k] in from && At(root, loc).Some? :: loc
  }

  /** One child step, after the // step if there is one; XPath 1.0 sections 2.1 and 2.5. */
  ghost function StepFrom(root: Node, from: iset<Loc>, s: X.Step): iset<Loc> {
    var parents := if s.deep then DescendantOrSelf(root, from) else from;
    iset loc: Loc | IsElement(root, loc) && Parent(loc) in parents && NodeTest(At(root, loc).value, s)
  }

  ghost function StepsFrom(root: Node, from: iset<Loc>, steps: seq<X.Step>): iset<Loc> {
    if steps == [] then from else StepsFrom(root, StepFrom(root, from, steps[0]), steps[1..])
  }

  datatype Hit = ElementHit(loc: Loc) | TextHit(loc: Loc) | AttrHit(loc: Loc, name: string)

  /** What the last part of a path takes from an element found by its steps. */
  ghost predicate Takes(root: Node, found: iset<Loc>, tail: X.Tail, hit: Hit) {
    match tail
    case NoTail => hit.ElementHit? && hit.loc in found
    case TextTail =>
      hit.TextHit? && hit.loc != [] && At(root, hit.loc).Some? && At(root, hit.loc).value.TextNode? &&
        Parent(hit.loc) in found
    case AttrTail(name) =>
      hit.AttrHit? && hit.name == name && hit.loc in found && IsElement(root, hit.loc) &&
        name in At(root, hit.loc).value.attrs
  }

  ghost predicate PathSelects(root: Node, p: X.Path, hit: Hit) {
    Takes(root, StepsFrom(root, iset{[]}, p.steps), p.tail, hit)
  }

  ghost predicate UnionSelects(root: Node, paths: seq<X.Path>, hit: Hit) {
    exists i :: 0 <= i < |paths| && PathSelects(root, paths[i], hit)
  }

  /** The meaning of an XPath text: parse it, then evaluate from the document node. */
  ghost predicate Selects(root: Node, xpath: string, hit: Hit) {
    X.ParseUnion(xpath).Some? && UnionSelects(root, X.ParseUnion(xpath).value, hit)
  }

  // ---------- steps from the other end ----------

  lemma {:induction false} StepsSnoc(root: Node, from: iset<Loc>, steps: seq<X.Step>, s: X.Step)
    ensures StepsFrom(root, from, steps + [s]) == StepFrom(root, StepsFrom(root, from, steps), s)
    decreases |steps|
  {
    if steps == [] {
      assert steps + [s] == [s];
      assert [s][1..] == [];
    } else {
      assert (steps + [s])[1..] == steps[1..] + [s];
      StepsSnoc(root, StepFrom(root, from, steps[0]), steps[1..], s);
    }
  }

  /** A // step finds the elements below some place of `from`. */
  lemma DeepStep(root: Node, from: iset<Loc>, s: X.Step, loc: Loc)
    requires s.deep
    ensures loc in StepFrom(root, from, s) <==>
            IsElement(root, loc) && NodeTest(At(root, loc).value, s) && exists k: nat :: k < |loc| && loc[..k] in from
  {
    if IsElement(root, loc) {
      ParentExists(root, loc);
      forall k: nat | k < |loc| ensures Parent(loc)[..k] == loc[..k] {}
      if k: nat :| k < |loc| && loc[..k] in from {
        assert k <= |Parent(loc)| && Parent(loc)[..k] in from;
      }
    }
  }
}
