/** The XPath 1.0 expressions that the translator and the selector generator emit: syntax tree, text and
    parser.  The tree has attribute and literal expressions, the functions contains, concat and
    normalize-space, predicates joined with "and", child steps with / and //, the tails text() and @name, and
    unions.  Printing a well-formed tree and parsing the text gives the tree back. */
module XPathLang {
  import opened Wrappers
  import opened Text

  datatype Func = Contains | Concat | NormalizeSpace

  datatype Expr = Attr(name: string) | Lit(value: string) | Call(f: Func, args: seq<Expr>)

  /** A predicate: an expression as a truth value, or an equality. */
  datatype Test = Truth(e: Expr) | Equals(l: Expr, r: Expr)

  /** One child step.  `deep` is the // form.  `tag` None is the * test. */
  datatype Step = Step(deep: bool, tag: Option<string>, tests: seq<Test>)

  datatype Tail = NoTail | TextTail | AttrTail(name: string)

  datatype Path = Path(steps: seq<Step>, tail: Tail)

  // ---------- well-formed trees ----------

  /** NameStartChar without the colon; Namespaces in XML 1.0 section 3. */
  predicate IsNameStart(c: char) {
    'a' <= c <= 'z' || 'A' <= c <= 'Z' || c == '_' || (c >= 0xC0 as char && IsWideStart(c))
  }

  predicate IsWideStart(c: char) {
    var n := c as nat;
    || (0xC0 <= n <= 0x2FF && n != 0xD7 && n != 0xF7) || (0x370 <= n <= 0x1FFF && n != 0x37E)
    || n == 0x200C || n == 0x200D || 0x2070 <= n <= 0x218F || 0x2C00 <= n <= 0x2FEF || 0x3001 <= n <= 0xD7FF
    || 0xF900 <= n <= 0xFDCF || 0xFDF0 <= n <= 0xFFFD || 0x10000 <= n <= 0xEFFFF
  }

  predicate IsNameChar(c: char) {
    || IsNameStart(c) || '0' <= c <= '9' || c == '-' || c == '.'
    || c == 0xB7 as char || 0x300 as char <= c <= 0x36F as char || c == 0x203F as char || c == 0x2040 as char
  }

  predicate IsName(s: string) {
    s != "" && IsNameStart(s[0]) && forall i :: 0 <= i < |s| ==> IsNameChar(s[i])
  }

  /** How many arguments a function takes; XPath 1.0 section 4.2. */
  predicate Arity(f: Func, n: nat) {
    match f case Contains => n == 2 case Concat => n >= 2 case NormalizeSpace => n == 1
  }

  predicate GoodExpr(e: Expr) {
    match e
    case Attr(name) => IsName(name)
    case Lit(v) => '\'' !in v || '"' !in v
    case Call(f, args) => Arity(f, |args|) && forall a :: a in args ==> GoodExpr(a)
  }

  predicate GoodTest(t: Test) {
    match t
    case Truth(e) => GoodExpr(e)
    case Equals(l, r) => GoodExpr(l) && GoodExpr(r)
  }

  ghost predicate GoodTests(tests: seq<Test>) {
    forall t :: t in tests ==> GoodTest(t)
  }

  ghost predicate GoodStep(s: Step) {
    (s.tag.Some? ==> IsName(s.tag.value)) && GoodTests(s.tests)
  }

  ghost predicate GoodSteps(steps: seq<Step>) {
    forall s :: s in steps ==> GoodStep(s)
  }

  ghost predicate GoodPath(p: Path) {
    GoodSteps(p.steps) && (p.tail.AttrTail? ==> IsName(p.tail.name))
  }

  // ---------- text ----------

  function FuncName(f: Func): string {
    match f case Contains => "contains" case Concat => "concat" case NormalizeSpace => "normalize-space"
  }

  function ShowLit(v: string): string {
    if '\'' !in v then "'" + v + "'" else "\"" + v + "\""
  }

  function ShowExpr(e: Expr): string
    decreases e, 0
  {
    match e
    case Attr(name) => "@" + name
    case Lit(v) => ShowLit(v)
    case Call(f, args) => FuncName(f) + "(" + ShowArgs(args) + ")"
  }

  function ShowArgs(args: seq<Expr>): string
    decreases args, 1
  {
    if args == [] then "" else if |args| == 1 then ShowExpr(args[0])
    else ShowExpr(args[0]) + ", " + ShowArgs(args[1..])
  }

  function ShowTest(t: Test): string {
    match t
    case Truth(e) => ShowExpr(e)
    case Equals(l, r) => ShowExpr(l) + "=" + ShowExpr(r)
  }

  function ShowTests(tests: seq<Test>): string {
    if tests == [] then "" else if |tests| == 1 then ShowTest(tests[0])
    else ShowTest(tests[0]) + " and " + ShowTests(tests[1..])
  }

  function ShowTag(tag: Option<string>): string {
    if tag.Some? then tag.value else "*"
  }

  /** A node test with its predicates, without the slashes. */
  function ShowNode(s: Step): string {
    ShowTag(s.tag) + if s.tests == [] then "" else "[" + ShowTests(s.tests) + "]"
  }

  function Slash(deep: bool): string {
    if deep then "//" else "/"
  }

  function ShowSteps(steps: seq<Step>): string {
    if steps == [] then "" else Slash(steps[0].deep) + ShowNode(steps[0]) + ShowSteps(steps[1..])
  }

  function ShowTail(t: Tail): string {
    match t case NoTail => "" case TextTail => "/text()" case AttrTail(name) => "/@" + name
  }

  function ShowPath(p: Path): string {
    ShowSteps(p.steps) + ShowTail(p.tail)
  }

  function ShowUnion(paths: seq<Path>): string {
    if paths == [] then ""
    else if |paths| == 1 then ShowPath(paths[0])
    else ShowPath(paths[0]) + " | " + ShowUnion(paths[1..])
  }

  // ---------- parser ----------

  type Parsed<T> = Option<(T, string)>

  /** The rest of `s` after `lit`. */
  function Skip(s: string, lit: string): (r: Option<string>)
    ensures r.Some? ==> |r.value| == |s| - |lit|
  {
    if HasPrefix(s, lit) then Some(s[|lit|..]) else None
  }

  function NameChars(s: string): (r: (string, string))
    ensures |r.0| + |r.1| == |s|
  {
    if s != "" && IsNameChar(s[0]) then
      var (name, rest) := NameChars(s[1..]);
      ([s[0]] + name, rest)
    else ("", s)
  }

  function ParseName(s: string): (r: Parsed<string>)
    ensures r.Some? ==> |r.value.1| < |s|
  {
    if s != "" && IsNameStart(s[0]) then Some(NameChars(s)) else None
  }

  /** Text up to a closing quote. */
  function Quoted(s: string, q: char): (r: Parsed<string>)
    ensures r.Some? ==> |r.value.1| < |s|
  {
    if s == "" then None
    else if s[0] == q then Some(("", s[1..]))
    else
      match Quoted(s[1..], q)
      case None => None
      case Some((text, rest)) => Some(([s[0]] + text, rest))
  }

  function FuncOf(name: string): Option<Func> {
    if name == "contains" then Some(Contains)
    else if name == "concat" then Some(Concat)
    else if name == "normalize-space" then Some(NormalizeSpace)
    else None
  }

  function ParseExpr(s: string): (r: Parsed<Expr>)
    ensures r.Some? ==> |r.value.1| < |s|
    decreases |s|, 0
  {
    if s == "" then None
    else if s[0] == '\'' || s[0] == '"' then
      match Quoted(s[1..], s[0])
      case None => None
      case Some((text, rest)) => Some((Lit(text), rest))
    else if s[0] == '@' then
      match ParseName(s[1..])
      case None => None
      case Some((name, rest)) => Some((Attr(name), rest))
    else
      match ParseName(s)
      case None => None
      case Some((name, rest)) =>
        if FuncOf(name).None? || Skip(rest, "(").None? then None
        else
          match ParseArgs(Skip(rest, "(").value)
          case None => None
          case Some((args, rest')) =>
            if Arity(FuncOf(name).value, |args|) then Some((Call(FuncOf(name).value, args), rest')) else None
  }

  function ParseArgs(s: string): (r: Parsed<seq<Expr>>)
    ensures r.Some? ==> |r.value.1| < |s|
    decreases |s|, 1
  {
    match ParseExpr(s)
    case None => None
    case Some((e, rest)) =>
      if Skip(rest, ")").Some? then Some(([e], Skip(rest, ")").value))
      else if Skip(rest, ", ").None? then None
      else
        match ParseArgs(Skip(rest, ", ").value)
        case None => None
        case Some((args, rest')) => Some(([e] + args, rest'))
  }

  function ParseTest(s: string): (r: Parsed<Test>)
    ensures r.Some? ==> |r.value.1| < |s|
  {
    match ParseExpr(s)
    case None => None
    case Some((l, rest)) =>
      if Skip(rest, "=").None? then Some((Truth(l), rest))
      else
        match ParseExpr(Skip(rest, "=").value)
        case None => None
        case Some((r, rest')) => Some((Equals(l, r), rest'))
  }

  function ParseTests(s: string): (r: Parsed<seq<Test>>)
    ensures r.Some? ==> |r.value.1| < |s|
    decreases |s|
  {
    match ParseTest(s)
    case None => None
    case Some((t, rest)) =>
      if Skip(rest, "]").Some? then Some(([t], Skip(rest, "]").value))
      else if Skip(rest, " and ").None? then None
      else
        match ParseTests(Skip(rest, " and ").value)
        case None => None
        case Some((tests, rest')) => Some(([t] + tests, rest'))
  }

  function ParseTag(s: string): (r: Parsed<Option<string>>)
    ensures r.Some? ==> |r.value.1| < |s|
  {
    if Skip(s, "*").Some? then Some((None, Skip(s, "*").value))
    else
      match ParseName(s)
      case None => None
      case Some((name, rest)) => Some((Some(name), rest))
  }

  function ParseNode(s: string, deep: bool): (r: Parsed<Step>)
    ensures r.Some? ==> |r.value.1| < |s|
  {
    match ParseTag(s)
    case None => None
    case Some((tag, rest)) =>
      if Skip(rest, "[").None? then Some((Step(deep, tag, []), rest))
      else
        match ParseTests(Skip(rest, "[").value)
        case None => None
        case Some((tests, rest')) => Some((Step(deep, tag, tests), rest'))
  }

  /** Steps as long as there are any, then the tail. */
  function ParsePath(s: string): (r: Parsed<Path>)
    ensures r.Some? ==> |r.value.1| <= |s|
    decreases |s|
  {
    if Skip(s, "/text()").Some? then Some((Path([], TextTail), Skip(s, "/text()").value))
    else if Skip(s, "/@").Some? then
      match ParseName(Skip(s, "/@").value)
      case None => None
      case Some((name, rest)) => Some((Path([], AttrTail(name)), rest))
    else if Skip(s, "/").None? then Some((Path([], NoTail), s))
    else
      var deep := Skip(s, "//").Some?;
      match ParseNode(if deep then Skip(s, "//").value else Skip(s, "/").value, deep)
      case None => None
      case Some((step, rest)) =>
        match ParsePath(rest)
        case None => None
        case Some((p, rest')) => Some((Path([step] + p.steps, p.tail), rest'))
  }

  function ParseUnion(s: string): Option<seq<Path>>
    decreases |s|
  {
    match ParsePath(s)
    case None => None
    case Some((p, rest)) =>
      if rest == "" then Some([p])
      else if Skip(rest, " | ").None? then None
      else
        match ParseUnion(Skip(rest, " | ").value)
        case None => None
        case Some(paths) => Some([p] + paths)
  }

  // ---------- parsing undoes printing ----------

  lemma Skips(lit: string, rest: string)
    ensures Skip(lit + rest, lit) == Some(rest)
  {
    assert (lit + rest)[..|lit|] == lit && (lit + rest)[|lit|..] == rest;
  }

  /** Text that differs from `lit` at some place does not begin with it. */
  lemma SkipsNot(s: string, lit: string, i: nat)
    requires i < |lit| && (|s| <= i || s[i] != lit[i])
    ensures Skip(s, lit) == None
  {
    if |lit| <= |s| { assert s[..|lit|][i] == s[i]; }
  }

  /** Text that does not continue a name. */
  predicate Ends(rest: string) {
    rest == "" || !IsNameChar(rest[0])
  }

  lemma {:induction false} NameCharsRead(name: string, rest: string)
    requires Ends(rest) && forall i :: 0 <= i < |name| ==> IsNameChar(name[i])
    ensures NameChars(name + rest) == (name, rest)
  {
    if name == "" {
      assert name + rest == rest;
    } else {
      assert (name + rest)[1..] == name[1..] + rest;
      NameCharsRead(name[1..], rest);
      assert [name[0]] + name[1..] == name;
    }
  }

  lemma {:induction false} NameCharsSplit(s: string)
    ensures var (name, rest) := NameChars(s); s == name + rest && forall i :: 0 <= i < |name| ==> IsNameChar(name[i])
  {
    hide IsNameChar;
    if s != "" && IsNameChar(s[0]) {
      NameCharsSplit(s[1..]);
      assert s == [s[0]] + s[1..];
    }
  }

  lemma NameReads(name: string, rest: string)
    requires IsName(name) && Ends(rest)
    ensures ParseName(name + rest) == Some((name, rest))
  {
    NameCharsRead(name, rest);
  }

  lemma {:induction false} QuotedReads(v: string, q: char, rest: string)
    requires q !in v
    ensures Quoted(v + [q] + rest, q) == Some((v, rest))
  {
    var s := v + [q] + rest;
    if v == "" {
      assert s[1..] == rest;
    } else {
      assert s[1..] == v[1..] + [q] + rest;
      QuotedReads(v[1..], q, rest);
      assert [v[0]] + v[1..] == v;
    }
  }

  lemma LitReads(v: string, rest: string)
    requires '\'' !in v || '"' !in v
    ensures ParseExpr(ShowLit(v) + rest) == Some((Lit(v), rest))
  {
    var q := if '\'' !in v then '\'' else '"';
    assert ShowLit(v) + rest == [q] + (v + [q] + rest);
    QuotedReads(v, q, rest);
  }

  lemma FuncReads(f: Func)
    ensures FuncOf(FuncName(f)) == Some(f) && IsName(FuncName(f))
  {
  }

  lemma {:induction false} ExprReads(e: Expr, rest: string)
    requires GoodExpr(e) && Ends(rest)
    ensures ParseExpr(ShowExpr(e) + rest) == Some((e, rest))
    decreases e, 0
  {
    match e
    case Attr(name) =>
      assert ShowExpr(e) + rest == "@" + (name + rest);
      NameReads(name, rest);
    case Lit(v) => LitReads(v, rest);
    case Call(f, args) =>
      FuncReads(f);
      var after := "(" + (ShowArgs(args) + ")" + rest);
      assert ShowExpr(e) + rest == FuncName(f) + after;
      NameReads(FuncName(f), after);
      Skips("(", ShowArgs(args) + ")" + rest);
      ArgsRead(args, rest);
      CallReads(f, after, args, rest);
  }

  /** A function name, then arguments that parse. */
  lemma CallReads(f: Func, after: string, args: seq<Expr>, rest: string)
    requires IsName(FuncName(f)) && FuncOf(FuncName(f)) == Some(f) && Arity(f, |args|)
    requires ParseName(FuncName(f) + after) == Some((FuncName(f), after))
    requires Skip(after, "(").Some? && ParseArgs(Skip(after, "(").value) == Some((args, rest))
    ensures ParseExpr(FuncName(f) + after) == Some((Call(f, args), rest))
  {
    assert (FuncName(f) + after)[0] == FuncName(f)[0];
  }

  lemma {:induction false} ArgsRead(args: seq<Expr>, rest: string)
    requires args != [] && forall a :: a in args ==> GoodExpr(a)
    ensures ParseArgs(ShowArgs(args) + ")" + rest) == Some((args, rest))
    decreases args, 1
  {
    hide Skip, ShowExpr, ParseExpr, GoodExpr;
    if |args| == 1 {
      assert ShowArgs(args) + ")" + rest == ShowExpr(args[0]) + (")" + rest);
      ExprReads(args[0], ")" + rest);
      Skips(")", rest);
      assert args == [args[0]];
    } else {
      var more := ShowArgs(args[1..]) + ")" + rest;
      assert ShowArgs(args) + ")" + rest == ShowExpr(args[0]) + (", " + more);
      ExprReads(args[0], ", " + more);
      SkipsNot(", " + more, ")", 0);
      Skips(", ", more);
      ArgsRead(args[1..], rest);
      assert args == [args[0]] + args[1..];
    }
  }

  lemma TestReads(t: Test, rest: string)
    requires GoodTest(t) && Ends(rest) && (rest == "" || rest[0] != '=')
    ensures ParseTest(ShowTest(t) + rest) == Some((t, rest))
  {
    match t
    case Truth(e) =>
      ExprReads(e, rest);
      SkipsNot(rest, "=", 0);
    case Equals(l, r) =>
      assert ShowTest(t) + rest == ShowExpr(l) + ("=" + (ShowExpr(r) + rest));
      ExprReads(l, "=" + (ShowExpr(r) + rest));
      Skips("=", ShowExpr(r) + rest);
      ExprReads(r, rest);
  }

  lemma {:induction false} TestsRead(tests: seq<Test>, rest: string)
    requires tests != [] && GoodTests(tests)
    ensures ParseTests(ShowTests(tests) + "]" + rest) == Some((tests, rest))
  {
    hide ParseTest, ShowTest, Skip;
    assert GoodTest(tests[0]);
    if |tests| == 1 {
      assert ShowTests(tests) + "]" + rest == ShowTest(tests[0]) + ("]" + rest);
      TestReads(tests[0], "]" + rest);
      Skips("]", rest);
      assert tests == [tests[0]];
    } else {
      var more := ShowTests(tests[1..]) + "]" + rest;
      assert ShowTests(tests) + "]" + rest == ShowTest(tests[0]) + (" and " + more);
      TestReads(tests[0], " and " + more);
      SkipsNot(" and " + more, "]", 0);
      Skips(" and ", more);
      TestsRead(tests[1..], rest);
      assert tests == [tests[0]] + tests[1..];
    }
  }

  lemma TagReads(tag: Option<string>, rest: string)
    requires (tag.Some? ==> IsName(tag.value)) && Ends(rest)
    ensures ParseTag(ShowTag(tag) + rest) == Some((tag, rest))
  {
    if tag.None? {
      Skips("*", rest);
    } else {
      NameReads(tag.value, rest);
      SkipsNot(tag.value + rest, "*", 0);
    }
  }

  lemma NodeReads(s: Step, rest: string)
    requires GoodStep(s) && Ends(rest) && (rest == "" || rest[0] != '[')
    ensures ParseNode(ShowNode(s) + rest, s.deep) == Some((s, rest))
  {
    if s.tests == [] {
      assert ShowNode(s) + rest == ShowTag(s.tag) + rest;
      TagReads(s.tag, rest);
      SkipsNot(rest, "[", 0);
    } else {
      var more := ShowTests(s.tests) + "]" + rest;
      assert ShowNode(s) + rest == ShowTag(s.tag) + ("[" + more);
      TagReads(s.tag, "[" + more);
      Skips("[", more);
      TestsRead(s.tests, rest);
    }
  }

  /** What may follow a path: nothing, or a space. */
  predicate EndsPath(rest: string) {
    rest == "" || rest[0] == ' '
  }

  lemma TailReads(t: Tail, rest: string)
    requires (t.AttrTail? ==> IsName(t.name)) && EndsPath(rest)
    ensures ParsePath(ShowTail(t) + rest) == Some((Path([], t), rest))
  {
    match t
    case NoTail =>
      assert "" + rest == rest;
      SkipsNot(rest, "/text()", 0);
      SkipsNot(rest, "/@", 0);
      SkipsNot(rest, "/", 0);
    case TextTail => Skips("/text()", rest);
    case AttrTail(name) =>
      var s := ShowTail(t) + rest;
      assert s == "/@" + (name + rest);
      SkipsNot(s, "/text()", 1);
      Skips("/@", name + rest);
      NameReads(name, rest);
  }

  lemma NodeStart(s: Step, more: string)
    requires GoodStep(s)
    ensures var node := ShowNode(s) + more; node != "" && node[0] != '/' && node[0] != '@'
  {
    assert ShowTag(s.tag) != "";
  }

  /** The tag of a step is a star or a name, so a step is not mistaken for an attribute tail. */
  lemma StepIsNoTail(deep: bool, node: string)
    requires node != "" && node[0] != '/' && node[0] != '@'
    ensures var t := Slash(deep) + node;
            && Skip(t, "/@").None? && Skip(t, "/").Some?
            && (Skip(t, "//").Some? <==> deep)
            && (deep ==> Skip(t, "//").value == node)
            && (!deep ==> Skip(t, "/").value == node)
  {
    var t := Slash(deep) + node;
    if deep {
      Skips("//", node);
      Skips("/", "/" + node);
      assert t == "/" + ("/" + node);
    } else {
      Skips("/", node);
      SkipsNot(t, "//", 1);
    }
    SkipsNot(t, "/@", 1);
  }

  /** A name of any length, even "text", followed by something that is no name and no parenthesis. */
  lemma NameIsNotText(tag: string, after: string)
    requires IsName(tag) && (after == "" || (after[0] != '(' && !IsNameChar(after[0])))
    ensures Skip("/" + tag + after, "/text()").None?
  {
    var t := "/" + tag + after;
    if |tag| > 4 {
      assert t[5] == tag[4];
      SkipsNot(t, "/text()", 5);
    } else {
      assert after != "" ==> t[1 + |tag|] == after[0];
      SkipsNot(t, "/text()", 1 + |tag|);
    }
  }

  /** A step is not mistaken for the text() tail. */
  lemma StepIsNotText(s: Step, more: string)
    requires GoodStep(s) && (more == "" || more[0] != '(') && Ends(more)
    ensures Skip(Slash(s.deep) + (ShowNode(s) + more), "/text()").None?
  {
    hide ShowTests, GoodTests, Skip;
    var t := Slash(s.deep) + (ShowNode(s) + more);
    if s.deep || s.tag.None? {
      SkipsNot(t, "/text()", 1);
    } else {
      var after := (if s.tests == [] then "" else "[" + ShowTests(s.tests) + "]") + more;
      assert t == "/" + s.tag.value + after;
      NameIsNotText(s.tag.value, after);
    }
  }

  function ShowRest(steps: seq<Step>, t: Tail, rest: string): string {
    ShowSteps(steps) + ShowTail(t) + rest
  }

  lemma RestEnds(steps: seq<Step>, t: Tail, rest: string)
    requires EndsPath(rest)
    ensures var r := ShowRest(steps, t, rest); Ends(r) && (r == "" || (r[0] != '[' && r[0] != '('))
  {
    if steps != [] {
      assert ShowRest(steps, t, rest)[0] == '/';
    } else if !t.NoTail? {
      assert ShowRest(steps, t, rest)[0] == '/';
    } else {
      assert ShowRest(steps, t, rest) == rest;
    }
  }

  lemma RestUnfolds(steps: seq<Step>, t: Tail, rest: string)
    requires steps != []
    ensures ShowRest(steps, t, rest) == Slash(steps[0].deep) + (ShowNode(steps[0]) + ShowRest(steps[1..], t, rest))
  {
    hide ShowNode, ShowTail;
    var a, b, c, d := Slash(steps[0].deep), ShowNode(steps[0]), ShowSteps(steps[1..]), ShowTail(t);
    assert ShowSteps(steps) == a + b + c;
    assert a + b + c + d + rest == a + (b + (c + d + rest));
  }

  lemma RestEmpty(t: Tail, rest: string)
    ensures ShowRest([], t, rest) == ShowTail(t) + rest
  {
    assert "" + ShowTail(t) == ShowTail(t);
  }

  /** One turn of ParsePath. */
  lemma PathTurn(t: string, deep: bool, node: string, s: Step, more: string, p: Path, rest: string)
    requires Skip(t, "/text()").None? && Skip(t, "/@").None? && Skip(t, "/").Some?
    requires deep == Skip(t, "//").Some? && node == if deep then Skip(t, "//").value else Skip(t, "/").value
    requires ParseNode(node, deep) == Some((s, more)) && ParsePath(more) == Some((p, rest))
    ensures ParsePath(t) == Some((Path([s] + p.steps, p.tail), rest))
  {
    hide ParseNode, Skip;
  }

  lemma {:induction false} PathReads(steps: seq<Step>, t: Tail, rest: string)
    requires GoodSteps(steps) && (t.AttrTail? ==> IsName(t.name)) && EndsPath(rest)
    ensures ParsePath(ShowRest(steps, t, rest)) == Some((Path(steps, t), rest))
  {
    hide ParseNode, ParsePath, ShowNode, Skip, GoodStep, ShowTail, ShowRest, Ends;
    if steps == [] {
      RestEmpty(t, rest);
      TailReads(t, rest);
    } else {
      var s, more := steps[0], ShowRest(steps[1..], t, rest);
      assert GoodStep(s) && GoodSteps(steps[1..]);
      RestUnfolds(steps, t, rest);
      RestEnds(steps[1..], t, rest);
      NodeStart(s, more);
      StepIsNoTail(s.deep, ShowNode(s) + more);
      StepIsNotText(s, more);
      NodeReads(s, more);
      PathReads(steps[1..], t, rest);
      PathTurn(ShowRest(steps, t, rest), s.deep, ShowNode(s) + more, s, more, Path(steps[1..], t), rest);
      assert steps == [s] + steps[1..];
    }
  }

  /** Every printed union of paths parses to itself. */
  lemma {:induction false} ParseUndoesShow(paths: seq<Path>)
    requires paths != [] && forall p :: p in paths ==> GoodPath(p)
    ensures ParseUnion(ShowUnion(paths)) == Some(paths)
  {
    hide ParsePath, Skip, ShowPath, GoodSteps;
    var p := paths[0];
    assert GoodPath(p);
    if |paths| == 1 {
      PathThen(p, "");
      assert ShowPath(p) + "" == ShowPath(p);
      assert paths == [p];
    } else {
      var more := ShowUnion(paths[1..]);
      PathThen(p, " | " + more);
      assert ShowUnion(paths) == ShowPath(p) + (" | " + more);
      Skips(" | ", more);
      ParseUndoesShow(paths[1..]);
      assert paths == [p] + paths[1..];
    }
  }

  lemma PathThen(p: Path, rest: string)
    requires GoodPath(p) && EndsPath(rest)
    ensures ParsePath(ShowPath(p) + rest) == Some((p, rest))
  {
    PathReads(p.steps, p.tail, rest);
    assert ShowRest(p.steps, p.tail, rest) == ShowPath(p) + rest;
  }
}
