/** The front end of the translator, which cuts a selector list at its commas, a branch at its last double colon, and a
    base into compounds and combinators.  Splitting, cutting and parsing share the rules for quotes, brackets and
    escapes of CssScan and differ in what they stop at.  Printed compounds are quiet, and so the cuts undo printing,
    wherever blanks stand and however the combinators are written. */
module CssFront {
  import opened Wrappers
  import opened Text
  import opened CssLang
  import opened CssScan

  // ---------- splitting at commas ----------

  /** The pieces of `input` when the scan is in state `s` and `builder` has been read of the first. */
  function SplitFrom(s: Scan, input: string, builder: string): (parts: seq<string>)
    ensures parts != []
    decreases input
  {
    if input == "" then [builder]
    else if Stops(Commas, s, input[0]) then [builder] + SplitFrom(s, input[1..], "")
    else SplitFrom(Next(Commas, s, input[0]), input[1..], builder + [input[0]])
  }

  function Split(selector: string): seq<string> {
    SplitFrom(CLEAN, selector, "")
  }

  /** splitTopLevelCommas, with its loop variables. */
  method SplitTopLevelCommas(selector: string) returns (parts: seq<string>)
    ensures parts == Split(selector)
  {
    parts := [];
    var builder := "";
    var s := CLEAN;
    for i := 0 to |selector|
      invariant parts + SplitFrom(s, selector[i..], builder) == Split(selector)
    {
      assert selector[i..][0] == selector[i] && selector[i..][1..] == selector[i + 1..];
      if Stops(Commas, s, selector[i]) {
        parts := parts + [builder];
        builder := "";
      } else {
        s := Next(Commas, s, selector[i]);
        builder := builder + [selector[i]];
      }
    }
    parts := parts + [builder];
  }

  /** Joining the pieces with commas gives the text back. */
  lemma {:induction false} JoinUndoesSplit(s: Scan, input: string, builder: string)
    ensures Join(SplitFrom(s, input, builder), ",") == builder + input
    decreases input
  {
    if input == "" {
    } else if Stops(Commas, s, input[0]) {
      JoinUndoesSplit(s, input[1..], "");
      var rest := SplitFrom(s, input[1..], "");
      assert ([builder] + rest)[1..] == rest;
      assert builder + "," + ("" + input[1..]) == builder + input;
    } else {
      JoinUndoesSplit(Next(Commas, s, input[0]), input[1..], builder + [input[0]]);
      assert builder + [input[0]] + input[1..] == builder + input;
    }
  }

  /** A text without top-level commas is one piece. */
  lemma {:induction false} OnePiece(s: Scan, t: string, builder: string)
    requires NoStop(Commas, s, t)
    ensures SplitFrom(s, t, builder) == [builder + t]
    decreases t
  {
    if t == "" {
      assert builder + t == builder;
    } else {
      OnePiece(Next(Commas, s, t[0]), t[1..], builder + [t[0]]);
      assert builder + [t[0]] + t[1..] == builder + t;
    }
  }

  /** No piece has a top-level comma of its own. */
  lemma {:induction false} PiecesAreWhole(s: Scan, input: string, builder: string, p: string)
    requires NoStop(Commas, CLEAN, builder) && After(Commas, CLEAN, builder) == s
    requires p in SplitFrom(s, input, builder)
    ensures NoStop(Commas, CLEAN, p)
    decreases input
  {
    if input != "" {
      if Stops(Commas, s, input[0]) {
        if p != builder { PiecesAreWhole(s, input[1..], "", p); }
      } else {
        var c := [input[0]];
        assert c[1..] == "";
        ScanAppend(Commas, CLEAN, builder, c);
        PiecesAreWhole(Next(Commas, s, input[0]), input[1..], builder + c, p);
      }
    }
  }

  /** Splitting loses nothing, and splits completely: the pieces joined with commas are the text, and
      every piece splits to itself alone. */
  lemma SplitIsExact(selector: string, p: string)
    ensures Join(Split(selector), ",") == selector
    ensures p in Split(selector) ==> Split(p) == [p]
  {
    JoinUndoesSplit(CLEAN, selector, "");
    assert "" + selector == selector;
    if p in Split(selector) {
      PiecesAreWhole(CLEAN, selector, "", p);
      OnePiece(CLEAN, p, "");
      assert "" + p == p;
    }
  }

  /** The trimmed pieces that are not empty. */
  function NonEmpty(parts: seq<string>): seq<string> {
    if parts == [] then []
    else (if TrimSpace(parts[0]) != "" then [TrimSpace(parts[0])] else []) + NonEmpty(parts[1..])
  }

  /** selectorBranches without an identifier. */
  function Branches(selector: string): seq<string> {
    var branches := NonEmpty(Split(selector));
    if branches == [] then [selector] else branches
  }

  // ---------- the pseudo-element ----------

  /** The last top-level :: seen so far is at `found`; the scan is at index `i`. */
  function PseudoFrom(s: Scan, selector: string, i: nat, found: int): int
    decreases |selector| - i
  {
    if i + 1 >= |selector| then found
    else
      PseudoFrom(Next(Colons, s, selector[i]), selector, i + 1,
                 if Stops(Colons, s, selector[i]) && selector[i + 1] == ':' then i else found)
  }

  /** topLevelPseudoElementIndex, with its loop variables. */
  method TopLevelPseudoElementIndex(selector: string) returns (index: int)
    ensures index == PseudoFrom(CLEAN, selector, 0, -1)
  {
    index := -1;
    var s := CLEAN;
    var i := 0;
    while i + 1 < |selector|
      invariant 0 <= i
      invariant PseudoFrom(s, selector, i, index) == PseudoFrom(CLEAN, selector, 0, -1)
    {
      if Stops(Colons, s, selector[i]) && selector[i + 1] == ':' { index := i; }
      s := Next(Colons, s, selector[i]);
      i := i + 1;
    }
  }

  lemma {:induction false} PseudoRange(s: Scan, selector: string, i: nat, found: int)
    requires -1 <= found < |selector|
    ensures -1 <= PseudoFrom(s, selector, i, found) < |selector|
    decreases |selector| - i
  {
    if i + 1 < |selector| {
      PseudoRange(Next(Colons, s, selector[i]), selector, i + 1,
                  if Stops(Colons, s, selector[i]) && selector[i + 1] == ':' then i else found);
    }
  }

  datatype Error =
    | EmptySelector
    | InvalidAttrArgument
    | UnknownPseudoElement
    | EmptyClass
    | EmptyId
    | EmptyAttribute
    | InvalidContains
    | InvalidAttribute
    | Unterminated
    | Unsupported

  /** strings.Trim with both quotes as cut set. */
  function TrimQuotes(s: string): string {
    if s != "" && IsQuote(s[0]) then TrimQuotes(s[1..])
    else if s != "" && IsQuote(s[|s| - 1]) then TrimQuotes(s[..|s| - 1])
    else s
  }

  predicate HasBlank(s: string) {
    exists i :: 0 <= i < |s| && (s[i] == ' ' || s[i] == '\t' || s[i] == '\r' || s[i] == '\n')
  }

  /** What follows the base selector. */
  function ExtractionOf(pseudo: string): Result<Extraction, Error> {
    if pseudo == "::text" then Ok(TextNodes)
    else if |pseudo| >= 8 && HasPrefix(pseudo, "::attr(") && HasSuffix(pseudo, ")") then
      var name := TrimSpace(TrimQuotes(TrimSpace(pseudo[7..|pseudo| - 1])));
      if name == "" || HasBlank(name) then Err(InvalidAttrArgument) else Ok(AttrValue(name))
    else Err(UnknownPseudoElement)
  }

  /** parseCSSExtraction */
  function ParseExtraction(selector: string): Result<(string, Extraction), Error> {
    var sel := TrimSpace(selector);
    var index := PseudoFrom(CLEAN, sel, 0, -1);
    if index == -1 then Ok((sel, WholeElement))
    else
      PseudoRangeOf(sel);
      var base := TrimSpace(sel[..index]);
      match ExtractionOf(TrimSpace(sel[index..]))
      case Err(e) => Err(e)
      case Ok(extraction) => Ok((if base == "" then "*" else base, extraction))
  }

  lemma PseudoRangeOf(sel: string)
    ensures PseudoFrom(CLEAN, sel, 0, -1) == -1 || 0 <= PseudoFrom(CLEAN, sel, 0, -1) <= |sel|
  {
    if sel != "" { PseudoRange(CLEAN, sel, 0, -1); }
  }

  // ---------- steps ----------

  /** A step as the step parser leaves it: a combinator and the text of a compound selector. */
  datatype RawStep = RawStep(combinator: Combinator, text: string)

  datatype StepState = StepState(scan: Scan, builder: string, combinator: Combinator, steps: seq<RawStep>)

  function Flush(s: StepState): StepState {
    var part := TrimSpace(s.builder);
    if part == "" then s
    else s.(steps := s.steps + [RawStep(s.combinator, part)], builder := "", combinator := Descendant)
  }

  function ReadChar(s: StepState, c: char): StepState {
    if Stops(Spaces, s.scan, c) then
      if c == '>' then Flush(s).(combinator := Child) else Flush(s)
    else s.(builder := s.builder + [c], scan := Next(Spaces, s.scan, c))
  }

  function ReadText(s: StepState, t: string): StepState
    decreases t
  {
    if t == "" then s else ReadText(ReadChar(s, t[0]), t[1..])
  }

  const STEP_START := StepState(CLEAN, "", Descendant, [])

  function ParseSteps(selector: string): Result<seq<RawStep>, Error> {
    var sel := TrimSpace(selector);
    if sel == "" then Err(EmptySelector) else Ok(Flush(ReadText(STEP_START, sel)).steps)
  }

  /** parseCSSSteps, with its loop variables. */
  method ParseCssSteps(selector: string) returns (result: Result<seq<RawStep>, Error>)
    ensures result == ParseSteps(selector)
  {
    var sel := TrimSpace(selector);
    if sel == "" { return Err(EmptySelector); }
    var steps: seq<RawStep> := [];
    var builder := "";
    var combinator := Descendant;
    var scan := CLEAN;
    for i := 0 to |sel|
      invariant ReadText(StepState(scan, builder, combinator, steps), sel[i..]) == ReadText(STEP_START, sel)
    {
      assert sel[i..][0] == sel[i] && sel[i..][1..] == sel[i + 1..];
      if Stops(Spaces, scan, sel[i]) {
        var part := TrimSpace(builder);
        if part != "" {
          steps, builder, combinator := steps + [RawStep(combinator, part)], "", Descendant;
        }
        if sel[i] == '>' { combinator := Child; }
      } else {
        builder := builder + [sel[i]];
        scan := Next(Spaces, scan, sel[i]);
      }
    }
    var part := TrimSpace(builder);
    if part != "" { steps := steps + [RawStep(combinator, part)]; }
    return Ok(steps);
  }

  // ---------- parsing undoes printing ----------

  /** The text of one compound selector, for the front end: no outer blanks, and nothing that any of the
      scanners would stop at. */
  predicate GoodText(t: string) {
    t != "" && Trimmed(t) && Quiet(Commas, t) && Quiet(Colons, t) && Quiet(Spaces, t)
  }

  /** A step and how its combinator is written; the first step of a branch has none. */
  datatype Printed = Printed(gap: string, step: RawStep)

  /** `before` and `after` are the blanks around the branch. */
  datatype Branch =
    Branch(steps: seq<Printed>, extraction: Extraction, layout: NameLayout, before: string, after: string)

  /** Steps after the first. */
  ghost predicate GoodMore(steps: seq<Printed>) {
    forall s :: s in steps ==> GoodText(s.step.text) && SpellsBy(IsSpace, s.step.combinator, s.gap)
  }

  ghost predicate GoodPrinted(steps: seq<Printed>) {
    && steps != [] && GoodText(steps[0].step.text) && steps[0].step.combinator == Descendant
    && GoodMore(steps[1..])
  }

  predicate SpaceLayout(l: NameLayout) {
    AllSpace(l.open) && AllSpace(l.inner) && AllSpace(l.innerEnd) && AllSpace(l.close)
  }

  predicate GoodExtraction(e: Extraction, l: NameLayout) {
    e.AttrValue? ==> IsIdent(e.name) && SpaceLayout(l)
  }

  /** A branch of compounds and combinators, or a pseudo-element alone. */
  ghost predicate GoodBranch(b: Branch) {
    && (GoodPrinted(b.steps) || (b.steps == [] && !b.extraction.WholeElement?))
    && GoodExtraction(b.extraction, b.layout) && AllSpace(b.before) && AllSpace(b.after)
  }

  const ANY_ELEMENT := Printed("", RawStep(Descendant, "*"))

  /** A pseudo-element alone belongs to every element. */
  function StepsRead(b: Branch): seq<Printed> {
    if b.steps == [] then [ANY_ELEMENT] else b.steps
  }

  function ShowMore(steps: seq<Printed>): string {
    if steps == [] then "" else steps[0].gap + steps[0].step.text + ShowMore(steps[1..])
  }

  function ShowPrinted(steps: seq<Printed>): string {
    if steps == [] then "" else steps[0].step.text + ShowMore(steps[1..])
  }

  function ShowBranch(b: Branch): string {
    ShowPrinted(b.steps) + ShowExtraction(b.extraction, b.layout)
  }

  /** The branches as they stand between the commas. */
  function Pieces(list: seq<Branch>): (r: seq<string>)
    ensures |r| == |list|
  {
    if list == [] then []
    else [list[0].before + ShowBranch(list[0]) + list[0].after] + Pieces(list[1..])
  }

  function ShowBranches(list: seq<Branch>): string {
    Join(Pieces(list), ",")
  }

  function RawSteps(steps: seq<Printed>): (r: seq<RawStep>)
    ensures |r| == |steps|
  {
    if steps == [] then [] else [steps[0].step] + RawSteps(steps[1..])
  }

  lemma {:induction false} RawStepsAre(steps: seq<Printed>)
    ensures forall i :: 0 <= i < |steps| ==> RawSteps(steps)[i] == steps[i].step
  {
    if steps != [] { RawStepsAre(steps[1..]); }
  }

  // steps

  lemma {:induction false} ReadAppend(s: StepState, a: string, b: string)
    ensures ReadText(s, a + b) == ReadText(ReadText(s, a), b)
    decreases a
  {
    if a == "" {
      assert a + b == b;
    } else {
      assert (a + b)[1..] == a[1..] + b;
      ReadAppend(ReadChar(s, a[0]), a[1..], b);
    }
  }

  lemma {:induction false} ReadQuiet(s: StepState, t: string)
    requires NoStop(Spaces, s.scan, t)
    ensures ReadText(s, t) == s.(builder := s.builder + t, scan := After(Spaces, s.scan, t))
    decreases t
  {
    if t == "" {
      assert s.builder + t == s.builder;
    } else {
      ReadQuiet(ReadChar(s, t[0]), t[1..]);
      assert s.builder + [t[0]] + t[1..] == s.builder + t;
    }
  }

  /** Blanks between steps change nothing. */
  lemma {:induction false} ReadBlanks(s: StepState, blanks: string)
    requires s.scan == CLEAN && s.builder == "" && AllSpace(blanks)
    ensures ReadText(s, blanks) == s
    decreases blanks
  {
    if blanks != "" {
      assert ReadChar(s, blanks[0]) == s;
      ReadBlanks(s, blanks[1..]);
    }
  }

  /** The first blank closes the step that was being read. */
  lemma ReadSpaces(s: StepState, blanks: string)
    requires s.scan == CLEAN && GoodText(s.builder) && blanks != "" && AllSpace(blanks)
    ensures ReadText(s, blanks) == Flush(s) ==
            StepState(CLEAN, "", Descendant, s.steps + [RawStep(s.combinator, s.builder)])
  {
    hide Quiet, TrimSpace;
    TrimmedStays(s.builder);
    assert ReadChar(s, blanks[0]) == Flush(s);
    ReadBlanks(Flush(s), blanks[1..]);
  }

  /** Reading a combinator, however it is written, closes the step that was being read and is kept for the next. */
  lemma ReadGap(s: StepState, c: Combinator, gap: string)
    requires s.scan == CLEAN && GoodText(s.builder) && SpellsBy(IsSpace, c, gap)
    ensures ReadText(s, gap) == StepState(CLEAN, "", c, s.steps + [RawStep(s.combinator, s.builder)])
  {
    if c.Descendant? {
      ReadSpaces(s, gap);
    } else {
      var k :| 0 <= k < |gap| && gap[k] == '>' && forall i :: 0 <= i < |gap| && i != k ==> IsSpace(gap[i]);
      ReadChild(s, gap[..k], gap[k + 1..]);
      assert gap == gap[..k] + ([gap[k]] + gap[k + 1..]);
    }
  }

  lemma ReadChild(s: StepState, left: string, right: string)
    requires s.scan == CLEAN && GoodText(s.builder) && AllSpace(left) && AllSpace(right)
    ensures ReadText(s, left + (['>'] + right)) ==
            StepState(CLEAN, "", Child, s.steps + [RawStep(s.combinator, s.builder)])
  {
    assert TrimSpace("") == "";
    hide Quiet, TrimSpace;
    TrimmedStays(s.builder);
    var closed := Flush(s);
    ReadAppend(s, left, ['>'] + right);
    ReadAppend(ReadText(s, left), ['>'], right);
    assert ['>'][1..] == "";
    if left != "" { ReadSpaces(s, left); }
    assert ReadChar(ReadText(s, left), '>') == closed.(combinator := Child);
    ReadBlanks(closed.(combinator := Child), right);
  }

  lemma {:induction false} ReadMore(s: StepState, steps: seq<Printed>)
    requires s.scan == CLEAN && GoodText(s.builder) && GoodMore(steps)
    ensures Flush(ReadText(s, ShowMore(steps))).steps == s.steps + [RawStep(s.combinator, s.builder)] + RawSteps(steps)
    decreases steps
  {
    hide GoodText, ReadText, Flush, SpellsBy;
    if steps == [] {
      FlushLast(s);
      assert s.steps + [RawStep(s.combinator, s.builder)] + [] == s.steps + [RawStep(s.combinator, s.builder)];
    } else {
      var first := steps[0];
      ReadStep(s, first);
      ReadAppend(s, first.gap + first.step.text, ShowMore(steps[1..]));
      ReadMore(StepState(CLEAN, first.step.text, first.step.combinator, s.steps + [RawStep(s.combinator, s.builder)]),
               steps[1..]);
      assert s.steps + [RawStep(s.combinator, s.builder)] + [first.step] + RawSteps(steps[1..]) ==
             s.steps + [RawStep(s.combinator, s.builder)] + RawSteps(steps);
    }
  }

  lemma FlushLast(s: StepState)
    requires GoodText(s.builder)
    ensures Flush(ReadText(s, "")).steps == s.steps + [RawStep(s.combinator, s.builder)]
  {
    TrimmedStays(s.builder);
  }

  lemma ReadStep(s: StepState, next: Printed)
    requires s.scan == CLEAN && GoodText(s.builder) && GoodText(next.step.text)
    requires SpellsBy(IsSpace, next.step.combinator, next.gap)
    ensures ReadText(s, next.gap + next.step.text) ==
            StepState(CLEAN, next.step.text, next.step.combinator, s.steps + [RawStep(s.combinator, s.builder)])
  {
    hide SpellsBy;
    ReadGap(s, next.step.combinator, next.gap);
    ReadAppend(s, next.gap, next.step.text);
    ReadQuiet(StepState(CLEAN, "", next.step.combinator, s.steps + [RawStep(s.combinator, s.builder)]), next.step.text);
    assert "" + next.step.text == next.step.text;
  }

  lemma JoinedTrimmed(a: string, middle: string, b: string)
    requires a != "" && Trimmed(a) && GoodText(b)
    ensures Trimmed(a + (middle + b))
  {
    var joined := a + (middle + b);
    assert joined[0] == a[0] && joined[|joined| - 1] == b[|b| - 1];
  }

  lemma Regroup(a: string, b: string, c: string)
    ensures a + (b + c) == a + b + c
  {
  }

  lemma {:induction false} MoreTrimmed(text: string, steps: seq<Printed>)
    requires text != "" && Trimmed(text) && GoodMore(steps)
    ensures text + ShowMore(steps) != "" && Trimmed(text + ShowMore(steps))
    decreases steps
  {
    hide Trimmed, GoodText;
    if steps == [] {
      assert text + ShowMore(steps) == text;
    } else {
      var step := steps[0].gap + steps[0].step.text;
      JoinedTrimmed(text, steps[0].gap, steps[0].step.text);
      MoreTrimmed(text + step, steps[1..]);
      Regroup(text, step, ShowMore(steps[1..]));
    }
  }

  lemma PrintedTrimmed(steps: seq<Printed>)
    requires GoodPrinted(steps)
    ensures Trimmed(ShowPrinted(steps)) && ShowPrinted(steps) != ""
  {
    MoreTrimmed(steps[0].step.text, steps[1..]);
  }

  /** Parsing printed steps gives the steps back, however their combinators are written. */
  lemma StepsRoundTrip(steps: seq<Printed>)
    requires GoodPrinted(steps)
    ensures ParseSteps(ShowPrinted(steps)) == Ok(RawSteps(steps))
  {
    hide TrimSpace, GoodPrinted, ReadText, Flush, ShowPrinted;
    PrintedTrimmed(steps);
    TrimmedStays(ShowPrinted(steps));
    ReadPrinted(steps);
  }

  lemma ReadPrinted(steps: seq<Printed>)
    requires GoodPrinted(steps)
    ensures Flush(ReadText(STEP_START, ShowPrinted(steps))).steps == RawSteps(steps)
  {
    hide GoodText, GoodMore, ReadText, Flush;
    var first := steps[0].step.text;
    ReadAppend(STEP_START, first, ShowMore(steps[1..]));
    ReadFirst(first);
    ReadMore(StepState(CLEAN, first, Descendant, []), steps[1..]);
    assert [] + [steps[0].step] + RawSteps(steps[1..]) == RawSteps(steps);
  }

  lemma ReadFirst(text: string)
    requires GoodText(text)
    ensures ReadText(STEP_START, text) == StepState(CLEAN, text, Descendant, [])
  {
    ReadQuiet(STEP_START, text);
    assert "" + text == text;
  }

  // extraction

  lemma GapQuiet(kind: Kind, c: Combinator, gap: string)
    requires kind != Spaces && SpellsBy(IsSpace, c, gap)
    ensures Quiet(kind, gap)
  {
    PlainPasses(kind, CLEAN, gap);
  }

  lemma {:induction false} MoreQuiet(kind: Kind, steps: seq<Printed>)
    requires kind != Spaces && GoodMore(steps)
    ensures Quiet(kind, ShowMore(steps))
    decreases steps
  {
    if steps != [] {
      hide SpellsBy;
      var gap, text := steps[0].gap, steps[0].step.text;
      assert GoodText(text);
      GapQuiet(kind, steps[0].step.combinator, gap);
      QuietAppend(kind, gap, text);
      MoreQuiet(kind, steps[1..]);
      QuietAppend(kind, gap + text, ShowMore(steps[1..]));
    }
  }

  lemma PrintedQuiet(kind: Kind, steps: seq<Printed>)
    requires kind != Spaces && GoodPrinted(steps)
    ensures Quiet(kind, ShowPrinted(steps))
  {
    MoreQuiet(kind, steps[1..]);
    QuietAppend(kind, steps[0].step.text, ShowMore(steps[1..]));
  }

  /** The scan for the pseudo-element goes on behind a text, whatever it has found there. */
  lemma {:induction false} PseudoGoesOn(s: Scan, before: string, t: string, rest: string, found: int)
    returns (f: int)
    requires rest != ""
    ensures PseudoFrom(s, before + t + rest, |before|, found) ==
            PseudoFrom(After(Colons, s, t), before + t + rest, |before| + |t|, f)
    decreases t
  {
    var sel := before + t + rest;
    if t == "" {
      f := found;
    } else {
      assert sel[|before|] == t[0];
      assert before + [t[0]] + t[1..] + rest == sel;
      f := PseudoGoesOn(Next(Colons, s, t[0]), before + [t[0]], t[1..], rest,
                   if Stops(Colons, s, t[0]) && sel[|before| + 1] == ':' then |before| else found);
    }
  }

  lemma {:induction false} NoPseudo(s: Scan, before: string, t: string, found: int)
    requires NoStop(Colons, s, t)
    ensures PseudoFrom(s, before + t, |before|, found) == found
    decreases t
  {
    var sel := before + t;
    if |t| >= 2 {
      assert sel[|before|] == t[0];
      NoPseudo(Next(Colons, s, t[0]), before + [t[0]], t[1..], found);
      assert before + [t[0]] + t[1..] == sel;
    }
  }

  /** Two colons: the place is recorded, whatever was found before, and the scan goes on behind them. */
  lemma ColonsFound(sel: string, n: nat, found: int)
    requires n + 2 < |sel| && sel[n] == sel[n + 1] == ':' && sel[n + 2] != ':'
    ensures PseudoFrom(CLEAN, sel, n, found) == PseudoFrom(CLEAN, sel, n + 2, n)
  {
    assert PseudoFrom(CLEAN, sel, n, found) == PseudoFrom(CLEAN, sel, n + 1, n);
  }

  /** The last double colon outside quotes, brackets and parentheses is found. */
  lemma LastColonsFound(base: string, tail: string)
    requires After(Colons, CLEAN, base) == CLEAN
    requires tail != "" && tail[0] != ':' && NoStop(Colons, CLEAN, tail)
    ensures PseudoFrom(CLEAN, base + "::" + tail, 0, -1) == |base|
  {
    hide PseudoFrom, After, NoStop;
    var sel := base + "::" + tail;
    assert sel == "" + base + ("::" + tail) && sel == (base + "::") + tail;
    var f := PseudoGoesOn(CLEAN, "", base, "::" + tail, -1);
    assert sel[|base| + 2] == tail[0];
    ColonsFound(sel, |base|, f);
    NoPseudo(CLEAN, base + "::", tail, |base|);
  }

  /** The scan is between items there if text is nested as its quotes, brackets and parentheses show. */
  lemma NestedPseudo(base: seq<Item>, tail: seq<Item>)
    requires AllNested(Commas, base, false) && AllNested(Colons, tail, false) && ShowItems(tail) != ""
    ensures PseudoFrom(CLEAN, ShowItems(base) + "::" + ShowItems(tail), 0, -1) == |ShowItems(base)|
    ensures PseudoFrom(CLEAN, ShowItems(tail), 0, -1) == -1
  {
    NestedIsQuiet(Commas, base);
    SameScan(CLEAN, ShowItems(base));
    NestedIsQuiet(Colons, tail);
    assert ShowItems(tail)[0] != ':' by { assert tail[0] in tail; }
    LastColonsFound(ShowItems(base), ShowItems(tail));
    NoPseudo(CLEAN, "", ShowItems(tail), -1);
    assert "" + ShowItems(tail) == ShowItems(tail);
  }

  lemma {:induction false} SameScan(s: Scan, t: string)
    ensures After(Commas, s, t) == After(Colons, s, t)
    decreases t
  {
    if t != "" { SameScan(Next(Commas, s, t[0]), t[1..]); }
  }

  lemma IdentTrims(name: string)
    requires IsIdent(name)
    ensures TrimSpace(name) == name && TrimQuotes(name) == name && !HasBlank(name) && PlainEnds(name)
  {
    TrimmedStays(name);
  }

  lemma QuotesGo(q: char, t: string)
    requires IsQuote(q) && (t != "" ==> !IsQuote(t[0]) && !IsQuote(t[|t| - 1]))
    ensures TrimQuotes([q] + t + [q]) == t
  {
    var s := [q] + t + [q];
    assert s[1..] == t + [q] && (t + [q])[..|t|] == t;
    assert TrimQuotes(s) == TrimQuotes(t + [q]) == TrimQuotes(t);
  }

  /** The name between the parentheses is found, however it is laid out. */
  lemma NameReads(name: string, l: NameLayout)
    requires PlainEnds(name) && SpaceLayout(l)
    ensures TrimSpace(TrimQuotes(TrimSpace(ShowName(name, l)))) == name
  {
    hide TrimSpace, TrimQuotes;
    if l.quoting.Bare? {
      PaddingTrims(l.open, name, l.close);
      assert TrimQuotes(name) == name by { NoQuotes(name); }
      TrimmedStays(name);
    } else {
      var q := if l.quoting.InSingle? then '\'' else '"';
      var t := l.inner + name + l.innerEnd;
      assert ShowName(name, l) == l.open + ([q] + t + [q]) + l.close;
      PaddingTrims(l.open, [q] + t + [q], l.close);
      QuotesGo(q, t);
      PaddingTrims(l.inner, name, l.innerEnd);
    }
  }

  lemma NoQuotes(name: string)
    requires PlainEnds(name)
    ensures TrimQuotes(name) == name
  {
  }

  lemma BlankInside(name: string)
    ensures HasBlank(name) <==> exists c :: c in name && c in " \t\r\n"
  {
    if HasBlank(name) {
      var i :| 0 <= i < |name| && name[i] in " \t\r\n";
      assert name[i] in name;
    }
  }

  /** A name in any layout is an attribute to extract if and only if it is not empty and has no blank inside. */
  lemma AttrArgument(name: string, l: NameLayout)
    requires PlainEnds(name) && SpaceLayout(l)
    ensures ExtractionOf("::attr(" + ShowName(name, l) + ")") ==
            if name == "" || exists c :: c in name && c in " \t\r\n" then Err(InvalidAttrArgument)
            else Ok(AttrValue(name))
  {
    BlankInside(name);
    hide TrimSpace, TrimQuotes, HasBlank, ShowName, SpaceLayout, PlainEnds;
    var shown := ShowName(name, l);
    var s := "::attr(" + shown + ")";
    assert s[2] == 'a' && "::text"[2] == 't';
    assert s[..7] == "::attr(" && s[|s| - 1..] == ")" && s[7..|s| - 1] == shown;
    NameReads(name, l);
  }

  /** Any other name behind the last double colon is an error. */
  lemma UnknownFails(base: string, name: string)
    requires Trimmed(base) && After(Colons, CLEAN, base) == CLEAN && IsIdent(name) && name != "text"
    ensures ParseExtraction(base + "::" + name) == Err(UnknownPseudoElement)
  {
    hide PseudoFrom, Trimmed, After, TrimSpace, NoStop;
    var tail := "::" + name;
    UnknownExtraction(name);
    PlainPasses(Colons, CLEAN, name);
    LastColonsFound(base, name);
    assert Trimmed(tail) by { ColonsTrimmed(name); }
    assert base + "::" + name == base + "" + tail && "" == base[..0];
    GapTrims(base, "", tail);
    TrimmedStays(tail);
    assert (base + tail)[..|base|] == base && (base + tail)[|base|..] == tail;
    assert base + "" + tail == base + tail;
  }

  lemma ColonsTrimmed(name: string)
    requires IsIdent(name)
    ensures Trimmed("::" + name)
  {
  }

  lemma UnknownExtraction(name: string)
    requires IsIdent(name) && name != "text"
    ensures ExtractionOf("::" + name) == Err(UnknownPseudoElement)
  {
    var tail := "::" + name;
    assert tail[2..] == name && "::text"[2..] == "text";
    assert tail[|tail| - 1..] == [name[|name| - 1]];
  }

  lemma ExtractionReads(e: Extraction, l: NameLayout)
    requires !e.WholeElement? && GoodExtraction(e, l)
    ensures ExtractionOf(ShowExtraction(e, l)) == Ok(e) && Trimmed(ShowExtraction(e, l))
    ensures ShowExtraction(e, l) != ""
  {
    hide ExtractionOf, Trimmed, ShowName;
    match e
    case TextNodes => TextExtraction();
    case AttrValue(name) =>
      IdentTrims(name);
      BlankInside(name);
      AttrArgument(name, l);
      AttrTrimmed(name, l);
  }

  lemma AttrTrimmed(name: string, l: NameLayout)
    ensures Trimmed("::attr(" + ShowName(name, l) + ")")
  {
    hide ShowName;
    var s := "::attr(" + ShowName(name, l) + ")";
    assert s[0] == ':' && s[|s| - 1] == ')';
  }

  lemma TextExtraction()
    ensures ExtractionOf("::text") == Ok(TextNodes) && Trimmed("::text")
  {
  }

  const IN_PARENS := CLEAN.(paren := 1)

  lemma NamePasses(kind: Kind, name: string, l: NameLayout)
    requires kind != Spaces && IsIdent(name) && SpaceLayout(l)
    ensures Passes(kind, IN_PARENS, ShowName(name, l), IN_PARENS)
  {
    hide Passes;
    var shown := if l.quoting.Bare? then name else ShowValue(l.quoting, l.inner + name + l.innerEnd);
    PlainPasses(kind, IN_PARENS, l.open);
    PlainPasses(kind, IN_PARENS, l.close);
    assert Passes(kind, IN_PARENS, shown, IN_PARENS) by {
      if l.quoting.Bare? {
        PlainPasses(kind, IN_PARENS, name);
      } else {
        var q := if l.quoting.InSingle? then '\'' else '"';
        var t := l.inner + name + l.innerEnd;
        PlainPasses(kind, IN_PARENS.(quote := Some(q)), t);
        PassesAround(kind, IN_PARENS, q, t, q, IN_PARENS.(quote := Some(q)));
        assert shown == [q] + t + [q];
      }
    }
    PassesBoth(kind, IN_PARENS, l.open, IN_PARENS, shown, IN_PARENS);
    PassesBoth(kind, IN_PARENS, l.open + shown, IN_PARENS, l.close, IN_PARENS);
  }

  /** What follows the double colon. */
  function ExtractionName(e: Extraction, l: NameLayout): string
    requires !e.WholeElement?
  {
    match e case TextNodes => "text" case AttrValue(name) => "attr(" + ShowName(name, l) + ")"
  }

  lemma ExtractionQuiet(kind: Kind, e: Extraction, l: NameLayout)
    requires kind != Spaces && !e.WholeElement? && GoodExtraction(e, l)
    ensures Quiet(kind, ExtractionName(e, l))
    ensures ShowExtraction(e, l) == "::" + ExtractionName(e, l) && ExtractionName(e, l)[0] != ':'
  {
    match e
    case TextNodes => PlainPasses(kind, CLEAN, "text");
    case AttrValue(name) =>
      hide ShowName, SpaceLayout;
      PlainPasses(kind, CLEAN, "attr");
      NamePasses(kind, name, l);
      PassesAround(kind, CLEAN, '(', ShowName(name, l), ')', IN_PARENS);
      QuietAppend(kind, "attr", ['('] + ShowName(name, l) + [')']);
      assert "attr" + (['('] + ShowName(name, l) + [')']) == "attr(" + ShowName(name, l) + ")";
  }

  /** Cutting a printed branch gives its base and its extraction; blanks before the double colon are no descendant
      combinator, and a pseudo-element alone belongs to every element. */
  lemma ExtractionRoundTrip(base: string, gap: string, e: Extraction, l: NameLayout)
    requires Trimmed(base) && After(Colons, CLEAN, base) == CLEAN && AllSpace(gap) && (base == "" ==> gap == "")
    requires !e.WholeElement? && GoodExtraction(e, l)
    ensures ParseExtraction(base + gap + ShowExtraction(e, l)) == Ok((if base == "" then "*" else base, e))
  {
    hide PseudoFrom, ExtractionOf, Trimmed, After, TrimSpace, ShowExtraction;
    var all, tail := base + gap, ShowExtraction(e, l);
    ExtractionReads(e, l);
    ExtractionQuiet(Colons, e, l);
    PlainPasses(Colons, CLEAN, gap);
    ScanAppend(Colons, CLEAN, base, gap);
    LastColonsFound(all, ExtractionName(e, l));
    assert all + "::" + ExtractionName(e, l) == all + tail;
    assert TrimSpace(all + tail) == all + tail by { GapTrims(base, gap, tail); }
    TrimmedStays(tail);
    PaddingTrims("", base, gap);
    assert "" + base + gap == all;
    assert (all + tail)[..|all|] == all && (all + tail)[|all|..] == tail;
  }

  lemma GapTrims(base: string, gap: string, tail: string)
    requires Trimmed(base) && (base == "" ==> gap == "") && tail != "" && Trimmed(tail)
    ensures TrimSpace(base + gap + tail) == base + gap + tail
  {
    var sel := base + gap + tail;
    assert sel[0] == (if base == "" then tail[0] else base[0]) && sel[|sel| - 1] == tail[|tail| - 1];
    TrimmedStays(sel);
  }

  lemma NoExtraction(base: string)
    requires Trimmed(base) && Quiet(Colons, base)
    ensures ParseExtraction(base) == Ok((base, WholeElement))
  {
    TrimmedStays(base);
    NoPseudo(CLEAN, "", base, -1);
    assert "" + base == base;
  }

  // branches

  /** A quiet text and then a comma: the text is the first piece. */
  lemma {:induction false} SplitAtComma(s: Scan, t: string, rest: string, builder: string)
    requires NoStop(Commas, s, t) && After(Commas, s, t) == CLEAN
    ensures SplitFrom(s, t + "," + rest, builder) == [builder + t] + SplitFrom(CLEAN, rest, "")
    decreases t
  {
    var input := t + "," + rest;
    if t == "" {
      assert input[1..] == rest && builder + t == builder;
    } else {
      assert input[0] == t[0] && input[1..] == t[1..] + "," + rest;
      SplitAtComma(Next(Commas, s, t[0]), t[1..], rest, builder + [t[0]]);
      assert builder + [t[0]] + t[1..] == builder + t;
    }
  }

  /** Quiet pieces joined with commas are split into themselves. */
  lemma {:induction false} SplitUndoesJoin(parts: seq<string>)
    requires parts != [] && forall p :: p in parts ==> Quiet(Commas, p)
    ensures Split(Join(parts, ",")) == parts
    decreases parts
  {
    var first := parts[0];
    assert first in parts;
    if |parts| == 1 {
      OnePiece(CLEAN, first, "");
      assert "" + first == first;
    } else {
      SplitAtComma(CLEAN, first, Join(parts[1..], ","), "");
      assert "" + first == first;
      SplitUndoesJoin(parts[1..]);
    }
  }

  function ShownPieces(pieces: seq<seq<Item>>): (r: seq<string>)
    ensures |r| == |pieces|
    ensures forall i :: 0 <= i < |pieces| ==> r[i] == ShowItems(pieces[i])
  {
    if pieces == [] then [] else [ShowItems(pieces[0])] + ShownPieces(pieces[1..])
  }

  /** Commas inside quotes, brackets or parentheses, and escaped ones, do not split; all others do. */
  lemma NestedSplit(pieces: seq<seq<Item>>)
    requires pieces != [] && forall p :: p in pieces ==> AllNested(Commas, p, false)
    ensures Split(Join(ShownPieces(pieces), ",")) == ShownPieces(pieces)
  {
    var parts := ShownPieces(pieces);
    forall p | p in parts ensures Quiet(Commas, p) {
      var i :| 0 <= i < |parts| && parts[i] == p;
      assert pieces[i] in pieces;
      NestedIsQuiet(Commas, pieces[i]);
    }
    SplitUndoesJoin(parts);
  }

  lemma {:induction false} BlankPieceGoes(a: seq<string>, blank: string, b: seq<string>)
    requires AllSpace(blank)
    ensures NonEmpty(a + [blank] + b) == NonEmpty(a + b)
  {
    if a == [] {
      PaddingTrims(blank, "", "");
      assert blank + "" + "" == blank;
      assert (a + [blank] + b)[1..] == b && a + b == b;
    } else {
      assert (a + [blank] + b)[1..] == a[1..] + [blank] + b && (a + b)[1..] == a[1..] + b;
      BlankPieceGoes(a[1..], blank, b);
    }
  }

  /** Where a comma too many leaves an empty branch, nothing changes as long as there is another one. */
  lemma EmptyBranchGoes(a: seq<string>, blank: string, b: seq<string>)
    requires AllSpace(blank) && (forall p :: p in a + b ==> Quiet(Commas, p))
    requires exists p :: p in a + b && TrimSpace(p) != ""
    ensures Branches(Join(a + [blank] + b, ",")) == Branches(Join(a + b, ","))
  {
    PlainPasses(Commas, CLEAN, blank);
    assert a + b != [] && Quiet(Commas, blank);
    SplitUndoesJoin(a + [blank] + b);
    SplitUndoesJoin(a + b);
    BlankPieceGoes(a, blank, b);
    var p :| p in a + b && TrimSpace(p) != "";
    SomeBranch(a + b, p);
  }

  lemma {:induction false} SomeBranch(parts: seq<string>, p: string)
    requires p in parts && TrimSpace(p) != ""
    ensures NonEmpty(parts) != []
  {
    if p != parts[0] { SomeBranch(parts[1..], p); }
  }

  // nothing but commas

  predicate OnlyCommas(s: string) {
    forall i :: 0 <= i < |s| ==> s[i] == ',' || IsSpace(s[i])
  }

  lemma {:induction false} NoBranches(s: string, builder: string)
    requires OnlyCommas(s) && AllSpace(builder)
    ensures NonEmpty(SplitFrom(CLEAN, s, builder)) == []
    decreases s
  {
    if s == "" {
      BlankIsDropped(builder, []);
      assert [builder] + [] == [builder];
    } else if s[0] == ',' {
      NoBranches(s[1..], "");
      BlankIsDropped(builder, SplitFrom(CLEAN, s[1..], ""));
    } else {
      hide NonEmpty;
      assert OnlyCommas(s[1..]) && !Stops(Commas, CLEAN, s[0]) && Next(Commas, CLEAN, s[0]) == CLEAN;
      NoBranches(s[1..], builder + [s[0]]);
    }
  }

  lemma BlankIsDropped(blank: string, more: seq<string>)
    requires AllSpace(blank)
    ensures NonEmpty([blank] + more) == NonEmpty(more)
  {
    BlankPieceGoes([], blank, more);
    assert [] + [blank] + more == [blank] + more && [] + more == more;
  }

  /** The first step begins with a comma. */
  ghost predicate CommaFirst(s: StepState) {
    if s.steps != [] then s.steps[0].text != "" && s.steps[0].text[0] == ',' else s.builder != "" && s.builder[0] == ','
  }

  lemma FlushKeepsFirst(s: StepState)
    requires CommaFirst(s)
    ensures CommaFirst(Flush(s)) && Flush(s).steps != []
  {
    if s.steps == [] {
      var b := s.builder;
      assert TrimLeft(b) == b;
      TrimRightShortens(b);
      if TrimSpace(b) == "" { CommaStays(b); }
    }
  }

  lemma {:induction false} CommaStays(b: string)
    requires b != "" && b[0] == ','
    ensures TrimRight(b) != ""
  {
    if IsSpace(b[|b| - 1]) { CommaStays(b[..|b| - 1]); }
  }

  lemma {:induction false} ReadKeepsFirst(s: StepState, t: string)
    requires CommaFirst(s)
    ensures CommaFirst(ReadText(s, t))
    decreases t
  {
    if t != "" {
      FlushKeepsFirst(s);
      ReadKeepsFirst(ReadChar(s, t[0]), t[1..]);
    }
  }

  /** A text of blanks and commas is one branch, with a first step that begins with a comma, if any. */
  lemma OnlyCommasRead(s: string)
    requires OnlyCommas(s)
    ensures Branches(s) == [s]
    ensures ParseExtraction(s) == Ok((TrimSpace(s), WholeElement))
    ensures TrimSpace(s) == "" ==> ParseSteps(TrimSpace(s)) == Err(EmptySelector)
    ensures TrimSpace(s) != "" ==>
              var r := ParseSteps(TrimSpace(s));
              r.Ok? && r.value != [] && r.value[0].text != "" && r.value[0].text[0] == ','
  {
    assert Branches(s) == [s] by { NoBranches(s, ""); }
    hide Branches, ParseExtraction, ParseSteps, OnlyCommas, TrimSpace;
    TrimKeeps(s);
    CommasWhole(s);
    CommasStep(TrimSpace(s));
  }

  lemma CommasWhole(s: string)
    requires OnlyCommas(TrimSpace(s))
    ensures ParseExtraction(s) == Ok((TrimSpace(s), WholeElement))
  {
    hide TrimSpace;
    var sel := TrimSpace(s);
    PlainPasses(Colons, CLEAN, sel);
    NoPseudo(CLEAN, "", sel, -1);
    assert "" + sel == sel;
  }

  lemma CommasStep(sel: string)
    requires OnlyCommas(sel) && Trimmed(sel)
    ensures sel == "" ==> ParseSteps(sel) == Err(EmptySelector)
    ensures sel != "" ==>
              var r := ParseSteps(sel);
              r.Ok? && r.value != [] && r.value[0].text != "" && r.value[0].text[0] == ','
  {
    TrimmedStays(sel);
    hide TrimSpace, Flush, ReadText;
    if sel != "" { FirstComma(sel); }
  }

  lemma FirstComma(sel: string)
    requires sel != "" && sel[0] == ','
    ensures CommaFirst(Flush(ReadText(STEP_START, sel))) && Flush(ReadText(STEP_START, sel)).steps != []
  {
    hide Flush;
    var first := ReadChar(STEP_START, sel[0]);
    assert CommaFirst(first);
    ReadKeepsFirst(first, sel[1..]);
    FlushKeepsFirst(ReadText(first, sel[1..]));
  }

  lemma {:induction false} LeftKeeps(s: string)
    requires OnlyCommas(s)
    ensures OnlyCommas(TrimLeft(s))
  {
    if s != "" && IsSpace(s[0]) { LeftKeeps(s[1..]); }
  }

  lemma {:induction false} RightKeeps(s: string)
    requires OnlyCommas(s)
    ensures OnlyCommas(TrimRight(s))
  {
    if s != "" && IsSpace(s[|s| - 1]) { RightKeeps(s[..|s| - 1]); }
  }

  lemma TrimKeeps(s: string)
    requires OnlyCommas(s)
    ensures OnlyCommas(TrimSpace(s)) && Trimmed(TrimSpace(s))
  {
    LeftKeeps(s);
    RightKeeps(TrimLeft(s));
    TrimSpaceShortens(s);
  }

  lemma BranchQuiet(b: Branch)
    requires GoodBranch(b)
    ensures Quiet(Commas, ShowBranch(b)) && ShowBranch(b) != "" && Trimmed(ShowBranch(b))
  {
    hide Quiet, Trimmed, GoodPrinted, GoodExtraction;
    var base := ShowPrinted(b.steps);
    assert Quiet(Commas, base) && Trimmed(base) by { BaseQuiet(b.steps); }
    if b.extraction.WholeElement? {
      PrintedTrimmed(b.steps);
      assert ShowBranch(b) == base;
    } else {
      var e := ShowExtraction(b.extraction, b.layout);
      ExtractionReads(b.extraction, b.layout);
      ExtractionQuiet(Commas, b.extraction, b.layout);
      ColonsQuiet();
      QuietAppend(Commas, "::", ExtractionName(b.extraction, b.layout));
      QuietAppend(Commas, base, e);
      EndsTrimmed(base, e);
    }
  }

  lemma ColonsQuiet()
    ensures Quiet(Commas, "::")
  {
    PlainPasses(Commas, CLEAN, "::");
  }

  lemma BaseQuiet(steps: seq<Printed>)
    requires GoodPrinted(steps) || steps == []
    ensures Quiet(Commas, ShowPrinted(steps)) && Quiet(Colons, ShowPrinted(steps)) && Trimmed(ShowPrinted(steps))
  {
    if steps != [] {
      PrintedQuiet(Commas, steps);
      PrintedQuiet(Colons, steps);
      PrintedTrimmed(steps);
    }
  }

  lemma EndsTrimmed(base: string, tail: string)
    requires Trimmed(base) && Trimmed(tail)
    ensures Trimmed(base + tail)
  {
    if base == "" {
      assert base + tail == tail;
    } else if tail == "" {
      assert base + tail == base;
    } else {
      assert (base + tail)[0] == base[0] && (base + tail)[|base + tail| - 1] == tail[|tail| - 1];
    }
  }

  ghost predicate GoodBranches(list: seq<Branch>) {
    forall b :: b in list ==> GoodBranch(b)
  }

  function Shown(list: seq<Branch>): seq<string> {
    if list == [] then [] else [ShowBranch(list[0])] + Shown(list[1..])
  }

  lemma {:induction false} PiecesQuiet(list: seq<Branch>, p: string)
    requires GoodBranches(list) && p in Pieces(list)
    ensures Quiet(Commas, p)
  {
    if p == Pieces(list)[0] {
      hide Quiet, GoodBranch, ShowBranch;
      var b := list[0];
      assert GoodBranch(b);
      BranchQuiet(b);
      PaddingQuiet(b);
      QuietAppend(Commas, b.before, ShowBranch(b));
      QuietAppend(Commas, b.before + ShowBranch(b), b.after);
    } else {
      PiecesQuiet(list[1..], p);
    }
  }

  lemma PaddingQuiet(b: Branch)
    requires GoodBranch(b)
    ensures Quiet(Commas, b.before) && Quiet(Commas, b.after)
  {
    hide GoodPrinted, GoodExtraction;
    PlainPasses(Commas, CLEAN, b.before);
    PlainPasses(Commas, CLEAN, b.after);
  }

  lemma {:induction false} PiecesTrim(list: seq<Branch>)
    requires GoodBranches(list)
    ensures NonEmpty(Pieces(list)) == Shown(list)
    decreases list
  {
    if list != [] {
      hide TrimSpace, ShowBranch, Trimmed, Quiet;
      var b := list[0];
      assert GoodBranch(b);
      BranchQuiet(b);
      PaddingTrims(b.before, ShowBranch(b), b.after);
      PiecesTrim(list[1..]);
      assert Pieces(list)[1..] == Pieces(list[1..]);
    }
  }

  lemma {:induction false} ShownAt(list: seq<Branch>, i: nat)
    requires i < |list|
    ensures |Shown(list)| == |list| && Shown(list)[i] == ShowBranch(list[i])
  {
    if i > 0 { ShownAt(list[1..], i - 1); } else if |list| > 1 { ShownAt(list[1..], 0); }
  }

  /** The printed list splits into its printed branches. */
  lemma ListSplits(list: seq<Branch>)
    requires list != [] && GoodBranches(list)
    ensures Branches(ShowBranches(list)) == Shown(list)
  {
    hide GoodBranches, Quiet, TrimSpace;
    forall p | p in Pieces(list) ensures Quiet(Commas, p) { PiecesQuiet(list, p); }
    SplitUndoesJoin(Pieces(list));
    PiecesTrim(list);
  }

  lemma BranchReads(b: Branch)
    requires GoodBranch(b)
    ensures ParseExtraction(ShowBranch(b)) == Ok((ShowPrinted(StepsRead(b)), b.extraction))
    ensures ParseSteps(ShowPrinted(StepsRead(b))) == Ok(RawSteps(StepsRead(b)))
  {
    assert b.extraction.WholeElement? ==> b.steps != [];
    hide ParseExtraction, ParseSteps, Trimmed, GoodPrinted, GoodExtraction, SpellsBy, NoStop;
    var base := ShowPrinted(b.steps);
    BaseQuiet(b.steps);
    assert GoodPrinted(StepsRead(b)) by { StarPrinted(); }
    StepsRoundTrip(StepsRead(b));
    if b.extraction.WholeElement? {
      NoExtraction(base);
      assert ShowBranch(b) == base;
    } else {
      ExtractionRoundTrip(base, "", b.extraction, b.layout);
      assert base + "" == base;
      if b.steps != [] { PrintedTrimmed(b.steps); } else { StarShown(); }
    }
  }

  lemma StarPrinted()
    ensures GoodPrinted([ANY_ELEMENT])
  {
    CharQuiet(Commas, '*');
    CharQuiet(Colons, '*');
    CharQuiet(Spaces, '*');
    assert [ANY_ELEMENT][1..] == [];
  }

  lemma StarShown()
    ensures ShowPrinted([ANY_ELEMENT]) == "*"
  {
    assert [ANY_ELEMENT][1..] == [];
  }

  /** The front end undoes printing: the printed list splits into its printed branches, and each branch
      is cut and split into its own extraction and steps, wherever blanks stand and however combinators
      are written. */
  lemma FrontEndRoundTrip(list: seq<Branch>, i: nat)
    requires list != [] && GoodBranches(list) && i < |list|
    ensures Branches(ShowBranches(list)) == Shown(list) && |Shown(list)| == |list| &&
            Shown(list)[i] == ShowBranch(list[i])
    ensures ParseExtraction(Shown(list)[i]) == Ok((ShowPrinted(StepsRead(list[i])), list[i].extraction))
    ensures ParseSteps(ShowPrinted(StepsRead(list[i]))) == Ok(RawSteps(StepsRead(list[i])))
  {
    hide ParseExtraction, ParseSteps, GoodBranch, ShowBranch, Branches;
    ListSplits(list);
    ShownAt(list, i);
    assert list[i] in list;
    BranchReads(list[i]);
  }
}
