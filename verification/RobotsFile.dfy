/** What a robots.txt file says, line by line and section by section. */
module RobotsFile {
  import opened Wrappers
  import opened Text
  import opened Robots
  import opened RobotsParse

  // ---------- lines ----------

  /** How a line is written: the blanks around its parts, and a comment. */
  datatype Layout =
    Layout(left: string, beforeColon: string, afterColon: string, right: string, comment: Option<string>)

  datatype Line =
    | Empty(layout: Layout)
    | Wordless(text: string, layout: Layout)
    | Field(key: string, value: string, layout: Layout)

  /** Text with neither outer blanks nor a comment sign. */
  predicate Plain(t: string) {
    Trimmed(t) && '#' !in t
  }

  predicate GoodLayout(l: Layout) {
    AllSpace(l.left) && AllSpace(l.beforeColon) && AllSpace(l.afterColon) && AllSpace(l.right)
  }

  predicate GoodLine(l: Line) {
    && GoodLayout(l.layout)
    && (l.Wordless? ==> Plain(l.text) && l.text != "" && ':' !in l.text)
    && (l.Field? ==> Plain(l.key) && ':' !in l.key && Plain(l.value))
  }

  function ShowComment(comment: Option<string>): string {
    match comment case None => "" case Some(c) => "#" + c
  }

  /** The line without its comment. */
  function ShowParts(l: Line): string {
    match l
    case Empty(y) => y.left
    case Wordless(t, y) => y.left + t + y.right
    case Field(key, value, y) => y.left + key + y.beforeColon + ":" + y.afterColon + value + y.right
  }

  function ShowLine(l: Line): string {
    ShowParts(l) + ShowComment(l.layout.comment)
  }

  function ShowLines(lines: seq<Line>): (r: seq<string>)
    ensures |r| == |lines|
  {
    if lines == [] then [] else ShowLines(lines[..|lines| - 1]) + [ShowLine(lines[|lines| - 1])]
  }

  /** What a line does to the parser, its key in lower case. */
  function Effect(u: Unicode, n: Seconds, s: ParseState, l: Line): ParseState {
    match l
    case Empty(_) => Flush(s)
    case Wordless(_, _) => s
    case Field(key, value, _) => Directive(u, n, s, ToLower(u, key), value)
  }

  lemma CommentCut(parts: string, comment: Option<string>)
    requires '#' !in parts
    ensures Robots.Before(parts + ShowComment(comment), "#") == parts
  {
    hide Index, Contains;
    match comment
    case None =>
      assert parts + "" == parts;
      NotContained(parts, "#");
      NoIndex(parts, "#");
    case Some(c) =>
      FirstIndex(parts, "#", c);
      assert parts + ("#" + c) == parts + "#" + c;
      assert (parts + "#" + c)[..|parts|] == parts;
  }

  lemma PartsNoComment(l: Line)
    requires GoodLine(l)
    ensures '#' !in ShowParts(l)
  {
  }

  /** The key with the blanks behind it, or nothing. */
  function KeyPart(key: string, blanks: string): string {
    if key == "" then "" else key + blanks
  }

  function ValuePart(blanks: string, value: string): string {
    if value == "" then "" else blanks + value
  }

  lemma KeyTrims(key: string, blanks: string)
    requires Trimmed(key) && AllSpace(blanks) && ':' !in key
    ensures TrimSpace(KeyPart(key, blanks)) == key && ':' !in KeyPart(key, blanks)
  {
    PaddingTrims("", key, blanks);
    assert "" + key + blanks == key + blanks;
  }

  lemma ValueTrims(blanks: string, value: string)
    requires Trimmed(value) && AllSpace(blanks)
    ensures TrimSpace(ValuePart(blanks, value)) == value
  {
    PaddingTrims(blanks, value, "");
    assert blanks + value + "" == blanks + value;
  }

  lemma CoreTrimmed(key: string, b: string, a: string, value: string)
    requires Trimmed(key) && Trimmed(value)
    ensures Trimmed(KeyPart(key, b) + ":" + ValuePart(a, value))
  {
    var core := KeyPart(key, b) + ":" + ValuePart(a, value);
    assert core[0] == if key == "" then ':' else key[0];
    assert core[|core| - 1] == if value == "" then ':' else value[|value| - 1];
  }

  lemma FieldTrims(l: Line)
    requires GoodLine(l) && l.Field?
    ensures TrimSpace(ShowParts(l)) ==
            KeyPart(l.key, l.layout.beforeColon) + ":" + ValuePart(l.layout.afterColon, l.value)
  {
    hide TrimSpace;
    var y := l.layout;
    var core := KeyPart(l.key, y.beforeColon) + ":" + ValuePart(y.afterColon, l.value);
    var left := if l.key == "" then y.left + y.beforeColon else y.left;
    var right := if l.value == "" then y.afterColon + y.right else y.right;
    CoreTrimmed(l.key, y.beforeColon, y.afterColon, l.value);
    FieldParts(l);
    assert AllSpace(left) && AllSpace(right);
    hide KeyPart, ValuePart, ShowParts, AllSpace, Trimmed;
    PaddingTrims(left, core, right);
  }

  lemma FieldParts(l: Line)
    requires l.Field?
    ensures var y := l.layout;
            ShowParts(l) ==
            (if l.key == "" then y.left + y.beforeColon else y.left) +
            (KeyPart(l.key, y.beforeColon) + ":" + ValuePart(y.afterColon, l.value)) +
            (if l.value == "" then y.afterColon + y.right else y.right)
  {
  }

  lemma FieldReads(key: string, b: string, a: string, value: string)
    requires Trimmed(key) && ':' !in key && Trimmed(value) && AllSpace(b) && AllSpace(a)
    ensures var line := KeyPart(key, b) + ":" + ValuePart(a, value);
            Index(line, ":") != -1 && TrimSpace(Robots.Before(line, ":")) == key &&
            TrimSpace(RobotsParse.After(line, ":")) == value
  {
    hide TrimSpace, Index, KeyPart, ValuePart;
    var k, v := KeyPart(key, b), ValuePart(a, value);
    KeyTrims(key, b);
    ValueTrims(a, value);
    FirstIndex(k, ":", v);
    var line := k + ":" + v;
    assert line[..|k|] == k && line[|k| + 1..] == v;
  }

  /** A line is read as its key, whatever its letters' case, and its value, wherever blanks stand and with any
      comment behind it; a line without a colon is not read, and one without text ends a group. */
  lemma LineReads(u: Unicode, n: Seconds, s: ParseState, l: Line)
    requires GoodLine(l)
    ensures ReadLine(u, n, s, ShowLine(l)) == Effect(u, n, s, l)
  {
    PartsNoComment(l);
    CommentCut(ShowParts(l), l.layout.comment);
    var y := l.layout;
    match l
    case Empty(_) =>
      PaddingTrims(y.left, "", "");
      assert y.left + "" + "" == y.left;
    case Wordless(t, _) =>
      PaddingTrims(y.left, t, y.right);
      NotContained(t, ":");
      NoIndex(t, ":");
      hide TrimSpace, Index, Robots.Before, Flush;
    case Field(key, value, _) =>
      FieldTrims(l);
      FieldReads(key, y.beforeColon, y.afterColon, value);
      hide TrimSpace, Index, Robots.Before, RobotsParse.After, Directive, ToLower, ShowParts, KeyPart, ValuePart, Flush;
  }

  // ---------- every text is such a line ----------

  lemma {:induction false} LeftOf(s: string) returns (left: string)
    ensures AllSpace(left) && s == left + TrimLeft(s)
  {
    left := "";
    if s != "" && IsSpace(s[0]) {
      left := LeftOf(s[1..]);
      left := [s[0]] + left;
    }
  }

  lemma {:induction false} RightOf(s: string) returns (right: string)
    ensures AllSpace(right) && s == TrimRight(s) + right
  {
    right := "";
    if s != "" && IsSpace(s[|s| - 1]) {
      right := RightOf(s[..|s| - 1]);
      right := right + [s[|s| - 1]];
    }
  }

  lemma Padding(s: string) returns (left: string, right: string)
    ensures AllSpace(left) && AllSpace(right) && s == left + TrimSpace(s) + right && Trimmed(TrimSpace(s))
  {
    left := LeftOf(s);
    right := RightOf(TrimLeft(s));
    TrimSpaceShortens(s);
    assert left + (TrimSpace(s) + right) == left + TrimSpace(s) + right;
  }

  lemma {:induction false} CutAt(raw: string, sign: char) returns (before: string, after: Option<string>)
    ensures sign !in before && raw == before + match after case None => "" case Some(a) => [sign] + a
  {
    if raw == "" {
      before, after := "", None;
    } else if raw[0] == sign {
      before, after := "", Some(raw[1..]);
    } else {
      before, after := CutAt(raw[1..], sign);
      before := [raw[0]] + before;
    }
  }

  lemma TrimmedPart(left: string, s: string, right: string, c: char)
    ensures c in s ==> c in left + s + right
  {
    if c in s {
      var i :| 0 <= i < |s| && s[i] == c;
      assert (left + s + right)[|left| + i] == c;
    }
  }

  /** Every text is a line in one of the three forms. */
  lemma EveryLine(raw: string) returns (l: Line)
    ensures GoodLine(l) && ShowLine(l) == raw
  {
    var parts, comment := CutAt(raw, '#');
    var left, right := Padding(parts);
    var text := TrimSpace(parts);
    TrimmedPart(left, text, right, '#');
    if text == "" {
      l := Empty(Layout(parts, "", "", "", comment));
      assert AllSpace(parts);
    } else {
      var key, value := CutAt(text, ':');
      if value.None? {
        assert key + "" == key;
        l := Wordless(text, Layout(left, "", "", right, comment));
      } else {
        l := FieldLine(left, key, value.value, right, comment);
        assert left + (key + ([':'] + value.value)) + right == parts;
      }
    }
    hide TrimSpace;
    assert ShowParts(l) == parts;
  }

  lemma FieldLine(left: string, key: string, value: string, right: string, comment: Option<string>) returns (l: Line)
    requires AllSpace(left) && AllSpace(right) && ':' !in key && '#' !in key + ":" + value
    ensures GoodLine(l) && l.Field? && l.layout.comment == comment
    ensures ShowParts(l) == left + (key + ([':'] + value)) + right
  {
    var k1, k2 := Padding(key);
    var v1, v2 := Padding(value);
    var k, v := TrimSpace(key), TrimSpace(value);
    hide TrimSpace;
    l := Field(k, v, Layout(left + k1, k2, v1, v2 + right, comment));
    TrimmedPart(k1, k, k2, ':');
    TrimmedPart("", key, ":" + value, '#');
    TrimmedPart(key + ":", value, "", '#');
    TrimmedPart(k1, k, k2, '#');
    TrimmedPart(v1, v, v2, '#');
    assert left + k1 + k + k2 + ":" + v1 + v + (v2 + right) == left + (k1 + k + k2 + ([':'] + (v1 + v + v2))) + right;
  }

  // ---------- sections ----------

  predicate NamesAgent(u: Unicode, l: Line) {
    l.Field? && ToLower(u, l.key) == "user-agent"
  }

  /** An allow, disallow, crawl-delay or request-rate line, whatever its value. */
  predicate IsDirective(u: Unicode, l: Line) {
    l.Field? && ToLower(u, l.key) in {"allow", "disallow", "crawl-delay", "request-rate"}
  }

  /** Consecutive agents and the directives for them.  What stands before is for nobody. */
  datatype Section = Section(stray: seq<Line>, agents: seq<Line>, body: seq<Line>)

  predicate NoAgents(u: Unicode, lines: seq<Line>) {
    forall l :: l in lines ==> !NamesAgent(u, l)
  }

  /** Between its first agent and its first directive a section has agents and lines that say nothing, then anything
      but agents and empty lines. */
  predicate GoodSection(u: Unicode, x: Section) {
    && NoAgents(u, x.stray)
    && x.agents != [] && NamesAgent(u, x.agents[0])
    && (forall l :: l in x.agents ==> !l.Empty? && !IsDirective(u, l))
    && (x.body != [] ==> IsDirective(u, x.body[0]))
    && (forall l :: l in x.body ==> !l.Empty? && !NamesAgent(u, l))
  }

  /** A section ends at an empty line, or at the next agent if it has a directive; the first one may begin
      anywhere. */
  predicate Ends(sections: seq<Section>, next: seq<Line>) {
    sections == [] || (next != [] && next[0].Empty?) || (next == [] && sections[|sections| - 1].body != [])
  }

  predicate GoodSections(u: Unicode, sections: seq<Section>) {
    sections != [] ==>
      var init, last := sections[..|sections| - 1], sections[|sections| - 1];
      GoodSections(u, init) && GoodSection(u, last) && Ends(init, last.stray)
  }

  /** The lines after the last section. */
  predicate GoodTail(u: Unicode, sections: seq<Section>, tail: seq<Line>) {
    NoAgents(u, tail) && (tail == [] || Ends(sections, tail))
  }

  function SectionLines(x: Section): seq<Line> {
    x.stray + x.agents + x.body
  }

  function FileLines(sections: seq<Section>): seq<Line> {
    if sections == [] then []
    else FileLines(sections[..|sections| - 1]) + SectionLines(sections[|sections| - 1])
  }

  lemma SectionsSnoc(u: Unicode, sections: seq<Section>, x: Section)
    requires GoodSections(u, sections) && GoodSection(u, x) && Ends(sections, x.stray)
    ensures GoodSections(u, sections + [x]) && FileLines(sections + [x]) == FileLines(sections) + SectionLines(x)
  {
    assert (sections + [x])[..|sections|] == sections;
  }

  /** Every list of lines is one of sections, in one way to read it. */
  lemma {:induction false} EverySections(u: Unicode, lines: seq<Line>) returns (sections: seq<Section>, tail: seq<Line>)
    ensures GoodSections(u, sections) && GoodTail(u, sections, tail) && FileLines(sections) + tail == lines
    decreases lines
  {
    sections, tail := [], [];
    if lines != [] {
      var init, l := lines[..|lines| - 1], lines[|lines| - 1];
      sections, tail := EverySections(u, init);
      sections, tail := OneMoreLine(u, sections, tail, l);
      assert init + [l] == lines;
    }
  }

  lemma OneMoreLine(u: Unicode, sections: seq<Section>, tail: seq<Line>, l: Line)
    returns (sections': seq<Section>, tail': seq<Line>)
    requires GoodSections(u, sections) && GoodTail(u, sections, tail)
    ensures GoodSections(u, sections') && GoodTail(u, sections', tail')
    ensures FileLines(sections') + tail' == FileLines(sections) + tail + [l]
  {
    hide NamesAgent, IsDirective, GoodSections, FileLines;
    if NamesAgent(u, l) && Ends(sections, tail) {
      NewSection(u, sections, tail, l);
      sections', tail' := sections + [Section(tail, [l], [])], [];
      assert FileLines(sections') + [] == FileLines(sections');
    } else if tail != [] || sections == [] || l.Empty? {
      sections', tail' := sections, tail + [l];
      assert NamesAgent(u, l) ==> l.Field? by { AgentIsField(u, l); }
      assert FileLines(sections) + (tail + [l]) == FileLines(sections) + tail + [l];
    } else {
      sections' := LongerSection(u, sections, l);
      tail' := [];
      assert FileLines(sections') + [] == FileLines(sections) + [] + [l];
    }
  }

  lemma AgentIsField(u: Unicode, l: Line)
    ensures NamesAgent(u, l) ==> l.Field? && !IsDirective(u, l)
  {
  }

  lemma NewSection(u: Unicode, sections: seq<Section>, tail: seq<Line>, l: Line)
    requires GoodSections(u, sections) && NoAgents(u, tail) && Ends(sections, tail) && NamesAgent(u, l)
    ensures GoodSections(u, sections + [Section(tail, [l], [])])
    ensures FileLines(sections + [Section(tail, [l], [])]) == FileLines(sections) + tail + [l]
  {
    hide NamesAgent, IsDirective, GoodSections, FileLines;
    var x := Section(tail, [l], []);
    AgentIsField(u, l);
    SectionsSnoc(u, sections, x);
    assert FileLines(sections) + SectionLines(x) == FileLines(sections) + tail + [l];
  }

  function Longer(u: Unicode, x: Section, l: Line): Section {
    if x.body == [] && !IsDirective(u, l) then x.(agents := x.agents + [l]) else x.(body := x.body + [l])
  }

  lemma LongerIsGood(u: Unicode, x: Section, l: Line)
    requires GoodSection(u, x) && !l.Empty? && (NamesAgent(u, l) ==> x.body == [])
    ensures GoodSection(u, Longer(u, x, l)) && SectionLines(Longer(u, x, l)) == SectionLines(x) + [l]
    ensures Longer(u, x, l).stray == x.stray
  {
    hide NamesAgent, IsDirective;
    AgentIsField(u, l);
  }

  lemma LongerSection(u: Unicode, sections: seq<Section>, l: Line) returns (sections': seq<Section>)
    requires GoodSections(u, sections) && sections != [] && !l.Empty?
    requires NamesAgent(u, l) ==> !Ends(sections, [])
    ensures GoodSections(u, sections') && sections' != []
    ensures FileLines(sections') == FileLines(sections) + [l]
  {
    var init, x := sections[..|sections| - 1], sections[|sections| - 1];
    assert GoodSections(u, init) && GoodSection(u, x) && Ends(init, x.stray);
    assert FileLines(sections) == FileLines(init) + SectionLines(x);
    hide GoodSections, FileLines, GoodSection, SectionLines, Longer;
    LongerIsGood(u, x, l);
    var x' := Longer(u, x, l);
    SectionsSnoc(u, init, x');
    sections' := init + [x'];
    assert FileLines(init) + (SectionLines(x) + [l]) == FileLines(init) + SectionLines(x) + [l];
  }

  // ---------- what sections say ----------

  function AgentsNamed(u: Unicode, lines: seq<Line>): seq<string> {
    if lines == [] then []
    else
      var l := lines[|lines| - 1];
      AgentsNamed(u, lines[..|lines| - 1]) + if NamesAgent(u, l) then [ToLower(u, l.value)] else []
  }

  /** The rules with a pattern, in order. */
  function RulesGiven(u: Unicode, lines: seq<Line>): seq<Rule> {
    if lines == [] then []
    else
      var l := lines[|lines| - 1];
      RulesGiven(u, lines[..|lines| - 1]) +
      if l.Field? && ToLower(u, l.key) in {"allow", "disallow"} && l.value != ""
      then [Rule(l.value, ToLower(u, l.key) == "allow")] else []
  }

  /** The last delay that is a number. */
  function DelayGiven(u: Unicode, n: Seconds, lines: seq<Line>): nat {
    if lines == [] then 0
    else
      var l := lines[|lines| - 1];
      if l.Field? && ToLower(u, l.key) == "crawl-delay" && ParseDelay(n, l.value).Some?
      then ParseDelay(n, l.value).value else DelayGiven(u, n, lines[..|lines| - 1])
  }

  /** The last rate that is one. */
  function RateGiven(u: Unicode, n: Seconds, lines: seq<Line>): Option<Rate> {
    if lines == [] then None
    else
      var l := lines[|lines| - 1];
      if l.Field? && ToLower(u, l.key) == "request-rate" && ParseRate(n, l.value).Some?
      then ParseRate(n, l.value) else RateGiven(u, n, lines[..|lines| - 1])
  }

  function GroupOf(u: Unicode, n: Seconds, x: Section): Group {
    Group(AgentsNamed(u, x.agents), RulesGiven(u, x.body), DelayGiven(u, n, x.body), RateGiven(u, n, x.body))
  }

  function GroupsOf(u: Unicode, n: Seconds, sections: seq<Section>): (r: seq<Group>)
    ensures |r| == |sections|
  {
    if sections == [] then []
    else GroupsOf(u, n, sections[..|sections| - 1]) + [GroupOf(u, n, sections[|sections| - 1])]
  }

  ghost predicate AllGood(lines: seq<Line>) {
    forall l :: l in lines ==> GoodLine(l)
  }

  function Effects(u: Unicode, n: Seconds, s: ParseState, lines: seq<Line>): ParseState {
    if lines == [] then s else Effect(u, n, Effects(u, n, s, lines[..|lines| - 1]), lines[|lines| - 1])
  }

  lemma {:induction false} LinesRead(u: Unicode, n: Seconds, s: ParseState, lines: seq<Line>)
    requires AllGood(lines)
    ensures ReadLines(u, n, s, ShowLines(lines)) == Effects(u, n, s, lines)
  {
    if lines != [] {
      var init, l := lines[..|lines| - 1], lines[|lines| - 1];
      assert AllGood(init) && GoodLine(l);
      hide ReadLine, Effect, GoodLine, ShowLine;
      LinesRead(u, n, s, init);
      LineReads(u, n, Effects(u, n, s, init), l);
      ReadSnoc(u, n, s, ShowLines(init), ShowLine(l));
    }
  }

  lemma {:induction false} EffectsAppend(u: Unicode, n: Seconds, s: ParseState, a: seq<Line>, b: seq<Line>)
    ensures Effects(u, n, s, a + b) == Effects(u, n, Effects(u, n, s, a), b)
    decreases b
  {
    if b == [] {
      assert a + b == a;
    } else {
      assert (a + b)[..|a + b| - 1] == a + b[..|b| - 1];
      EffectsAppend(u, n, s, a, b[..|b| - 1]);
    }
  }

  /** Without a group nothing but an agent counts. */
  lemma {:induction false} StrayDoesNothing(u: Unicode, n: Seconds, done: seq<Group>, lines: seq<Line>)
    requires NoAgents(u, lines)
    ensures Effects(u, n, ParseState(done, NO_GROUP, false, false), lines) == ParseState(done, NO_GROUP, false, false)
  {
    if lines != [] {
      hide ToLower;
      var l := lines[|lines| - 1];
      assert l in lines;
      StrayDoesNothing(u, n, done, lines[..|lines| - 1]);
    }
  }

  lemma {:induction false} AgentsRead(u: Unicode, n: Seconds, done: seq<Group>, lines: seq<Line>)
    requires lines != [] && NamesAgent(u, lines[0])
    requires forall l :: l in lines ==> !l.Empty? && !IsDirective(u, l)
    ensures Effects(u, n, ParseState(done, NO_GROUP, false, false), lines) ==
            ParseState(done, Group(AgentsNamed(u, lines), [], 0, None), true, false)
  {
    hide ToLower;
    var init, l := lines[..|lines| - 1], lines[|lines| - 1];
    assert l in lines;
    if init == [] {
      assert Effects(u, n, ParseState(done, NO_GROUP, false, false), init) == ParseState(done, NO_GROUP, false, false);
    } else {
      AgentsRead(u, n, done, init);
    }
  }

  lemma BodyLine(u: Unicode, n: Seconds, s: ParseState, l: Line)
    requires s.hasGroup && !l.Empty? && !NamesAgent(u, l)
    ensures Effect(u, n, s, l) ==
            ParseState(s.groups,
                       Group(s.group.agents,
                             s.group.rules + RulesGiven(u, [l]),
                             if DelayGivenBy(u, n, l) then DelayGiven(u, n, [l]) else s.group.crawlDelay,
                             if RateGivenBy(u, n, l) then RateGiven(u, n, [l]) else s.group.requestRate),
                       true, s.hasDirectives || IsDirective(u, l))
  {
    hide ToLower, ParseDelay, ParseRate;
    assert RulesGiven(u, []) == [];
    assert [l][..0] == [];
    assert s.group.rules + [] == s.group.rules;
  }

  predicate DelayGivenBy(u: Unicode, n: Seconds, l: Line) {
    l.Field? && ToLower(u, l.key) == "crawl-delay" && ParseDelay(n, l.value).Some?
  }

  predicate RateGivenBy(u: Unicode, n: Seconds, l: Line) {
    l.Field? && ToLower(u, l.key) == "request-rate" && ParseRate(n, l.value).Some?
  }

  lemma {:induction false} BodyReads(u: Unicode, n: Seconds, done: seq<Group>, agents: seq<string>, lines: seq<Line>)
    requires lines != [] ==> IsDirective(u, lines[0])
    requires forall l :: l in lines ==> !l.Empty? && !NamesAgent(u, l)
    ensures Effects(u, n, ParseState(done, Group(agents, [], 0, None), true, false), lines) ==
            ParseState(done, Group(agents, RulesGiven(u, lines), DelayGiven(u, n, lines), RateGiven(u, n, lines)),
                       true, lines != [])
  {
    if lines != [] {
      var init, l := lines[..|lines| - 1], lines[|lines| - 1];
      assert l in lines;
      assert init == [] ==> l == lines[0];
      BodyReads(u, n, done, agents, init);
      BodyLine(u, n, Effects(u, n, ParseState(done, Group(agents, [], 0, None), true, false), init), l);
      hide Effect, ToLower, ParseDelay, ParseRate;
      assert [l][..0] == [];
    }
  }

  /** The state behind the sections. */
  ghost predicate Behind(u: Unicode, n: Seconds, sections: seq<Section>, s: ParseState) {
    && Flush(s) == ParseState(GroupsOf(u, n, sections), NO_GROUP, false, false)
    && s.hasGroup == (sections != [])
    && s.hasDirectives == (sections != [] && sections[|sections| - 1].body != [])
    && (sections == [] ==> s == START)
  }

  /** Lines for nobody close the section before. */
  lemma StrayCloses(u: Unicode, n: Seconds, sections: seq<Section>, s: ParseState, stray: seq<Line>)
    requires Behind(u, n, sections, s) && NoAgents(u, stray) && stray != [] && Ends(sections, stray)
    ensures Effects(u, n, s, stray) == ParseState(GroupsOf(u, n, sections), NO_GROUP, false, false)
  {
    var closed := ParseState(GroupsOf(u, n, sections), NO_GROUP, false, false);
    if sections == [] {
      StrayDoesNothing(u, n, [], stray);
    } else {
      EffectsAppend(u, n, s, stray[..1], stray[1..]);
      assert stray[..1] + stray[1..] == stray && stray[..1][..0] == [];
      assert Effects(u, n, s, stray[..1]) == closed;
      StrayDoesNothing(u, n, GroupsOf(u, n, sections), stray[1..]);
    }
  }

  /** The first agent of a section closes the section before when it has a directive. */
  lemma AgentCloses(u: Unicode, n: Seconds, sections: seq<Section>, s: ParseState, agents: seq<Line>)
    requires Behind(u, n, sections, s) && Ends(sections, []) && agents != [] && NamesAgent(u, agents[0])
    ensures Effects(u, n, s, agents) ==
            Effects(u, n, ParseState(GroupsOf(u, n, sections), NO_GROUP, false, false), agents)
  {
    hide ToLower;
    var closed := ParseState(GroupsOf(u, n, sections), NO_GROUP, false, false);
    if sections != [] {
      EffectsAppend(u, n, s, agents[..1], agents[1..]);
      EffectsAppend(u, n, closed, agents[..1], agents[1..]);
      assert agents[..1] + agents[1..] == agents && agents[..1][..0] == [];
      assert Effects(u, n, s, []) == s && Effects(u, n, closed, []) == closed;
    }
  }

  /** What stands before the agents of a section, and they. */
  lemma HeadReads(u: Unicode, n: Seconds, sections: seq<Section>, s: ParseState, x: Section)
    requires Behind(u, n, sections, s) && GoodSection(u, x) && Ends(sections, x.stray)
    ensures Effects(u, n, s, x.stray + x.agents) ==
            ParseState(GroupsOf(u, n, sections), Group(AgentsNamed(u, x.agents), [], 0, None), true, false)
  {
    hide Effects, Behind, NamesAgent, IsDirective, AgentsNamed;
    EffectsAppend(u, n, s, x.stray, x.agents);
    AgentsRead(u, n, GroupsOf(u, n, sections), x.agents);
    if x.stray == [] {
      assert x.stray + x.agents == x.agents;
      AgentCloses(u, n, sections, s, x.agents);
    } else {
      StrayCloses(u, n, sections, s, x.stray);
    }
  }

  lemma {:induction false} SectionsRead(u: Unicode, n: Seconds, sections: seq<Section>)
    requires GoodSections(u, sections)
    ensures Behind(u, n, sections, Effects(u, n, START, FileLines(sections)))
  {
    if sections != [] {
      var init, x := sections[..|sections| - 1], sections[|sections| - 1];
      SectionsRead(u, n, init);
      var s := Effects(u, n, START, FileLines(init));
      HeadReads(u, n, init, s, x);
      SomeAgent(u, x.agents);
      hide Effects, NamesAgent, IsDirective, AgentsNamed, RulesGiven, DelayGiven, RateGiven, GoodSections;
      EffectsAppend(u, n, START, FileLines(init), SectionLines(x));
      EffectsAppend(u, n, s, x.stray + x.agents, x.body);
      BodyReads(u, n, GroupsOf(u, n, init), AgentsNamed(u, x.agents), x.body);
    }
  }

  lemma {:induction false} SomeAgent(u: Unicode, agents: seq<Line>)
    requires agents != [] && NamesAgent(u, agents[0])
    ensures AgentsNamed(u, agents) != []
  {
    if |agents| > 1 { SomeAgent(u, agents[..|agents| - 1]); }
  }

  /** Reading lines gives the groups of their sections. */
  lemma LinesSay(u: Unicode, n: Seconds, sections: seq<Section>, tail: seq<Line>)
    requires GoodSections(u, sections) && GoodTail(u, sections, tail) && AllGood(FileLines(sections) + tail)
    ensures Flush(ReadLines(u, n, START, ShowLines(FileLines(sections) + tail))).groups == GroupsOf(u, n, sections)
  {
    hide Effects, FileLines, ReadLines, ShowLines, GoodSections, AllGood, NoAgents, Ends;
    LinesRead(u, n, START, FileLines(sections) + tail);
    SectionsRead(u, n, sections);
    EffectsAppend(u, n, START, FileLines(sections), tail);
    var s := Effects(u, n, START, FileLines(sections));
    if tail == [] {
      NoEffect(u, n, s);
    } else {
      StrayCloses(u, n, sections, s, tail);
    }
  }

  lemma NoEffect(u: Unicode, n: Seconds, s: ParseState)
    ensures Effects(u, n, s, []) == s
  {
  }

  /** A file of sections, however its lines are written, is parsed into their groups. */
  lemma FileSays(u: Unicode, n: Seconds, sections: seq<Section>, tail: seq<Line>)
    requires GoodSections(u, sections) && GoodTail(u, sections, tail) && AllGood(FileLines(sections) + tail)
    requires AllFit(ShowLines(FileLines(sections) + tail))
    ensures Parse(u, n, LinesText(ShowLines(FileLines(sections) + tail))) == GroupsOf(u, n, sections)
  {
    hide ReadLines, FileLines, GroupsOf, LinesText, ShowLines, GoodSections, AllGood, AllFit, GoodTail;
    var lines := ShowLines(FileLines(sections) + tail);
    LinesSay(u, n, sections, tail);
    LinesSplit(lines, "");
    assert LinesText(lines) + "" == LinesText(lines) && lines + [] == lines;
  }

  lemma {:induction false} EveryLines(raw: seq<string>) returns (lines: seq<Line>)
    ensures AllGood(lines) && ShowLines(lines) == raw
    decreases raw
  {
    if raw == [] {
      lines := [];
    } else {
      hide AllGood, ShowLines, GoodLine, ShowLine, GoodLayout, TrimSpace;
      LastLine(raw);
      var before := EveryLines(raw[..|raw| - 1]);
      var l := EveryLine(raw[|raw| - 1]);
      lines := ShowSnoc(before, l);
    }
  }

  lemma LastLine(raw: seq<string>)
    requires raw != []
    ensures raw[..|raw| - 1] + [raw[|raw| - 1]] == raw
  {
  }

  lemma ShowSnoc(before: seq<Line>, l: Line) returns (lines: seq<Line>)
    requires AllGood(before) && GoodLine(l)
    ensures lines == before + [l] && AllGood(lines) && ShowLines(lines) == ShowLines(before) + [ShowLine(l)]
  {
    hide GoodLine, ShowLine;
    lines := before + [l];
    assert lines[..|before|] == before;
  }

  /** And every text is such a file: what the parser makes of it are the groups of the sections that its lines
      have. */
  lemma EveryFileSays(u: Unicode, n: Seconds, content: string) returns (sections: seq<Section>, tail: seq<Line>)
    ensures GoodSections(u, sections) && GoodTail(u, sections, tail) && AllGood(FileLines(sections) + tail)
    ensures ShowLines(FileLines(sections) + tail) == Lines(content)
    ensures Parse(u, n, content) == GroupsOf(u, n, sections)
  {
    hide ReadLines, FileLines, GroupsOf, ShowLines, GoodSections, AllGood, GoodTail, Lines;
    var lines := EveryLines(Lines(content));
    sections, tail := EverySections(u, lines);
    LinesSay(u, n, sections, tail);
  }
}
