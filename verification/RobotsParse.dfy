/** Reading a robots.txt file. */
module RobotsParse {
  import opened Wrappers
  import opened Text
  import opened Robots

  /** The durations that strconv.ParseFloat makes of the texts that are numbers of seconds, zero or more. */
  type Seconds = map<string, nat>

  // ---------- lines ----------

  /** bufio.MaxScanTokenSize */
  const MAX_TOKEN := 65536

  function DropReturn(line: string): string {
    if line != "" && line[|line| - 1] == '\r' then line[..|line| - 1] else line
  }

  /** What bufio.Scanner makes of a text: its lines, and nothing from one on that does not fit the buffer. */
  function Lines(content: string): seq<string> {
    if content == "" then []
    else
      var i := Index(content, "\n");
      var raw := if i == -1 then content else content[..i];
      if ByteLength(raw) >= MAX_TOKEN then []
      else [DropReturn(raw)] + if i == -1 then [] else Lines(content[i + 1..])
  }

  // ---------- numbers ----------

  function After(s: string, separator: string): string
    requires Index(s, separator) != -1 && |separator| == 1
  {
    s[Index(s, separator) + 1..]
  }

  function Digits(s: string, acc: nat): Option<nat> {
    if s == "" then Some(acc)
    else if '0' <= s[0] <= '9' then Digits(s[1..], acc * 10 + (s[0] - '0') as nat)
    else None
  }

  const MAX_INT := 0x7FFF_FFFF_FFFF_FFFF

  /** strconv.Atoi */
  function Atoi(s: string): Option<int> {
    var signed := s != "" && (s[0] == '+' || s[0] == '-');
    var digits := if signed then s[1..] else s;
    if digits == "" || Digits(digits, 0).None? then None
    else
      var n: int := Digits(digits, 0).value;
      if signed && s[0] == '-' then if n > MAX_INT + 1 then None else Some(-n)
      else if n > MAX_INT then None
      else Some(n)
  }

  /** parseRobotsDelay */
  function ParseDelay(n: Seconds, value: string): Option<nat> {
    if TrimSpace(value) in n then Some(n[TrimSpace(value)]) else None
  }

  /** parseRobotsRequestRate */
  function ParseRate(n: Seconds, value: string): Option<Rate> {
    var text := TrimSpace(value);
    if Index(text, "/") == -1 then None
    else
      var requests := Atoi(TrimSpace(Before(text, "/")));
      if requests.None? || requests.value <= 0 then None
      else
        match ParseDelay(n, After(text, "/")) case None => None case Some(period) => Some(Rate(requests.value, period))
  }

  // ---------- the parser ----------

  datatype ParseState = ParseState(groups: seq<Group>, group: Group, hasGroup: bool, hasDirectives: bool)

  const START := ParseState([], NO_GROUP, false, false)

  function Flush(s: ParseState): ParseState {
    if !s.hasGroup || s.group.agents == [] then s.(group := NO_GROUP, hasGroup := false, hasDirectives := false)
    else ParseState(s.groups + [s.group], NO_GROUP, false, false)
  }

  /** One line of the file. */
  function ReadLine(u: Unicode, n: Seconds, s: ParseState, raw: string): ParseState {
    var line := TrimSpace(Before(raw, "#"));
    if line == "" then Flush(s)
    else if Index(line, ":") == -1 then s
    else Directive(u, n, s, ToLower(u, TrimSpace(Before(line, ":"))), TrimSpace(After(line, ":")))
  }

  function Directive(u: Unicode, n: Seconds, s: ParseState, key: string, value: string): ParseState {
    if key == "user-agent" then
      var s' := if s.hasGroup && s.hasDirectives then Flush(s) else s;
      s'.(hasGroup := true, group := s'.group.(agents := s'.group.agents + [ToLower(u, value)]))
    else if !s.hasGroup then s
    else if key == "allow" || key == "disallow" then
      var rules := if value == "" then s.group.rules else s.group.rules + [Rule(value, key == "allow")];
      s.(hasDirectives := true, group := s.group.(rules := rules))
    else if key == "crawl-delay" then
      s.(hasDirectives := true, group := SetDelay(s.group, ParseDelay(n, value)))
    else if key == "request-rate" then
      s.(hasDirectives := true, group := SetRate(s.group, ParseRate(n, value)))
    else s
  }

  /** A value that is no number changes nothing. */
  function SetDelay(g: Group, delay: Option<nat>): Group {
    if delay.Some? then g.(crawlDelay := delay.value) else g
  }

  function SetRate(g: Group, rate: Option<Rate>): Group {
    if rate.Some? then g.(requestRate := rate) else g
  }

  function ReadLines(u: Unicode, n: Seconds, s: ParseState, lines: seq<string>): ParseState {
    if lines == [] then s else ReadLine(u, n, ReadLines(u, n, s, lines[..|lines| - 1]), lines[|lines| - 1])
  }

  function Parse(u: Unicode, n: Seconds, content: string): seq<Group> {
    Flush(ReadLines(u, n, START, Lines(content))).groups
  }

  /** parseRobotsTxt, with its loop variables; `read` and `rest` are what the scanner has and has not returned. */
  method ParseRobotsTxt(u: Unicode, n: Seconds, content: string) returns (groups: seq<Group>)
    ensures groups == Parse(u, n, content)
  {
    hide ToLower, TrimSpace, Before, After, Index, ByteLength, ParseDelay, ParseRate;
    groups := [];
    var group, hasGroup, hasDirectives := NO_GROUP, false, false;
    var rest := content;
    ghost var read: seq<string> := [];
    assert read + Lines(rest) == Lines(content);
    while rest != ""
      invariant read + Lines(rest) == Lines(content)
      invariant ParseState(groups, group, hasGroup, hasDirectives) == ReadLines(u, n, START, read)
      decreases |rest|
    {
      var i := Index(rest, "\n");
      var raw := if i == -1 then rest else rest[..i];
      if ByteLength(raw) >= MAX_TOKEN { break; }
      NextLine(rest, read);
      rest := if i == -1 then "" else rest[i + 1..];
      ReadSnoc(u, n, START, read, DropReturn(raw));
      read := read + [DropReturn(raw)];
      var line := TrimSpace(Before(DropReturn(raw), "#"));
      if line == "" {
        if hasGroup && |group.agents| != 0 { groups := groups + [group]; }
        group, hasGroup, hasDirectives := NO_GROUP, false, false;
        continue;
      }
      if Index(line, ":") == -1 { continue; }
      var key := ToLower(u, TrimSpace(Before(line, ":")));
      var value := TrimSpace(After(line, ":"));
      if key == "user-agent" {
        if hasGroup && hasDirectives {
          if |group.agents| != 0 { groups := groups + [group]; }
          group, hasGroup, hasDirectives := NO_GROUP, false, false;
        }
        hasGroup := true;
        group := group.(agents := group.agents + [ToLower(u, value)]);
      } else if !hasGroup {
        continue;
      } else if key == "allow" || key == "disallow" {
        hasDirectives := true;
        if value != "" { group := group.(rules := group.rules + [Rule(value, key == "allow")]); }
      } else if key == "crawl-delay" {
        hasDirectives := true;
        var delay := ParseDelay(n, value);
        if delay.Some? { group := group.(crawlDelay := delay.value); }
      } else if key == "request-rate" {
        hasDirectives := true;
        var rate := ParseRate(n, value);
        if rate.Some? { group := group.(requestRate := rate); }
      }
    }
    assert Lines(rest) == [] && read + [] == read;
    if hasGroup && |group.agents| != 0 { groups := groups + [group]; }
  }

  lemma NextLine(rest: string, read: seq<string>)
    requires rest != ""
    ensures var i := Index(rest, "\n");
            var raw := if i == -1 then rest else rest[..i];
            ByteLength(raw) < MAX_TOKEN ==>
              read + Lines(rest) == read + [DropReturn(raw)] + Lines(if i == -1 then "" else rest[i + 1..])
  {
    FirstLine(rest);
    hide Lines, ByteLength, DropReturn, Index;
    var i := Index(rest, "\n");
    var line := DropReturn(if i == -1 then rest else rest[..i]);
    var more := Lines(if i == -1 then "" else rest[i + 1..]);
    assert read + ([line] + more) == read + [line] + more;
  }

  lemma FirstLine(rest: string)
    requires rest != ""
    ensures var i := Index(rest, "\n");
            var raw := if i == -1 then rest else rest[..i];
            ByteLength(raw) < MAX_TOKEN ==>
              Lines(rest) == [DropReturn(raw)] + Lines(if i == -1 then "" else rest[i + 1..])
  {
    hide ByteLength, DropReturn, Index;
    assert Lines("") == [];
  }

  lemma {:induction false} ReadAppend(u: Unicode, n: Seconds, s: ParseState, a: seq<string>, b: seq<string>)
    ensures ReadLines(u, n, s, a + b) == ReadLines(u, n, ReadLines(u, n, s, a), b)
    decreases b
  {
    if b == [] {
      assert a + b == a;
    } else {
      assert (a + b)[..|a + b| - 1] == a + b[..|b| - 1];
      ReadAppend(u, n, s, a, b[..|b| - 1]);
    }
  }

  lemma ReadSnoc(u: Unicode, n: Seconds, s: ParseState, lines: seq<string>, line: string)
    ensures ReadLines(u, n, s, lines + [line]) == ReadLine(u, n, ReadLines(u, n, s, lines), line)
  {
    assert (lines + [line])[..|lines|] == lines;
  }

  // ---------- the file as text ----------

  /** Lines with a newline after each. */
  function LinesText(lines: seq<string>): string {
    if lines == [] then "" else lines[0] + "\n" + LinesText(lines[1..])
  }

  /** A line that the scanner returns as it stands. */
  predicate Fits(line: string) {
    '\n' !in line && ByteLength(line) < MAX_TOKEN && DropReturn(line) == line
  }

  ghost predicate AllFit(lines: seq<string>) {
    forall l :: l in lines ==> Fits(l)
  }

  lemma LineFirst(line: string, more: string)
    requires Fits(line)
    ensures Lines(line + "\n" + more) == [line] + Lines(more)
  {
    hide Index, ByteLength;
    var content := line + "\n" + more;
    FirstIndex(line, "\n", more);
    assert content[..|line|] == line && content[|line| + 1..] == more;
  }

  /** A line may end with a return before the newline, and the last one without either. */
  lemma LineEnds(line: string, more: string)
    requires Fits(line) && ByteLength(line + "\r") < MAX_TOKEN
    ensures Lines(line + "\r\n" + more) == [line] + Lines(more)
    ensures line != "" ==> Lines(line) == [line]
  {
    var raw := line + "\r";
    assert DropReturn(raw) == line;
    hide ByteLength, Contains;
    FirstIndex(raw, "\n", more);
    assert line + "\r\n" + more == raw + "\n" + more;
    var content := raw + "\n" + more;
    assert content[..|raw|] == raw && content[|raw| + 1..] == more;
    NotContained(line, "\n");
    NoIndex(line, "\n");
  }

  lemma TextFirst(lines: seq<string>, rest: string)
    requires lines != []
    ensures LinesText(lines) + rest == lines[0] + "\n" + (LinesText(lines[1..]) + rest)
  {
  }

  /** Splitting a text of lines that fit gives the lines back, whatever follows. */
  lemma {:induction false} LinesSplit(lines: seq<string>, rest: string)
    requires AllFit(lines)
    ensures Lines(LinesText(lines) + rest) == lines + Lines(rest)
    decreases lines
  {
    hide Lines, Fits;
    if lines == [] {
      assert LinesText(lines) + rest == rest;
      assert lines + Lines(rest) == Lines(rest);
    } else {
      assert Fits(lines[0]);
      TextFirst(lines, rest);
      hide LinesText;
      LineFirst(lines[0], LinesText(lines[1..]) + rest);
      LinesSplit(lines[1..], rest);
      assert [lines[0]] + (lines[1..] + Lines(rest)) == lines + Lines(rest);
    }
  }

  /** From a line that does not fit the scanner's buffer on, the file is not read. */
  lemma LongLineEndsFile(u: Unicode, n: Seconds, lines: seq<string>, long: string, rest: string)
    requires AllFit(lines) && '\n' !in long && ByteLength(long) >= MAX_TOKEN
    ensures Parse(u, n, LinesText(lines) + (long + "\n" + rest)) == Parse(u, n, LinesText(lines))
  {
    hide Flush, ReadLines, ByteLength, Index, LinesText;
    var tail := long + "\n" + rest;
    FirstIndex(long, "\n", rest);
    assert tail[..|long|] == long;
    LinesSplit(lines, tail);
    LinesSplit(lines, "");
    assert LinesText(lines) + "" == LinesText(lines);
  }

  // ---------- numbers, printed and read ----------

  lemma {:induction false} DecimalDigits(n: nat, more: string)
    ensures Digits(Decimal(n) + more, 0) == Digits(more, n)
    ensures '0' <= Decimal(n)[0] <= '9'
  {
    var d := '0' + (n % 10) as char;
    assert ([d] + more)[1..] == more;
    if n >= 10 {
      DecimalDigits(n / 10, [d] + more);
      assert Decimal(n) + more == Decimal(n / 10) + ([d] + more);
    }
  }

  /** A printed number is read back exactly when it fits an int. */
  lemma AtoiUndoesDecimal(n: nat)
    ensures Atoi(Decimal(n)) == if n <= MAX_INT then Some(n) else None
  {
    DecimalDigits(n, "");
    assert Decimal(n) + "" == Decimal(n);
  }

  lemma {:induction false} DecimalChars(n: nat)
    ensures forall c :: c in Decimal(n) ==> '0' <= c <= '9'
  {
    if n >= 10 { DecimalChars(n / 10); }
  }

  lemma DecimalTrimmed(sign: string, n: nat)
    requires sign == "" || sign == "+"
    ensures var left := sign + Decimal(n); left != "" && Trimmed(left) && '/' !in left
  {
    var left := Decimal(n);
    DecimalChars(n);
    assert left[0] in left && left[|left| - 1] in left;
    assert forall i :: 0 <= i < |left| ==> left[i] in left;
  }

  /** A plus sign changes nothing. */
  lemma PlusCounts(n: nat)
    ensures Atoi("+" + Decimal(n)) == Atoi(Decimal(n))
  {
    DecimalDigits(n, "");
    var s := "+" + Decimal(n);
    assert s[1..] == Decimal(n);
  }

  lemma RateParts(n: Seconds, left: string, before: string, after: string, right: string)
    requires left != "" && Trimmed(left) && '/' !in left && right != "" && Trimmed(right)
    requires AllSpace(before) && AllSpace(after)
    ensures var requests := Atoi(left);
            ParseRate(n, left + before + "/" + after + right) ==
            if requests.Some? && requests.value > 0 && right in n then Some(Rate(requests.value, n[right]))
            else None
  {
    hide Atoi, TrimSpace, Index;
    var l, r := left + before, after + right;
    var text := l + "/" + r;
    assert text == left + before + "/" + after + right;
    assert Trimmed(text) by { assert text[0] == left[0] && text[|text| - 1] == right[|right| - 1]; }
    TrimmedStays(text);
    PaddingTrims("", left, before);
    assert "" + left + before == l;
    PaddingTrims(after, right, "");
    assert after + right + "" == r;
    assert '/' !in l;
    hide Trimmed, AllSpace;
    FirstIndex(l, "/", r);
    assert Before(text, "/") == l && After(text, "/") == r;
  }

  /** A printed rate, with any blanks around its slash, is read back exactly when it allows a request and fits an
      int. */
  lemma RateUndoesPrint(n: Seconds, sign: string, requests: nat, before: string, after: string, seconds: string)
    requires Trimmed(seconds) && seconds in n && seconds != "" && (sign == "" || sign == "+")
    requires AllSpace(before) && AllSpace(after)
    ensures ParseRate(n, sign + Decimal(requests) + before + "/" + after + seconds) ==
            (if 0 < requests <= MAX_INT then Some(Rate(requests, n[seconds])) else None)
  {
    AtoiUndoesDecimal(requests);
    DecimalTrimmed(sign, requests);
    PlusCounts(requests);
    assert "" + Decimal(requests) == Decimal(requests);
    RateParts(n, sign + Decimal(requests), before, after, seconds);
    hide ParseRate, Decimal, Trimmed, Digits;
  }

  /** The parser's state between lines: a group is open exactly when it has an agent. */
  ghost predicate Proper(s: ParseState) {
    && (forall g :: g in s.groups ==> g.agents != [])
    && (s.hasGroup <==> s.group.agents != []) && (s.hasDirectives ==> s.hasGroup)
  }

  lemma DirectiveKeepsProper(u: Unicode, n: Seconds, s: ParseState, key: string, value: string)
    requires Proper(s)
    ensures Proper(Directive(u, n, s, key, value))
  {
    hide ToLower;
  }

  lemma {:induction false} LinesKeepProper(u: Unicode, n: Seconds, lines: seq<string>)
    ensures Proper(ReadLines(u, n, START, lines))
  {
    if lines != [] {
      hide Before, After, Index, TrimSpace, ToLower, Directive;
      LinesKeepProper(u, n, lines[..|lines| - 1]);
      var s := ReadLines(u, n, START, lines[..|lines| - 1]);
      var line := TrimSpace(Before(lines[|lines| - 1], "#"));
      if line != "" && Index(line, ":") != -1 {
        DirectiveKeepsProper(u, n, s, ToLower(u, TrimSpace(Before(line, ":"))), TrimSpace(After(line, ":")));
      }
    }
  }

  /** Every group the parser makes names at least one agent. */
  lemma GroupsNameAgents(u: Unicode, n: Seconds, content: string)
    ensures forall g :: g in Parse(u, n, content) ==> g.agents != []
  {
    LinesKeepProper(u, n, Lines(content));
    hide ReadLines, Lines;
  }
}
