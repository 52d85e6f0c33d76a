/** Splitting a pasted curl command into words, and when that undoes quoting. */
module ShellWords {
  import opened Wrappers

  datatype Quote = Bare | Single | Double | AnsiC

  datatype Scan = Scan(words: seq<string>, current: string, quote: Quote, inWord: bool, escaped: bool)

  datatype Error = UnterminatedQuote

  const START := Scan([], "", Bare, false, false)

  function QuoteCloses(quote: Quote, r: char): bool {
    match quote
    case Single => r == '\''
    case AnsiC => r == '\''
    case Double => r == '"'
    case Bare => false
  }

  function StartsEscape(quote: Quote, r: char): bool {
    r == '\\' && quote != Single
  }

  function IsLineContinuation(r: char): bool {
    r == '\n' || r == '\r'
  }

  function DecodeAnsiCEscape(r: char): char {
    match r
    case 'a' => 7 as char
    case 'b' => 8 as char
    case 'f' => 12 as char
    case 'n' => '\n'
    case 'r' => '\r'
    case 't' => '\t'
    case 'v' => 11 as char
    case _ => r
  }

  function HasSuffixDollar(s: string): bool {
    s != "" && s[|s| - 1] == '$'
  }

  /** One turn of the loop. */
  function Next(s: Scan, r: char): Scan {
    if s.escaped then
      if IsLineContinuation(r) then s.(escaped := false)
      else
        var c := if s.quote == AnsiC then DecodeAnsiCEscape(r) else r;
        s.(current := s.current + [c], inWord := true, escaped := false)
    else if StartsEscape(s.quote, r) then s.(escaped := true)
    else if s.quote != Bare then
      if QuoteCloses(s.quote, r) then s.(quote := Bare) else s.(current := s.current + [r], inWord := true)
    else if r == '\'' then
      if HasSuffixDollar(s.current) then s.(current := s.current[..|s.current| - 1], quote := AnsiC, inWord := true)
      else s.(quote := Single, inWord := true)
    else if r == '"' then s.(quote := Double, inWord := true)
    else if r == ' ' || r == '\t' || r == '\n' || r == '\r' then
      if s.inWord then s.(words := s.words + [s.current], current := "", inWord := false) else s
    else s.(current := s.current + [r], inWord := true)
  }

  /** The checks after the loop. */
  function Finish(s: Scan): Result<seq<string>, Error> {
    var s' := if s.escaped then s.(current := s.current + "\\", inWord := true) else s;
    if s'.quote != Bare then Err(UnterminatedQuote)
    else Ok(if s'.inWord then s'.words + [s'.current] else s'.words)
  }

  function ScanFrom(s: Scan, input: string): Scan
    decreases input
  {
    if input == "" then s else ScanFrom(Next(s, input[0]), input[1..])
  }

  function Split(command: string): Result<seq<string>, Error> {
    Finish(ScanFrom(START, command))
  }

  /** splitWords, with its loop variables. */
  method SplitWords(command: string) returns (result: Result<seq<string>, Error>)
    ensures result == Split(command)
  {
    var words: seq<string> := [];
    var current := "";
    var quote := Bare;
    var inWord, escaped := false, false;
    for i := 0 to |command|
      invariant ScanFrom(Scan(words, current, quote, inWord, escaped), command[i..]) == ScanFrom(START, command)
    {
      var r := command[i];
      assert command[i..][0] == r && command[i..][1..] == command[i + 1..];
      if escaped {
        if !IsLineContinuation(r) {
          current := current + [if quote == AnsiC then DecodeAnsiCEscape(r) else r];
          inWord := true;
        }
        escaped := false;
        continue;
      }
      if StartsEscape(quote, r) {
        escaped := true;
        continue;
      }
      if quote != Bare {
        if QuoteCloses(quote, r) {
          quote := Bare;
        } else {
          current := current + [r];
          inWord := true;
        }
        continue;
      }
      match r
      case '\'' =>
        if HasSuffixDollar(current) {
          current := current[..|current| - 1];
          quote := AnsiC;
        } else {
          quote := Single;
        }
        inWord := true;
      case '"' =>
        quote := Double;
        inWord := true;
      case _ =>
        if r == ' ' || r == '\t' || r == '\n' || r == '\r' {
          if inWord {
            words := words + [current];
            current := "";
            inWord := false;
          }
        } else {
          current := current + [r];
          inWord := true;
        }
    }
    if escaped {
      current := current + "\\";
      inWord := true;
    }
    if quote != Bare { return Err(UnterminatedQuote); }
    if inWord { words := words + [current]; }
    return Ok(words);
  }

  // ---------- writing words ----------

  /** The styles of a piece of a word: '...', "...", $'...', and no quotes at all. */
  datatype Style = InSingle | InDouble | InAnsiC | Unquoted

  function ModeOf(style: Style): Quote {
    match style case InSingle => Single case InDouble => Double case InAnsiC => AnsiC case Unquoted => Bare
  }

  function Open(style: Style): string {
    match style case InSingle => "'" case InDouble => "\"" case InAnsiC => "$'" case Unquoted => ""
  }

  function Shut(style: Style): string {
    match style case InDouble => "\"" case Unquoted => "" case _ => "'"
  }

  predicate IsBlank(c: char) {
    c == ' ' || c == '\t' || c == '\n' || c == '\r'
  }

  /** The escapes of $'...' that stand for another character. */
  const ANSI_C: map<char, char> :=
    map['a' := 7 as char, 'b' := 8 as char, 't' := 9 as char, 'n' := 10 as char,
        'v' := 11 as char, 'f' := 12 as char, 'r' := 13 as char]

  /** A stretch of a piece: what it stands for and how it is written. */
  datatype Mark = Mark(stands: string, written: string)

  /** A character that stands for itself. */
  predicate IsPlain(style: Style, c: char) {
    match style
    case InSingle => c != '\''
    case InDouble => c != '"' && c != '\\'
    case InAnsiC => c != '\'' && c != '\\'
    case Unquoted => !IsBlank(c) && c != '\'' && c != '"' && c != '\\'
  }

  /** What a character behind a backslash stands for; an escaped line end stands for nothing. */
  function Escaped(style: Style, c: char): string {
    if c == '\n' || c == '\r' then ""
    else if style.InAnsiC? && c in ANSI_C then [ANSI_C[c]]
    else [c]
  }

  /** The ways to write.  Between single quotes a quote takes closing, an escaped quote and reopening, and there are
      no escapes. */
  predicate IsMark(style: Style, m: Mark) {
    || (|m.stands| == 1 && m.written == m.stands && IsPlain(style, m.stands[0]))
    || (style.InSingle? && m.stands == "'" && m.written == "'\\''")
    || (!style.InSingle? && |m.written| == 2 && m.written[0] == '\\' && m.stands == Escaped(style, m.written[1]))
  }

  /** A word is any number of pieces side by side. */
  datatype Piece = Piece(style: Style, marks: seq<Mark>)

  predicate IsPiece(p: Piece) {
    forall m :: m in p.marks ==> IsMark(p.style, m)
  }

  function Stands(marks: seq<Mark>): string {
    if marks == [] then "" else marks[0].stands + Stands(marks[1..])
  }

  function Written(marks: seq<Mark>): string {
    if marks == [] then "" else marks[0].written + Written(marks[1..])
  }

  function WritePiece(p: Piece): string {
    Open(p.style) + Written(p.marks) + Shut(p.style)
  }

  function WritePieces(pieces: seq<Piece>): string {
    if pieces == [] then "" else WritePiece(pieces[0]) + WritePieces(pieces[1..])
  }

  /** What a shell makes of the pieces. */
  function Text(pieces: seq<Piece>): string {
    if pieces == [] then "" else Stands(pieces[0].marks) + Text(pieces[1..])
  }

  /** A piece that makes a word even if it is empty, or that is not empty. */
  predicate Shows(p: Piece) {
    !p.style.Unquoted? || Stands(p.marks) != ""
  }

  ghost predicate IsWord(pieces: seq<Piece>) {
    (forall p :: p in pieces ==> IsPiece(p)) && exists p :: p in pieces && Shows(p)
  }

  /** Between words: blanks, and line ends behind a backslash, which separate nothing. */
  datatype GapItem = Blank(c: char) | Continued(c: char)

  predicate IsItem(g: GapItem) {
    match g case Blank(c) => IsBlank(c) case Continued(c) => c == '\n' || c == '\r'
  }

  predicate IsGap(gap: seq<GapItem>) {
    forall g :: g in gap ==> IsItem(g)
  }

  predicate Separates(gap: seq<GapItem>) {
    exists g :: g in gap && g.Blank?
  }

  function WriteGap(gap: seq<GapItem>): string {
    if gap == [] then ""
    else (match gap[0] case Blank(c) => [c] case Continued(c) => ['\\', c]) + WriteGap(gap[1..])
  }

  /** Gaps before, between and behind the words. */
  function WriteWords(words: seq<seq<Piece>>, gaps: seq<seq<GapItem>>): string
    requires |gaps| == |words| + 1
  {
    WriteGap(gaps[0]) + if words == [] then "" else WritePieces(words[0]) + WriteWords(words[1..], gaps[1..])
  }

  /** Words in their gaps; those between two words separate them. */
  ghost predicate IsCommand(words: seq<seq<Piece>>, gaps: seq<seq<GapItem>>) {
    && |gaps| == |words| + 1
    && (forall i :: 0 <= i < |words| ==> IsWord(words[i]))
    && (forall i :: 0 <= i < |gaps| ==> IsGap(gaps[i]))
    && (forall i :: 0 < i < |words| ==> Separates(gaps[i]))
  }

  function Texts(words: seq<seq<Piece>>): (r: seq<string>)
    ensures |r| == |words|
  {
    if words == [] then [] else [Text(words[0])] + Texts(words[1..])
  }

  /** A single quote behind a dollar sign is taken for $', even when that sign was quoted itself. */
  predicate Misread(before: string, piece: Piece) {
    piece.style.InSingle? && HasSuffixDollar(before)
  }

  /** No piece is misread: no single-quoted one begins where the word so far ends in a dollar sign. */
  predicate Safe(before: string, pieces: seq<Piece>)
    decreases pieces
  {
    pieces == [] || (!Misread(before, pieces[0]) && Safe(before + Stands(pieces[0].marks), pieces[1..]))
  }

  predicate AllSafe(words: seq<seq<Piece>>) {
    forall i :: 0 <= i < |words| ==> Safe("", words[i])
  }

  // ---------- splitting undoes writing ----------

  lemma {:induction false} ScanAppend(s: Scan, a: string, b: string)
    ensures ScanFrom(s, a + b) == ScanFrom(ScanFrom(s, a), b)
    decreases a
  {
    if a == "" {
      assert a + b == b;
    } else {
      assert (a + b)[1..] == a[1..] + b;
      ScanAppend(Next(s, a[0]), a[1..], b);
    }
  }

  lemma ScanOne(s: Scan, c: char)
    ensures ScanFrom(s, [c]) == Next(s, c)
  {
    assert [c][1..] == "";
  }

  lemma ScanTwo(s: Scan, c: char, d: char)
    ensures ScanFrom(s, [c, d]) == Next(Next(s, c), d)
  {
    assert [c, d] == [c] + [d];
    ScanAppend(s, [c], [d]);
    ScanOne(s, c);
    ScanOne(Next(s, c), d);
  }

  /** Somewhere in a piece of a style. */
  function Inside(words: seq<string>, current: string, style: Style, inWord: bool): Scan {
    Scan(words, current, ModeOf(style), inWord, false)
  }

  lemma AnsiCTable(c: char)
    ensures DecodeAnsiCEscape(c) == if c in ANSI_C then ANSI_C[c] else c
  {
  }

  lemma ScanEscape(words: seq<string>, current: string, style: Style, inWord: bool, c: char)
    requires !style.InSingle?
    ensures ScanFrom(Inside(words, current, style, inWord), ['\\', c]) ==
            Inside(words, current + Escaped(style, c), style, inWord || Escaped(style, c) != "")
  {
    hide DecodeAnsiCEscape, ScanFrom;
    AnsiCTable(c);
    ScanTwo(Inside(words, current, style, inWord), '\\', c);
    assert current + "" == current;
  }

  /** After a quote inside the text the mode is that of single quotes. */
  lemma Reopens(words: seq<string>, current: string, style: Style)
    requires style.InSingle? || style.InAnsiC?
    ensures ScanFrom(Inside(words, current, style, true), "'\\''") == Inside(words, current + "'", InSingle, true)
  {
    var s := Inside(words, current, style, true);
    hide ScanFrom;
    assert "'\\''" == ['\'', '\\'] + ['\'', '\''];
    ScanAppend(s, ['\'', '\\'], ['\'', '\'']);
    ScanTwo(s, '\'', '\\');
    ScanTwo(Next(Next(s, '\''), '\\'), '\'', '\'');
  }

  lemma ScanMark(words: seq<string>, current: string, style: Style, inWord: bool, m: Mark)
    requires IsMark(style, m) && (style.Unquoted? || inWord)
    ensures ScanFrom(Inside(words, current, style, inWord), m.written) ==
            Inside(words, current + m.stands, style, inWord || m.stands != "")
  {
    var s := Inside(words, current, style, inWord);
    if |m.stands| == 1 && m.written == m.stands && IsPlain(style, m.stands[0]) {
      ScanOne(s, m.stands[0]);
      assert m.written == [m.stands[0]];
      hide ScanFrom;
    } else if style.InSingle? {
      Reopens(words, current, style);
    } else {
      assert m.written == ['\\', m.written[1]];
      ScanEscape(words, current, style, inWord, m.written[1]);
    }
  }

  /** The scan reads back what the marks stand for. */
  lemma {:induction false} ScanMarks(words: seq<string>, current: string, style: Style, inWord: bool, marks: seq<Mark>)
    requires (forall m :: m in marks ==> IsMark(style, m)) && (style.Unquoted? || inWord)
    ensures ScanFrom(Inside(words, current, style, inWord), Written(marks)) ==
            Inside(words, current + Stands(marks), style, inWord || Stands(marks) != "")
    decreases marks
  {
    if marks == [] {
      assert current + "" == current;
    } else {
      hide IsMark, ScanFrom;
      assert marks[0] in marks;
      ScanAppend(Inside(words, current, style, inWord), marks[0].written, Written(marks[1..]));
      ScanMark(words, current, style, inWord, marks[0]);
      ScanMarks(words, current + marks[0].stands, style, inWord || marks[0].stands != "", marks[1..]);
      assert current + marks[0].stands + Stands(marks[1..]) == current + Stands(marks);
    }
  }

  lemma ScanOpen(words: seq<string>, current: string, inWord: bool, style: Style)
    ensures var s := ScanFrom(Scan(words, current, Bare, inWord, false), Open(style));
            if style.InSingle? && HasSuffixDollar(current) then
              s == Inside(words, current[..|current| - 1], InAnsiC, true)
            else s == Inside(words, current, style, inWord || !style.Unquoted?)
  {
    var s := Scan(words, current, Bare, inWord, false);
    match style
    case InAnsiC =>
      ScanTwo(s, '$', '\'');
      assert (current + ['$'])[..|current|] == current;
    case Unquoted =>
    case _ => ScanOne(s, Open(style)[0]);
  }

  lemma ScanShut(words: seq<string>, current: string, style: Style, inWord: bool)
    requires style.Unquoted? || inWord
    ensures ScanFrom(Inside(words, current, style, inWord), Shut(style)) == Scan(words, current, Bare, inWord, false)
  {
    if !style.Unquoted? { ScanOne(Inside(words, current, style, inWord), Shut(style)[0]); }
  }

  lemma ScanPiece(words: seq<string>, current: string, inWord: bool, piece: Piece)
    requires IsPiece(piece) && !Misread(current, piece)
    ensures ScanFrom(Scan(words, current, Bare, inWord, false), WritePiece(piece)) ==
            Scan(words, current + Stands(piece.marks), Bare, inWord || Shows(piece), false)
  {
    hide ScanFrom, IsMark, Stands, Written;
    var s := Scan(words, current, Bare, inWord, false);
    var style, marks := piece.style, piece.marks;
    ScanAppend(s, Open(style) + Written(marks), Shut(style));
    ScanAppend(s, Open(style), Written(marks));
    ScanOpen(words, current, inWord, style);
    ScanMarks(words, current, style, inWord || !style.Unquoted?, marks);
    ScanShut(words, current + Stands(marks), style, inWord || Shows(piece));
  }

  lemma TextSplit(before: string, pieces: seq<Piece>)
    requires pieces != []
    ensures before + Stands(pieces[0].marks) + Text(pieces[1..]) == before + Text(pieces)
  {
  }

  lemma PiecesSplit(pieces: seq<Piece>, tail: string)
    requires pieces != []
    ensures WritePieces(pieces) + tail == WritePiece(pieces[0]) + (WritePieces(pieces[1..]) + tail)
  {
    hide WritePiece;
  }

  ghost predicate AllPieces(pieces: seq<Piece>) {
    forall p :: p in pieces ==> IsPiece(p)
  }

  ghost predicate AnyShows(pieces: seq<Piece>) {
    exists p :: p in pieces && Shows(p)
  }

  lemma FirstPiece(pieces: seq<Piece>)
    requires pieces != [] && AllPieces(pieces)
    ensures IsPiece(pieces[0]) && AllPieces(pieces[1..])
    ensures AnyShows(pieces) <==> Shows(pieces[0]) || AnyShows(pieces[1..])
  {
    hide IsPiece, Shows;
    assert forall p :: p in pieces <==> p == pieces[0] || p in pieces[1..];
  }

  lemma {:induction false} ScanPieces(words: seq<string>, current: string, inWord: bool, pieces: seq<Piece>)
    requires AllPieces(pieces) && Safe(current, pieces)
    ensures ScanFrom(Scan(words, current, Bare, inWord, false), WritePieces(pieces)) ==
            Scan(words, current + Text(pieces), Bare, inWord || AnyShows(pieces), false)
    decreases pieces
  {
    if pieces == [] {
      assert current + Text(pieces) == current;
    } else {
      TextSplit(current, pieces);
      FirstPiece(pieces);
      hide WritePiece, ScanFrom, Misread, Text, AllPieces, AnyShows, IsPiece, Shows, Stands;
      var s := Scan(words, current, Bare, inWord, false);
      ScanAppend(s, WritePiece(pieces[0]), WritePieces(pieces[1..]));
      ScanPiece(words, current, inWord, pieces[0]);
      ScanPieces(words, current + Stands(pieces[0].marks), inWord || Shows(pieces[0]), pieces[1..]);
    }
  }

  // ---------- gaps and whole commands ----------

  /** Between words. */
  function Idle(done: seq<string>): Scan {
    Scan(done, "", Bare, false, false)
  }

  /** Behind the pieces of a word. */
  function InWord(done: seq<string>, current: string): Scan {
    Scan(done, current, Bare, true, false)
  }

  lemma ScanItem(s: Scan, g: GapItem)
    requires IsItem(g) && s.quote.Bare? && !s.escaped && (!s.inWord ==> s.current == "")
    ensures ScanFrom(s, match g case Blank(c) => [c] case Continued(c) => ['\\', c]) ==
            if g.Blank? && s.inWord then Idle(s.words + [s.current]) else s
  {
    match g
    case Blank(c) => ScanOne(s, c);
    case Continued(c) => ScanTwo(s, '\\', c);
  }

  /** A gap ends the word before it if it separates, and does nothing else. */
  lemma {:induction false} ScanGap(s: Scan, gap: seq<GapItem>)
    requires IsGap(gap) && s.quote.Bare? && !s.escaped && (!s.inWord ==> s.current == "")
    ensures ScanFrom(s, WriteGap(gap)) == if Separates(gap) && s.inWord then Idle(s.words + [s.current]) else s
    decreases gap
  {
    if gap != [] {
      hide IsItem, ScanFrom;
      assert gap[0] in gap;
      var first := match gap[0] case Blank(c) => [c] case Continued(c) => ['\\', c];
      ScanAppend(s, first, WriteGap(gap[1..]));
      ScanItem(s, gap[0]);
      ScanGap(ScanFrom(s, first), gap[1..]);
      assert Separates(gap) <==> gap[0].Blank? || Separates(gap[1..]);
    }
  }

  /** Where the scan of a command ends: behind its last word, unless a gap follows it. */
  function EndState(done: seq<string>, words: seq<seq<Piece>>, gaps: seq<seq<GapItem>>): Scan
    requires |gaps| == |words| + 1
  {
    if words == [] then Idle(done)
    else if Separates(gaps[|words|]) then Idle(done + Texts(words))
    else InWord(done + Texts(words)[..|words| - 1], Texts(words)[|words| - 1])
  }

  lemma RestIsCommand(words: seq<seq<Piece>>, gaps: seq<seq<GapItem>>)
    requires words != [] && IsCommand(words, gaps)
    ensures IsCommand(words[1..], gaps[1..]) && IsWord(words[0]) && IsGap(gaps[0]) && IsGap(gaps[1])
    ensures |words| > 1 ==> Separates(gaps[1])
  {
    hide IsWord, IsGap, Separates;
  }

  /** One word, with the gap before it, and what follows. */
  lemma ScanWord(done: seq<string>, words: seq<seq<Piece>>, gaps: seq<seq<GapItem>>)
    requires words != [] && IsCommand(words, gaps) && Safe("", words[0])
    ensures ScanFrom(Idle(done), WriteWords(words, gaps)) ==
            ScanFrom(InWord(done, Text(words[0])), WriteWords(words[1..], gaps[1..]))
  {
    RestIsCommand(words, gaps);
    WordsSplit(words, gaps);
    hide IsCommand, WritePieces, Text, Safe, WriteGap, IsGap, Separates, ScanFrom, WriteWords;
    var rest := WriteWords(words[1..], gaps[1..]);
    ScanAppend(Idle(done), WriteGap(gaps[0]), WritePieces(words[0]) + rest);
    ScanGap(Idle(done), gaps[0]);
    ScanAppend(Idle(done), WritePieces(words[0]), rest);
    ScanPieces(done, "", false, words[0]);
    assert "" + Text(words[0]) == Text(words[0]);
  }

  lemma WordsSplit(words: seq<seq<Piece>>, gaps: seq<seq<GapItem>>)
    requires words != [] && |gaps| == |words| + 1
    ensures WriteWords(words, gaps) ==
            WriteGap(gaps[0]) + (WritePieces(words[0]) + WriteWords(words[1..], gaps[1..]))
  {
    hide WriteGap, WritePieces;
  }

  /** Behind a word the rest of a command is read as between words, once the word is taken. */
  lemma ScanRest(done: seq<string>, current: string, words: seq<seq<Piece>>, gaps: seq<seq<GapItem>>)
    requires IsCommand(words, gaps) && Separates(gaps[0])
    ensures ScanFrom(InWord(done, current), WriteWords(words, gaps)) ==
            ScanFrom(Idle(done + [current]), WriteWords(words, gaps))
  {
    var more := if words == [] then "" else WritePieces(words[0]) + WriteWords(words[1..], gaps[1..]);
    assert IsGap(gaps[0]) && WriteWords(words, gaps) == WriteGap(gaps[0]) + more;
    hide IsCommand, WritePieces, WriteGap, IsGap, Separates, ScanFrom, WriteWords;
    ScanAppend(InWord(done, current), WriteGap(gaps[0]), more);
    ScanGap(InWord(done, current), gaps[0]);
    ScanAppend(Idle(done + [current]), WriteGap(gaps[0]), more);
    ScanGap(Idle(done + [current]), gaps[0]);
  }

  /** Only a gap is left. */
  lemma ScanLast(s: Scan, gaps: seq<seq<GapItem>>)
    requires |gaps| == 1 && IsGap(gaps[0]) && s.quote.Bare? && !s.escaped && (!s.inWord ==> s.current == "")
    ensures ScanFrom(s, WriteWords([], gaps)) ==
            if Separates(gaps[0]) && s.inWord then Idle(s.words + [s.current]) else s
  {
    hide IsGap, Separates, ScanFrom, WriteGap;
    assert WriteWords([], gaps) == WriteGap(gaps[0]) + "" == WriteGap(gaps[0]);
    ScanGap(s, gaps[0]);
  }

  lemma TextsSplit(done: seq<string>, words: seq<seq<Piece>>)
    requires words != []
    ensures done + [Text(words[0])] + Texts(words[1..]) == done + Texts(words)
    ensures Texts(words)[0] == Text(words[0]) && Texts(words)[1..] == Texts(words[1..])
  {
    hide Text;
  }

  lemma EndStateSplit(done: seq<string>, words: seq<seq<Piece>>, gaps: seq<seq<GapItem>>)
    requires |gaps| == |words| + 1 && |words| > 1
    ensures EndState(done + [Text(words[0])], words[1..], gaps[1..]) == EndState(done, words, gaps)
  {
    hide Text, Separates;
    TextsSplit(done, words);
    var n := |words| - 1;
    assert done + [Text(words[0])] + Texts(words[1..])[..n - 1] == done + Texts(words)[..n];
  }

  lemma {:induction false} ScanWords(done: seq<string>, words: seq<seq<Piece>>, gaps: seq<seq<GapItem>>)
    requires IsCommand(words, gaps) && AllSafe(words)
    ensures ScanFrom(Idle(done), WriteWords(words, gaps)) == EndState(done, words, gaps)
    decreases words
  {
    hide Safe, ScanFrom, WriteWords, Text, IsWord, Separates, IsGap;
    if words == [] {
      ScanLast(Idle(done), gaps);
    } else {
      RestIsCommand(words, gaps);
      ScanWord(done, words, gaps);
      if |words| == 1 {
        assert words[1..] == [] && Texts(words) == [Text(words[0])];
        ScanLast(InWord(done, Text(words[0])), gaps[1..]);
        assert done + Texts(words)[..0] == done;
      } else {
        hide IsCommand, EndState;
        ScanRest(done, Text(words[0]), words[1..], gaps[1..]);
        ScanWords(done + [Text(words[0])], words[1..], gaps[1..]);
        EndStateSplit(done, words, gaps);
      }
    }
  }

  lemma EndFinishes(done: seq<string>, words: seq<seq<Piece>>, gaps: seq<seq<GapItem>>)
    requires |gaps| == |words| + 1
    ensures Finish(EndState(done, words, gaps)) == Ok(done + Texts(words))
  {
    hide Text, Separates;
    if words == [] {
      assert done + Texts(words) == done;
    } else {
      var n := |words| - 1;
      assert done + Texts(words)[..n] + [Texts(words)[n]] == done + Texts(words);
    }
  }

  // ---------- a misread piece is never made good ----------

  /** Word `k` has a single quote at place `j`. */
  predicate Marked(s: Scan, k: nat, j: nat) {
    if |s.words| == k then s.inWord && j < |s.current| && s.current[j] == '\''
    else |s.words| > k && j < |s.words[k]| && s.words[k][j] == '\''
  }

  /** Word `k` is complete. */
  predicate Holds(s: Scan, k: nat, w: string) {
    |s.words| > k && s.words[k] == w
  }

  lemma {:induction false} MarkStays(s: Scan, input: string, k: nat, j: nat)
    requires Marked(s, k, j)
    ensures Marked(ScanFrom(s, input), k, j)
    decreases input
  {
    if input != "" {
      hide DecodeAnsiCEscape;
      MarkStays(Next(s, input[0]), input[1..], k, j);
    }
  }

  lemma {:induction false} WordStays(s: Scan, input: string, k: nat, w: string)
    requires Holds(s, k, w)
    ensures Holds(ScanFrom(s, input), k, w)
    decreases input
  {
    if input != "" {
      hide DecodeAnsiCEscape;
      WordStays(Next(s, input[0]), input[1..], k, w);
    }
  }

  /** The result is an error or has another word at `k`. */
  predicate Spoilt(r: Result<seq<string>, Error>, k: nat, w: string) {
    r.Ok? ==> |r.value| > k && r.value[k] != w
  }

  lemma MarkSpoils(s: Scan, input: string, k: nat, j: nat, w: string)
    requires Marked(s, k, j) && j < |w| && w[j] != '\''
    ensures Spoilt(Finish(ScanFrom(s, input)), k, w)
  {
    MarkStays(s, input, k, j);
    hide ScanFrom;
  }

  /** What has been read of a word is behind what it should be, and the rest to come of it has no single quote;
      up to `lo` the two agree. */
  predicate Behind(current: string, should: string, lo: nat) {
    lo <= |current| < |should| && current[..lo] == should[..lo] && '\'' !in should[lo..]
  }

  /** Both get on without a single quote. */
  lemma BehindOn(current: string, should: string, lo: nat, more: string, more': string)
    requires Behind(current, should, lo) && |more| <= |more'| && '\'' !in more'
    ensures Behind(current + more, should + more', lo)
  {
    assert (current + more)[..lo] == current[..lo] && (should + more')[..lo] == should[..lo];
    assert (should + more')[lo..] == should[lo..] + more';
  }

  /** A single quote read now comes too early. */
  lemma TooEarly(current: string, should: string, lo: nat, before: string, more: string)
    requires Behind(current, should, lo) && '\'' !in before
    ensures var j := |current| + |before|; j < |should + before + more| && (should + before + more)[j] != '\''
  {
    var j := |current| + |before|;
    if j < |should| {
      assert should[j] == should[lo..][j - lo];
    } else {
      assert (should + before + more)[j] == before[j - |should|];
    }
  }

  /** A text between single quotes. */
  function QuoteChar(c: char): string {
    if c == '\'' then "'\\''" else [c]
  }

  function QuoteBody(t: string): string {
    if t == "" then "" else QuoteChar(t[0]) + QuoteBody(t[1..])
  }

  /** A single-quoted text `t` read in the mode of $'...': behind at its end, or marked. */
  lemma {:induction false} Misreading(done: seq<string>, current: string, should: string, lo: nat, t: string)
    returns (current': string, j: nat)
    requires Behind(current, should, lo)
    ensures var s := ScanFrom(Inside(done, current, InAnsiC, true), QuoteBody(t) + "'");
            if j == 0 then s == Scan(done, current', Bare, true, false) && Behind(current', should + t, lo)
            else Marked(s, |done|, j - 1) && j - 1 < |should + t| && (should + t)[j - 1] != '\''
    decreases |t|
  {
    hide DecodeAnsiCEscape, Behind, Marked, ScanFrom, QuoteBody;
    var s := Inside(done, current, InAnsiC, true);
    if t == "" {
      current', j := current, 0;
      ScanOne(s, '\'');
      NothingFirst(t);
      assert should + t == should;
    } else if t[0] == '\'' || (t[0] == '\\' && (|t| == 1 || t[1] == '\'')) {
      current', j := "", |current| + 1;
      if t[0] == '\'' { QuoteIsRead(done, current, t); } else { EscapedQuoteIsRead(done, current, t); }
      TooEarly(current, should, lo, "", t);
      assert should + "" + t == should + t;
    } else if t[0] == '\\' {
      var decoded := if IsLineContinuation(t[1]) then "" else [DecodeAnsiCEscape(t[1])];
      EscapeIsRead(done, current, t);
      BehindOn(current, should, lo, decoded, t[..2]);
      current', j := Misreading(done, current + decoded, should + t[..2], lo, t[2..]);
      assert should + t[..2] + t[2..] == should + t;
    } else {
      var rest := QuoteBody(t[1..]) + "'";
      PlainFirst(t);
      ScanAppend(s, [t[0]], rest);
      ScanOne(s, t[0]);
      BehindOn(current, should, lo, t[..1], t[..1]);
      assert current + t[..1] == current + [t[0]];
      current', j := Misreading(done, current + t[..1], should + t[..1], lo, t[1..]);
      assert should + t[..1] + t[1..] == should + t;
    }
  }

  /** A quote in the text. */
  lemma QuoteIsRead(done: seq<string>, current: string, t: string)
    requires t != "" && t[0] == '\''
    ensures Marked(ScanFrom(Inside(done, current, InAnsiC, true), QuoteBody(t) + "'"), |done|, |current|)
  {
    JustMarked(done, current, InSingle);
    hide QuoteBody, ScanFrom, Marked;
    var rest := QuoteBody(t[1..]) + "'";
    QuoteFirst(t);
    ScanAppend(Inside(done, current, InAnsiC, true), QuoteChar('\''), rest);
    Reopens(done, current, InAnsiC);
    MarkStays(Inside(done, current + "'", InSingle, true), rest, |done|, |current|);
  }

  /** A quote, or the closing one, behind a backslash. */
  lemma EscapedQuoteIsRead(done: seq<string>, current: string, t: string)
    requires t != "" && t[0] == '\\' && (|t| == 1 || t[1] == '\'')
    ensures Marked(ScanFrom(Inside(done, current, InAnsiC, true), QuoteBody(t) + "'"), |done|, |current|)
  {
    JustMarked(done, current, InAnsiC);
    BackslashFirst(t);
    EscapedQuote(done, current);
    hide QuoteBody, ScanFrom, Marked, Inside;
    var input := QuoteBody(t) + "'";
    ScanAppend(Inside(done, current, InAnsiC, true), ['\\', '\''], input[2..]);
    MarkStays(Inside(done, current + "'", InAnsiC, true), input[2..], |done|, |current|);
  }

  lemma EscapedQuote(done: seq<string>, current: string)
    ensures ScanFrom(Inside(done, current, InAnsiC, true), ['\\', '\'']) == Inside(done, current + "'", InAnsiC, true)
  {
    hide ScanFrom;
    ScanTwo(Inside(done, current, InAnsiC, true), '\\', '\'');
  }

  lemma JustMarked(done: seq<string>, current: string, style: Style)
    ensures Marked(Inside(done, current + "'", style, true), |done|, |current|)
  {
  }

  lemma NothingFirst(t: string)
    requires t == ""
    ensures QuoteBody(t) + "'" == ['\'']
  {
  }

  lemma PlainFirst(t: string)
    requires t != "" && t[0] != '\''
    ensures QuoteBody(t) + "'" == [t[0]] + (QuoteBody(t[1..]) + "'")
  {
  }

  lemma QuoteFirst(t: string)
    requires t != "" && t[0] == '\''
    ensures QuoteBody(t) + "'" == QuoteChar('\'') + (QuoteBody(t[1..]) + "'")
  {
  }

  lemma BackslashFirst(t: string)
    requires t != "" && t[0] == '\\' && (|t| == 1 || t[1] == '\'')
    ensures var input := QuoteBody(t) + "'"; |input| >= 2 && input == ['\\', '\''] + input[2..]
  {
    var rest := QuoteBody(t[1..]);
    assert QuoteBody(t) == ['\\'] + rest;
    if |t| > 1 { assert rest == QuoteChar('\'') + QuoteBody(t[1..][1..]); }
  }

  lemma EscapeIsRead(done: seq<string>, current: string, t: string)
    requires |t| >= 2 && t[0] == '\\' && t[1] != '\''
    ensures var decoded := if IsLineContinuation(t[1]) then "" else [DecodeAnsiCEscape(t[1])];
            ScanFrom(Inside(done, current, InAnsiC, true), QuoteBody(t) + "'") ==
            ScanFrom(Inside(done, current + decoded, InAnsiC, true), QuoteBody(t[2..]) + "'")
  {
    hide DecodeAnsiCEscape, ScanFrom;
    var s := Inside(done, current, InAnsiC, true);
    var rest := QuoteBody(t[2..]) + "'";
    EscapeFirst(t);
    ScanAppend(s, [t[0], t[1]], rest);
    ScanTwo(s, t[0], t[1]);
    assert current + "" == current;
  }

  lemma EscapeFirst(t: string)
    requires |t| >= 2 && t[0] == '\\' && t[1] != '\''
    ensures QuoteBody(t) + "'" == [t[0], t[1]] + (QuoteBody(t[2..]) + "'")
  {
    PlainFirst(t);
    PlainFirst(t[1..]);
    hide QuoteBody;
    assert t[1..][1..] == t[2..];
    TwoFirst(t[0], t[1], QuoteBody(t[2..]) + "'");
  }

  lemma TwoFirst(a: char, b: char, rest: string)
    ensures [a] + ([b] + rest) == [a, b] + rest
  {
  }

  /** What follows a word: whatever was read of it, if it is wrong the result is. */
  ghost predicate EndsWord(tail: string) {
    forall done, current, should :: current != should ==>
      Spoilt(Finish(ScanFrom(InWord(done, current), tail)), |done|, should)
  }

  lemma RestEndsWord(words: seq<seq<Piece>>, gaps: seq<seq<GapItem>>)
    requires IsCommand(words, gaps) && (words != [] ==> Separates(gaps[0]))
    ensures EndsWord(WriteWords(words, gaps))
  {
    hide IsWord, IsGap, Separates, WriteWords, ScanFrom;
    forall done: seq<string>, current: string, should: string | current != should
      ensures Spoilt(Finish(ScanFrom(InWord(done, current), WriteWords(words, gaps))), |done|, should)
    {
      if words == [] {
        assert gaps == [gaps[0]];
        ScanLast(InWord(done, current), gaps);
      } else {
        ScanRest(done, current, words, gaps);
        WordStays(Idle(done + [current]), WriteWords(words, gaps), |done|, current);
      }
    }
  }

  /** Once behind, a word does not catch up. */
  lemma {:induction false} StaysBehind(done: seq<string>, current: string, should: string, lo: nat,
                                       pieces: seq<Piece>, tail: string)
    requires Behind(current, should, lo) && EndsWord(tail) && AllPieces(pieces)
    ensures Spoilt(Finish(ScanFrom(InWord(done, current), WritePieces(pieces) + tail)), |done|, should + Text(pieces))
    decreases |pieces|, 1
  {
    if pieces == [] {
      assert WritePieces(pieces) + tail == tail && should + Text(pieces) == should;
    } else if Misread(current, pieces[0]) {
      Restart(done, current, true, should, lo, pieces, tail);
    } else {
      PiecesSplit(pieces, tail);
      TextSplit(should, pieces);
      FirstPiece(pieces);
      hide Behind, ScanFrom, Misread, WritePiece, Marked, Spoilt, WritePieces, Text, EndsWord, AllPieces;
      hide IsPiece, Stands;
      var t, more := Stands(pieces[0].marks), WritePieces(pieces[1..]) + tail;
      ScanAppend(InWord(done, current), WritePiece(pieces[0]), more);
      ScanPiece(done, current, true, pieces[0]);
      if '\'' in t {
        QuoteComesEarly(done, current, should, lo, t, more, Text(pieces[1..]));
      } else {
        BehindOn(current, should, lo, t, t);
        StaysBehind(done, current + t, should + t, lo, pieces[1..], tail);
      }
    }
  }

  lemma QuoteComesEarly(done: seq<string>, current: string, should: string, lo: nat, t: string, input: string,
                        more: string)
    requires Behind(current, should, lo) && '\'' in t
    ensures Spoilt(Finish(ScanFrom(Scan(done, current + t, Bare, true, false), input)), |done|, should + t + more)
  {
    var q := FirstQuote(t);
    TooEarly(current, should, lo, t[..q], t[q..] + more);
    assert should + t[..q] + (t[q..] + more) == should + t + more;
    MarkSpoils(Scan(done, current + t, Bare, true, false), input, |done|, |current| + q, should + t + more);
  }

  function FirstQuote(t: string): (q: nat)
    requires '\'' in t
    ensures q < |t| && t[q] == '\'' && '\'' !in t[..q]
  {
    if t[0] == '\'' then 0
    else
      assert t == [t[0]] + t[1..];
      var q := FirstQuote(t[1..]);
      assert t[..q + 1] == [t[0]] + t[1..][..q];
      q + 1
  }

  /** A misread piece: the dollar sign is gone, and the text is read in the mode of $'...'. */
  lemma {:induction false} Restart(done: seq<string>, current: string, inWord: bool, should: string, lo: nat,
                                   pieces: seq<Piece>, tail: string)
    requires pieces != [] && Misread(current, pieces[0]) && EndsWord(tail) && AllPieces(pieces)
    requires current == should || Behind(current, should, lo)
    ensures Spoilt(Finish(ScanFrom(Scan(done, current, Bare, inWord, false), WritePieces(pieces) + tail)), |done|,
                   should + Text(pieces))
    decreases |pieces|, 0
  {
    var kept, t := current[..|current| - 1], Stands(pieces[0].marks);
    var lo' := if current == should || |kept| < lo then |kept| else lo;
    LosesDollar(current, should, lo);
    TextSplit(should, pieces);
    FirstPiece(pieces);
    OpensMisread(done, current, inWord, pieces, tail);
    hide Behind, ScanFrom, WritePieces, Marked, Spoilt, QuoteBody, Text, Finish, EndsWord, AllPieces, IsPiece, Stands;
    var more := WritePieces(pieces[1..]) + tail;
    var kept', j := Misreading(done, kept, should, lo', t);
    ScanAppend(Inside(done, kept, InAnsiC, true), QuoteBody(t) + "'", more);
    if j == 0 {
      StaysBehind(done, kept', should + t, lo', pieces[1..], tail);
    } else {
      var s := ScanFrom(Inside(done, kept, InAnsiC, true), QuoteBody(t) + "'");
      var w := should + t + Text(pieces[1..]);
      assert w[j - 1] == (should + t)[j - 1];
      MarkSpoils(s, more, |done|, j - 1, w);
    }
  }

  lemma LosesDollar(current: string, should: string, lo: nat)
    requires HasSuffixDollar(current) && (current == should || Behind(current, should, lo))
    ensures var kept := current[..|current| - 1];
            Behind(kept, should, if current == should || |kept| < lo then |kept| else lo)
  {
    var kept := current[..|current| - 1];
    if current == should {
      assert should[|kept|..] == ['$'];
    } else if |kept| < lo {
      assert should[..lo] == current && should[|kept|..] == ['$'] + should[lo..];
      assert kept == should[..lo][..|kept|];
    } else {
      assert kept[..lo] == current[..lo];
    }
  }

  lemma OpensMisread(done: seq<string>, current: string, inWord: bool, pieces: seq<Piece>,
                                         tail: string)
    requires pieces != [] && Misread(current, pieces[0]) && AllPieces(pieces)
    ensures ScanFrom(Scan(done, current, Bare, inWord, false), WritePieces(pieces) + tail) ==
            ScanFrom(Inside(done, current[..|current| - 1], InAnsiC, true),
                     QuoteBody(Stands(pieces[0].marks)) + "'" + (WritePieces(pieces[1..]) + tail))
  {
    FirstPiece(pieces);
    SinglePiece(pieces[0]);
    PiecesSplit(pieces, tail);
    hide AllPieces, IsPiece, WritePieces, WritePiece, ScanFrom, Stands, QuoteBody;
    var body := QuoteBody(Stands(pieces[0].marks)) + "'";
    var more := WritePieces(pieces[1..]) + tail;
    assert "'" + body + more == "'" + (body + more);
    ScanAppend(Scan(done, current, Bare, inWord, false), "'", body + more);
    ScanOpen(done, current, inWord, InSingle);
  }

  lemma SinglePiece(p: Piece)
    requires IsPiece(p) && p.style.InSingle?
    ensures WritePiece(p) == "'" + (QuoteBody(Stands(p.marks)) + "'")
  {
    SingleBody(p.marks);
    hide Written, Stands, QuoteBody;
  }

  lemma {:induction false} SingleBody(marks: seq<Mark>)
    requires forall m :: m in marks ==> IsMark(InSingle, m)
    ensures Written(marks) == QuoteBody(Stands(marks))
  {
    if marks != [] {
      assert marks[0] in marks;
      SingleBody(marks[1..]);
      assert Stands(marks)[0] == marks[0].stands[0] && Stands(marks)[1..] == Stands(marks[1..]);
    }
  }

  lemma {:induction false} UnsafeWord(done: seq<string>, current: string, inWord: bool, pieces: seq<Piece>,
                                     tail: string)
    requires !Safe(current, pieces) && EndsWord(tail) && AllPieces(pieces)
    ensures Spoilt(Finish(ScanFrom(Scan(done, current, Bare, inWord, false), WritePieces(pieces) + tail)), |done|,
                   current + Text(pieces))
    decreases |pieces|
  {
    if Misread(current, pieces[0]) {
      Restart(done, current, inWord, current, 0, pieces, tail);
    } else {
      PiecesSplit(pieces, tail);
      TextSplit(current, pieces);
      FirstPiece(pieces);
      hide ScanFrom, Misread, WritePiece, Spoilt, WritePieces, Text, EndsWord, AllPieces, IsPiece, Stands;
      var t, more := Stands(pieces[0].marks), WritePieces(pieces[1..]) + tail;
      ScanAppend(Scan(done, current, Bare, inWord, false), WritePiece(pieces[0]), more);
      ScanPiece(done, current, inWord, pieces[0]);
      UnsafeWord(done, current + t, inWord || Shows(pieces[0]), pieces[1..], tail);
    }
  }

  lemma {:induction false} UnsafeWords(done: seq<string>, words: seq<seq<Piece>>, gaps: seq<seq<GapItem>>)
    requires IsCommand(words, gaps) && !AllSafe(words)
    ensures Finish(ScanFrom(Idle(done), WriteWords(words, gaps))) != Ok(done + Texts(words))
    decreases words
  {
    RestIsCommand(words, gaps);
    TextsSplit(done, words);
    hide ScanFrom, WritePieces, Text, Finish, Safe, WriteWords, IsWord, IsGap, Separates;
    assert (done + Texts(words))[|done|] == Text(words[0]);
    if Safe("", words[0]) {
      assert !AllSafe(words[1..]);
      ScanWord(done, words, gaps);
      ScanRest(done, Text(words[0]), words[1..], gaps[1..]);
      UnsafeWords(done + [Text(words[0])], words[1..], gaps[1..]);
    } else {
      FirstWordSpoils(done, words, gaps);
    }
  }

  lemma FirstWordSpoils(done: seq<string>, words: seq<seq<Piece>>, gaps: seq<seq<GapItem>>)
    requires words != [] && IsCommand(words, gaps) && !Safe("", words[0])
    ensures Spoilt(Finish(ScanFrom(Idle(done), WriteWords(words, gaps))), |done|, Text(words[0]))
  {
    RestIsCommand(words, gaps);
    WordsSplit(words, gaps);
    assert AllPieces(words[0]);
    hide IsCommand, WritePieces, Text, Safe, WriteGap, IsGap, Separates, ScanFrom, WriteWords, Finish, Spoilt;
    hide AllPieces;
    var tail := WriteWords(words[1..], gaps[1..]);
    ScanAppend(Idle(done), WriteGap(gaps[0]), WritePieces(words[0]) + tail);
    ScanGap(Idle(done), gaps[0]);
    RestEndsWord(words[1..], gaps[1..]);
    hide EndsWord;
    UnsafeWord(done, "", false, words[0], tail);
    assert "" + Text(words[0]) == Text(words[0]);
  }

  // ---------- the results ----------

  /** Writing any words, in any pieces and styles and with any gaps, and splitting gives the words back if and only
      if no single-quoted piece begins where its word so far ends in a dollar sign. */
  lemma SplitUndoesQuoting(words: seq<seq<Piece>>, gaps: seq<seq<GapItem>>)
    requires IsCommand(words, gaps)
    ensures Split(WriteWords(words, gaps)) == Ok(Texts(words)) <==> AllSafe(words)
  {
    assert [] + Texts(words) == Texts(words) && START == Idle([]);
    hide IsCommand, Safe, WriteWords, Texts, ScanFrom, EndState;
    if AllSafe(words) {
      ScanWords([], words, gaps);
      EndFinishes([], words, gaps);
    } else {
      UnsafeWords([], words, gaps);
    }
  }

  /** A backslash at the very end is kept, as a part of the word that it follows or as one of its own. */
  lemma TrailingBackslash(words: seq<seq<Piece>>, gaps: seq<seq<GapItem>>)
    requires IsCommand(words, gaps) && AllSafe(words)
    ensures Split(WriteWords(words, gaps) + "\\") ==
            if words != [] && !Separates(gaps[|words|]) then
              Ok(Texts(words)[..|words| - 1] + [Texts(words)[|words| - 1] + "\\"])
            else Ok(Texts(words) + ["\\"])
  {
    assert |gaps| == |words| + 1;
    hide IsCommand, Safe, WriteWords, Texts, ScanFrom, Separates;
    var s := EndState([], words, gaps);
    assert START == Idle([]) && [] + Texts(words) == Texts(words);
    ScanWords([], words, gaps);
    ScanAppend(START, WriteWords(words, gaps), ['\\']);
    ScanOne(s, '\\');
    assert "" + "\\" == "\\";
    if words == [] {
      NoTexts(words);
      assert [] + ["\\"] == ["\\"];
    } else {
      assert [] + Texts(words)[..|words| - 1] == Texts(words)[..|words| - 1];
    }
  }

  lemma NoTexts(words: seq<seq<Piece>>)
    requires words == []
    ensures Texts(words) == []
  {
  }

  /** A quote that is opened behind a gap and not closed is an error. */
  lemma UnclosedQuote(words: seq<seq<Piece>>, gaps: seq<seq<GapItem>>, piece: Piece)
    requires IsCommand(words, gaps) && AllSafe(words) && Separates(gaps[|words|])
    requires IsPiece(piece) && !piece.style.Unquoted?
    ensures Split(WriteWords(words, gaps) + (Open(piece.style) + Written(piece.marks))) == Err(UnterminatedQuote)
  {
    assert |gaps| == |words| + 1;
    hide IsCommand, Safe, WriteWords, Texts, ScanFrom, Separates, IsMark, Written, Stands;
    var s := EndState([], words, gaps);
    assert START == Idle([]);
    ScanWords([], words, gaps);
    ScanAppend(START, WriteWords(words, gaps), Open(piece.style) + Written(piece.marks));
    ScanAppend(s, Open(piece.style), Written(piece.marks));
    ScanOpen(s.words, "", false, piece.style);
    ScanMarks(s.words, "", piece.style, true, piece.marks);
  }

  /** A text in single quotes. */
  function InQuotes(t: string): Piece {
    Piece(InSingle, seq(|t|, i requires 0 <= i < |t| => Mark([t[i]], if t[i] == '\'' then "'\\''" else [t[i]])))
  }

  /** The second quote closes behind the dollar sign, and the third takes it away. */
  lemma DollarTaken()
    ensures ScanFrom(START, ['\'', '$', '\'', '\'']) == Inside([], "", InAnsiC, true)
  {
    hide ScanFrom, DecodeAnsiCEscape;
    assert ['\'', '$', '\'', '\''] == ['\'', '$'] + ['\'', '\''];
    ScanAppend(START, ['\'', '$'], ['\'', '\'']);
    ScanTwo(START, '\'', '$');
    assert "" + ['$'] == "$" && "$"[..0] == "";
    ScanTwo(Inside([], "$", InSingle, true), '\'', '\'');
  }

  lemma DollarQuotes()
    ensures WritePieces([InQuotes("$"), InQuotes("a")]) == "'$''a'"
  {
    var pieces := [InQuotes("$"), InQuotes("a")];
    assert InQuotes("$").marks[1..] == [] && InQuotes("a").marks[1..] == [];
    assert Written(InQuotes("$").marks) == "$" && Written(InQuotes("a").marks) == "a";
    assert WritePieces(pieces[1..]) == "'a'" && WritePieces(pieces) == "'$''a'";
  }

  /** A quoted dollar sign before a single quote is lost: '$''a' is read as a. */
  lemma QuotedDollarIsLost()
    ensures WritePieces([InQuotes("$"), InQuotes("a")]) == "'$''a'"
    ensures Split("'$''a'") == Ok(["a"])
  {
    DollarQuotes();
    DollarTaken();
    hide WritePieces, ScanFrom;
    assert "'$''a'" == ['\'', '$', '\'', '\''] + ['a', '\''];
    ScanAppend(START, ['\'', '$', '\'', '\''], ['a', '\'']);
    ScanTwo(Inside([], "", InAnsiC, true), 'a', '\'');
    assert "" + ['a'] == "a" && [] + ["a"] == ["a"];
  }
}
