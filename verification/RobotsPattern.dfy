/** How a robots path pattern becomes a regular expression, and that it means the same. */
module RobotsPattern {
  import opened Wrappers
  import opened Text

  // ---------- the program ----------

  /** The characters that regexp.QuoteMeta escapes. */
  predicate IsMeta(c: char) {
    || c == '\\' || c == '.' || c == '+' || c == '*' || c == '?' || c == '(' || c == ')' || c == '|'
    || c == '[' || c == ']' || c == '{' || c == '}' || c == '^' || c == '$'
  }

  /** regexp.QuoteMeta */
  function QuoteMeta(s: string): string {
    if s == "" then "" else (if IsMeta(s[0]) then ['\\', s[0]] else [s[0]]) + QuoteMeta(s[1..])
  }

  /** strings.ReplaceAll(s, `\*`, ".*"): left to right, without overlaps. */
  function ReplaceStars(s: string): string {
    if |s| >= 2 && s[0] == '\\' && s[1] == '*' then ".*" + ReplaceStars(s[2..])
    else if s == "" then ""
    else [s[0]] + ReplaceStars(s[1..])
  }

  /** strings.TrimSuffix(pattern, "$") */
  function TrimDollar(pattern: string): string {
    if HasSuffix(pattern, "$") then pattern[..|pattern| - 1] else pattern
  }

  /** The regular expression that robotsPatternMatches builds. */
  function Expression(pattern: string): string {
    "^" + ReplaceStars(QuoteMeta(TrimDollar(pattern))) + if HasSuffix(pattern, "$") then "$" else ""
  }

  predicate PatternMatches(pattern: string, path: string) {
    pattern != "" && MatchString(Expression(pattern), path)
  }

  // ---------- regular expressions ----------

  /** The part of the regular expression syntax that QuoteMeta and the replacement can produce:
      anchors, literal or escaped characters, and any run of characters other than newline. */
  datatype Token = Begin | End | Lit(c: char) | AnyRun

  function Parse(expr: string): Option<seq<Token>> {
    if expr == "" then Some([])
    else if expr[0] == '^' then Cons(Begin, Parse(expr[1..]))
    else if expr[0] == '$' then Cons(End, Parse(expr[1..]))
    else if expr[0] == '\\' then
      if |expr| >= 2 && IsMeta(expr[1]) then Cons(Lit(expr[1]), Parse(expr[2..])) else None
    else if expr[0] == '.' then
      if |expr| >= 2 && expr[1] == '*' then Cons(AnyRun, Parse(expr[2..])) else None
    else if IsMeta(expr[0]) then None
    else Cons(Lit(expr[0]), Parse(expr[1..]))
  }

  function Cons(t: Token, rest: Option<seq<Token>>): Option<seq<Token>> {
    if rest.Some? then Some([t] + rest.value) else None
  }

  /** `tokens` match some text of `s` that begins at `pos`. */
  predicate MatchAt(tokens: seq<Token>, s: string, pos: nat)
    requires pos <= |s|
    decreases |tokens|, |s| - pos
  {
    if tokens == [] then true
    else
      match tokens[0]
      case Begin => pos == 0 && MatchAt(tokens[1..], s, pos)
      case End => pos == |s| && MatchAt(tokens[1..], s, pos)
      case Lit(c) => pos < |s| && s[pos] == c && MatchAt(tokens[1..], s, pos + 1)
      case AnyRun =>
        MatchAt(tokens[1..], s, pos) || (pos < |s| && s[pos] != '\n' && MatchAt(tokens, s, pos + 1))
  }

  /** regexp.MatchString: some position starts a match; an expression that does not parse matches
      nothing. */
  predicate MatchString(expr: string, s: string) {
    Parse(expr).Some? && exists pos :: 0 <= pos <= |s| && MatchAt(Parse(expr).value, s, pos)
  }

  // ---------- what a pattern means ----------

  /** `s` is `pattern` with each * replaced by some text without a newline. */
  predicate Wild(pattern: string, s: string)
    decreases |pattern|, |s|
  {
    if pattern == "" then s == ""
    else if pattern[0] == '*' then
      Wild(pattern[1..], s) || (s != "" && s[0] != '\n' && Wild(pattern, s[1..]))
    else s != "" && s[0] == pattern[0] && Wild(pattern[1..], s[1..])
  }

  /** RFC 9309 section 2.2.3: a pattern ending in $ covers the whole path, any other one a prefix. */
  ghost predicate Covers(pattern: string, path: string) {
    pattern != "" &&
    if HasSuffix(pattern, "$") then Wild(TrimDollar(pattern), path)
    else exists k :: 0 <= k <= |path| && Wild(pattern, path[..k])
  }

  // ---------- the translation is correct ----------

  function Tokens(pattern: string): seq<Token> {
    if pattern == "" then []
    else [if pattern[0] == '*' then AnyRun else Lit(pattern[0])] + Tokens(pattern[1..])
  }

  function Escaped(c: char): string {
    if c == '*' then ".*" else if IsMeta(c) then ['\\', c] else [c]
  }

  lemma {:induction false} ReplaceAfterQuote(p: string)
    requires p != ""
    ensures ReplaceStars(QuoteMeta(p)) == Escaped(p[0]) + ReplaceStars(QuoteMeta(p[1..]))
  {
    var rest := QuoteMeta(p[1..]);
    var q := QuoteMeta(p);
    if p[0] == '*' {
      assert q[2..] == rest;
    } else if IsMeta(p[0]) {
      assert q[1..] == [p[0]] + rest && q[1..][1..] == rest;
      if p[0] == '\\' && rest != "" {
        QuoteNeverStartsWithStar(p[1..]);
      }
    } else {
      assert q[1..] == rest;
    }
  }

  /** A quoted text does not begin with a bare star, so a quoted backslash never completes one. */
  lemma QuoteNeverStartsWithStar(p: string)
    ensures QuoteMeta(p) != "" ==> QuoteMeta(p)[0] != '*'
  {
  }

  lemma ParseEscaped(c: char, rest: string)
    requires Parse(rest).Some?
    ensures Parse(Escaped(c) + rest) == Some([if c == '*' then AnyRun else Lit(c)] + Parse(rest).value)
  {
    var e := Escaped(c) + rest;
    assert e[|Escaped(c)|..] == rest;
  }

  /** Quoting and replacing gives an expression that parses to one token for each character. */
  lemma {:induction false} ParseBody(p: string, tail: string)
    requires Parse(tail).Some?
    ensures Parse(ReplaceStars(QuoteMeta(p)) + tail) == Some(Tokens(p) + Parse(tail).value)
  {
    hide Parse, ReplaceStars, QuoteMeta, Escaped;
    if p == "" {
      EmptyBody();
      assert "" + tail == tail;
      assert Tokens(p) + Parse(tail).value == Parse(tail).value;
    } else {
      ReplaceAfterQuote(p);
      ParseBody(p[1..], tail);
      var rest := ReplaceStars(QuoteMeta(p[1..])) + tail;
      ParseEscaped(p[0], rest);
      assert ReplaceStars(QuoteMeta(p)) + tail == Escaped(p[0]) + rest;
      assert Tokens(p) + Parse(tail).value == [Tokens(p)[0]] + (Tokens(p[1..]) + Parse(tail).value);
    }
  }

  lemma EmptyBody()
    ensures ReplaceStars(QuoteMeta("")) == ""
  {
  }

  lemma ExpressionParses(pattern: string)
    ensures Parse(Expression(pattern)) ==
            Some([Begin] + Tokens(TrimDollar(pattern)) + if HasSuffix(pattern, "$") then [End] else [])
  {
    hide Parse, ReplaceStars, QuoteMeta, Tokens, HasSuffix, TrimDollar;
    var p := TrimDollar(pattern);
    var tail := if HasSuffix(pattern, "$") then "$" else "";
    var last := if HasSuffix(pattern, "$") then [End] else [];
    ParseAnchor();
    ParseBody(p, tail);
    var body := ReplaceStars(QuoteMeta(p)) + tail;
    ParseBegin(body);
    assert Expression(pattern) == "^" + body;
    assert [Begin] + (Tokens(p) + last) == [Begin] + Tokens(p) + last;
  }

  lemma ParseBegin(body: string)
    requires Parse(body).Some?
    ensures Parse("^" + body) == Some([Begin] + Parse(body).value)
  {
    assert ("^" + body)[1..] == body;
  }

  lemma ParseAnchor()
    ensures Parse("") == Some([]) && Parse("$") == Some([End])
  {
    assert "$"[1..] == "" && Parse("") == Some([]);
    assert Parse("$") == Cons(End, Parse(""));
    assert [End] + [] == [End];
  }

  ghost predicate WildFrom(p: string, s: string, pos: nat) {
    exists k :: pos <= k <= |s| && Wild(p, s[pos..k])
  }

  /** From `pos` the tokens of `p` match the text up to exactly some `k`. */
  lemma {:induction false} TokensPrefix(p: string, s: string, pos: nat)
    requires pos <= |s|
    ensures MatchAt(Tokens(p), s, pos) <==> WildFrom(p, s, pos)
    decreases |p|, |s| - pos
  {
    if p == "" {
      assert s[pos..pos] == "";
    } else {
      assert Tokens(p)[1..] == Tokens(p[1..]);
      if p[0] == '*' {
        TokensPrefix(p[1..], s, pos);
        if pos < |s| { TokensPrefix(p, s, pos + 1); }
        StarPrefix(p, s, pos);
      } else {
        if pos < |s| { TokensPrefix(p[1..], s, pos + 1); }
        LitPrefix(p, s, pos);
      }
    }
  }

  lemma StarPrefix(p: string, s: string, pos: nat)
    requires p != "" && p[0] == '*' && pos <= |s|
    ensures WildFrom(p, s, pos) <==>
            WildFrom(p[1..], s, pos) || (pos < |s| && s[pos] != '\n' && WildFrom(p, s, pos + 1))
  {
    forall k | pos < k <= |s| ensures s[pos..k] != "" && s[pos..k][0] == s[pos] && s[pos..k][1..] == s[pos + 1..k] {}
    if k :| pos <= k <= |s| && Wild(p, s[pos..k]) {
      assert Wild(p[1..], s[pos..k]) || (pos < k && s[pos] != '\n' && Wild(p, s[pos + 1..k]));
    }
    if k :| pos <= k <= |s| && Wild(p[1..], s[pos..k]) {
      assert Wild(p, s[pos..k]);
    }
    if pos < |s| && s[pos] != '\n' {
      if WildFrom(p, s, pos + 1) {
        var next := pos + 1;
        var k :| next <= k <= |s| && Wild(p, s[next..k]);
        assert Wild(p, s[pos..k]);
      }
    }
  }

  lemma LitPrefix(p: string, s: string, pos: nat)
    requires p != "" && p[0] != '*' && pos <= |s|
    ensures WildFrom(p, s, pos) <==> pos < |s| && s[pos] == p[0] && WildFrom(p[1..], s, pos + 1)
  {
    forall k | pos < k <= |s| ensures s[pos..k] != "" && s[pos..k][0] == s[pos] && s[pos..k][1..] == s[pos + 1..k] {}
    if k :| pos <= k <= |s| && Wild(p, s[pos..k]) {
      assert Wild(p[1..], s[pos + 1..k]);
    }
    if pos < |s| && s[pos] == p[0] {
      if WildFrom(p[1..], s, pos + 1) {
        var next := pos + 1;
        var k :| next <= k <= |s| && Wild(p[1..], s[next..k]);
        assert Wild(p, s[pos..k]);
      }
    }
  }

  /** With an end anchor the tokens of `p` match the whole rest of the text. */
  lemma {:induction false} TokensWhole(p: string, s: string, pos: nat)
    requires pos <= |s|
    ensures MatchAt(Tokens(p) + [End], s, pos) <==> Wild(p, s[pos..])
    decreases |p|, |s| - pos
  {
    var tokens := Tokens(p) + [End];
    if p == "" {
      assert tokens == [End];
      assert MatchAt([], s, pos);
    } else {
      assert tokens[1..] == Tokens(p[1..]) + [End];
      if pos < |s| {
        assert s[pos..][1..] == s[pos + 1..];
        TokensWhole(if p[0] == '*' then p else p[1..], s, pos + 1);
      }
      if p[0] == '*' { TokensWhole(p[1..], s, pos); }
    }
  }

  /** For every pattern and path: the expression matches exactly when the pattern covers the path. */
  lemma TranslationIsCorrect(pattern: string, path: string)
    ensures PatternMatches(pattern, path) <==> Covers(pattern, path)
  {
    ExpressionParses(pattern);
    var p := TrimDollar(pattern);
    var body := Tokens(p) + if HasSuffix(pattern, "$") then [End] else [];
    var tokens := [Begin] + body;
    assert Parse(Expression(pattern)).value == tokens;
    assert tokens[1..] == body;
    assert MatchAt(tokens, path, 0) <==> MatchAt(body, path, 0);
    assert (exists pos :: 0 <= pos <= |path| && MatchAt(tokens, path, pos)) <==> MatchAt(body, path, 0);
    if HasSuffix(pattern, "$") {
      TokensWhole(p, path, 0);
      assert path[0..] == path;
    } else {
      assert body == Tokens(p);
      TokensPrefix(p, path, 0);
      forall k | 0 <= k <= |path| ensures path[0..k] == path[..k] {}
    }
  }

  /** On a path without newlines a star really stands for any text. */
  lemma {:induction false} StarIsAnything(pattern: string, s: string)
    requires '\n' !in s && pattern != "" && pattern[0] == '*'
    ensures Wild(pattern, s) <==> exists k :: 0 <= k <= |s| && Wild(pattern[1..], s[k..])
    decreases |s|
  {
    if s == "" {
      assert s[0..] == s;
    } else {
      StarIsAnything(pattern, s[1..]);
      assert Wild(pattern, s) <==> Wild(pattern[1..], s) || Wild(pattern, s[1..]);
      hide Wild;
      assert s[0..] == s;
      if k :| 0 <= k <= |s| && Wild(pattern[1..], s[k..]) {
        if k > 0 { assert s[k..] == s[1..][k - 1..]; }
      }
      if k :| 0 <= k <= |s[1..]| && Wild(pattern[1..], s[1..][k..]) {
        assert s[k + 1..] == s[1..][k..];
      }
    }
  }
}
