/** Translating one compound selector: the parser object with its moving position, and what it
    computes on the rest of its input. */
module CssSimple {
  import opened Wrappers
  import opened Text
  import opened CssLang
  import opened CssFront
  import opened XPathLiteral

  // ---------- on the rest of the input ----------

  /** The longest run of identifier characters, and what follows. */
  function TakeIdent(s: string): (r: (string, string))
    ensures |r.0| + |r.1| == |s|
  {
    if s != "" && IsIdentChar(s[0]) then
      var (name, rest) := TakeIdent(s[1..]);
      ([s[0]] + name, rest)
    else ("", s)
  }

  /** From inside brackets to the first closing bracket outside quotes. */
  function ReadBracket(s: string, quote: Option<char>): (r: Option<(string, string)>)
    ensures r.Some? ==> |r.value.0| + |r.value.1| + 1 == |s|
  {
    if s == "" then None
    else if quote.None? && s[0] == ']' then Some(("", s[1..]))
    else
      var quote' := if quote.Some? then if s[0] == quote.value then None else quote
                    else if IsQuote(s[0]) then Some(s[0]) else None;
      match ReadBracket(s[1..], quote')
      case None => None
      case Some((content, rest)) => Some(([s[0]] + content, rest))
  }

  /** trimCSSAttributeValue */
  function TrimValue(v: string): string {
    TrimSpace(TrimQuotes(TrimSpace(v)))
  }

  /** cssAttributePredicate */
  function AttributePredicate(content: string): Result<string, Error> {
    if content == "" then Err(EmptyAttribute)
    else
      var star := Index(content, "*=");
      var equal := Index(content, "=");
      if star >= 0 then
        var name, value := TrimSpace(content[..star]), TrimValue(content[star + 2..]);
        if name == "" || value == "" then Err(InvalidContains)
        else Ok("contains(@" + name + ", " + Literal(value) + ")")
      else if equal >= 0 then
        var name, value := TrimSpace(content[..equal]), TrimValue(content[equal + 1..]);
        if name == "" then Err(InvalidAttribute) else Ok("@" + name + "=" + Literal(value))
      else if TrimSpace(content) == "" then Err(EmptyAttribute)
      else Ok("@" + TrimSpace(content))
  }

  const NORMALIZED_CLASS := "normalize-space(@class)"

  function ClassPredicate(name: string): string {
    "contains(" + ("concat(' ', " + NORMALIZED_CLASS + ", ' ')") + ", " + Literal(" " + name + " ") + ")"
  }

  /** One predicate: its XPath text and the rest. */
  function ReadPredicate(s: string): (r: Result<(string, string), Error>)
    requires s != ""
    ensures r.Ok? ==> |r.value.1| < |s|
  {
    if s[0] == '.' then
      var (name, rest) := TakeIdent(s[1..]);
      if name == "" then Err(EmptyClass) else Ok((ClassPredicate(name), rest))
    else if s[0] == '#' then
      var (id, rest) := TakeIdent(s[1..]);
      if id == "" then Err(EmptyId) else Ok(("@id=" + Literal(id), rest))
    else if s[0] == '[' then
      match ReadBracket(s[1..], None)
      case None => Err(Unterminated)
      case Some((content, rest)) =>
        match AttributePredicate(TrimSpace(content))
        case Err(e) => Err(e)
        case Ok(p) => Ok((p, rest))
    else Err(Unsupported)
  }

  function ReadPredicates(s: string): Result<seq<string>, Error>
    decreases |s|
  {
    if s == "" then Ok([])
    else
      match ReadPredicate(s)
      case Err(e) => Err(e)
      case Ok((p, rest)) =>
        match ReadPredicates(rest)
        case Err(e) => Err(e)
        case Ok(ps) => Ok([p] + ps)
  }

  /** The tag at the beginning, with * for none, and the rest. */
  function ReadTag(s: string): (string, string) {
    if s != "" && IsIdentChar(s[0]) then (Lower(TakeIdent(s).0), TakeIdent(s).1)
    else if s != "" && s[0] == '*' then ("*", s[1..])
    else ("*", s)
  }

  /** cssSimpleSelectorToXPath */
  function SimpleToXPath(selector: string): Result<string, Error> {
    var (tag, rest) := ReadTag(selector);
    match ReadPredicates(rest)
    case Err(e) => Err(e)
    case Ok(ps) => Ok(if ps == [] then tag else tag + "[" + Join(ps, " and ") + "]")
  }

  // ---------- the parser object ----------

  class CssSimpleParser {
    const input: string
    var pos: nat

    ghost predicate Valid()
      reads this
    {
      pos <= |input|
    }

    /** What has not been read. */
    ghost function Rest(): string
      reads this
      requires Valid()
    {
      input[pos..]
    }

    constructor (input: string)
      ensures Valid() && this.input == input && Rest() == input
    {
      this.input, pos := input, 0;
    }

    method Done() returns (done: bool)
      requires Valid()
      ensures done <==> Rest() == ""
    {
      return pos >= |input|;
    }

    method ReadIdent() returns (name: string)
      requires Valid()
      modifies this
      ensures Valid() && (name, Rest()) == TakeIdent(old(Rest()))
    {
      var start := pos;
      NoText(TakeIdent(input[pos..]));
      assert input[start..pos] == "";
      while pos < |input| && IsIdentChar(input[pos])
        invariant start <= pos <= |input|
        invariant TakeIdent(input[start..]) == Before(input[start..pos], TakeIdent(input[pos..]))
      {
        assert input[pos..][1..] == input[pos + 1..];
        OneMore(input[start..pos], input[pos], TakeIdent(input[pos + 1..]));
        assert input[start..pos] + [input[pos]] == input[start..pos + 1];
        pos := pos + 1;
      }
      assert input[start..pos] + "" == input[start..pos];
      return input[start..pos];
    }

    /** The loop of readAttributePredicate: up to the closing bracket outside quotes. */
    method ReadBracketText() returns (content: Option<string>)
      requires Valid()
      modifies this
      ensures Valid()
      ensures content.None? <==> ReadBracket(old(Rest()), None).None?
      ensures content.Some? ==> ReadBracket(old(Rest()), None) == Some((content.value, Rest()))
    {
      var start := pos;
      var quote: Option<char> := None;
      PrependNone(ReadBracket(input[start..], None));
      assert input[start..start] == "";
      while pos < |input|
        invariant start <= pos <= |input|
        invariant ReadBracket(input[start..], None) == Prepend(input[start..pos], ReadBracket(input[pos..], quote))
      {
        var ch := input[pos];
        assert input[pos..][0] == ch && input[pos..][1..] == input[pos + 1..];
        if quote.None? && ch == ']' {
          assert input[start..pos] + "" == input[start..pos];
          pos := pos + 1;
          return Some(input[start..pos - 1]);
        }
        if quote.Some? {
          if ch == quote.value { quote := None; }
        } else if IsQuote(ch) {
          quote := Some(ch);
        }
        PrependOne(input[start..pos], ch, ReadBracket(input[pos + 1..], quote));
        assert input[start..pos] + [ch] == input[start..pos + 1];
        pos := pos + 1;
      }
      return None;
    }

    /** readAttributePredicate */
    method ReadAttributePredicate() returns (result: Result<string, Error>)
      requires Valid() && Rest() != "" && Rest()[0] == '['
      modifies this
      ensures Valid()
      ensures result.Ok? <==> ReadPredicate(old(Rest())).Ok?
      ensures result.Ok? ==> ReadPredicate(old(Rest())) == Ok((result.value, Rest()))
      ensures result.Err? ==> ReadPredicate(old(Rest())) == Err(result.error)
    {
      hide TrimSpace, AttributePredicate, ReadBracket;
      ghost var all := Rest();
      pos := pos + 1;
      assert Rest() == all[1..];
      var content := ReadBracketText();
      if content.None? { return Err(Unterminated); }
      return AttributePredicate(TrimSpace(content.value));
    }
  }

  /** Text read before the rest of an identifier. */
  function Before(text: string, r: (string, string)): (string, string) {
    (text + r.0, r.1)
  }

  lemma OneMore(text: string, c: char, r: (string, string))
    ensures Before(text, ([c] + r.0, r.1)) == Before(text + [c], r)
  {
    assert text + ([c] + r.0) == text + [c] + r.0;
  }

  lemma NoText(r: (string, string))
    ensures Before("", r) == r
  {
    assert "" + r.0 == r.0;
  }

  lemma PrependNone(r: Option<(string, string)>)
    ensures Prepend("", r) == r
  {
    if r.Some? { assert "" + r.value.0 == r.value.0; }
  }

  function Prepend(text: string, r: Option<(string, string)>): Option<(string, string)> {
    match r case None => None case Some((content, rest)) => Some((text + content, rest))
  }

  lemma PrependOne(text: string, c: char, r: Option<(string, string)>)
    ensures Prepend(text, Prepend([c], r)) == Prepend(text + [c], r)
  {
    if r.Some? { assert text + ([c] + r.value.0) == text + [c] + r.value.0; }
  }

  /** The tag at the beginning, or *. */
  method ReadTagText(parser: CssSimpleParser) returns (tag: string)
    requires parser.Valid()
    modifies parser
    ensures parser.Valid() && (tag, parser.Rest()) == ReadTag(old(parser.Rest()))
  {
    tag := "*";
    if parser.pos < |parser.input| && (IsIdentChar(parser.input[parser.pos]) || parser.input[parser.pos] == '*') {
      ghost var rest := parser.Rest();
      var value := parser.ReadIdent();
      assert value != "" ==> value[0] == rest[0] && IsIdentChar(rest[0]);
      if value == "" {
        value := [parser.input[parser.pos]];
        parser.pos := parser.pos + 1;
        assert parser.Rest() == rest[1..];
      }
      if value != "*" { tag := Lower(value); }
    }
  }

  /** One turn of the loop over predicates. */
  method ReadPredicateText(parser: CssSimpleParser) returns (result: Result<string, Error>)
    requires parser.Valid() && parser.Rest() != ""
    modifies parser
    ensures parser.Valid()
    ensures result.Ok? <==> ReadPredicate(old(parser.Rest())).Ok?
    ensures result.Ok? ==> ReadPredicate(old(parser.Rest())) == Ok((result.value, parser.Rest()))
    ensures result.Err? ==> ReadPredicate(old(parser.Rest())) == Err(result.error)
  {
    ghost var before := parser.Rest();
    var ch := parser.input[parser.pos];
    assert before[0] == ch;
    if ch == '.' {
      parser.pos := parser.pos + 1;
      assert parser.Rest() == before[1..];
      var name := parser.ReadIdent();
      return if name == "" then Err(EmptyClass) else Ok(ClassPredicate(name));
    } else if ch == '#' {
      parser.pos := parser.pos + 1;
      assert parser.Rest() == before[1..];
      var id := parser.ReadIdent();
      return if id == "" then Err(EmptyId) else Ok("@id=" + Literal(id));
    } else if ch == '[' {
      result := parser.ReadAttributePredicate();
    } else {
      return Err(Unsupported);
    }
  }

  /** cssSimpleSelectorToXPath, driving the parser object. */
  method CssSimpleSelectorToXPath(selector: string) returns (result: Result<string, Error>)
    ensures result == SimpleToXPath(selector)
  {
    var parser := new CssSimpleParser(selector);
    var tag := ReadTagText(parser);
    hide ReadTag, ReadPredicate, ReadPredicates, Join;
    ghost var rest := parser.Rest();
    var predicates: seq<string> := [];
    FollowNone(ReadPredicates(rest));
    var done := parser.Done();
    while !done
      invariant parser.Valid() && fresh(parser) && (done <==> parser.Rest() == "")
      invariant ReadPredicates(rest) == Follow(predicates, ReadPredicates(parser.Rest()))
      decreases |parser.Rest()|
    {
      var one := ReadPredicateText(parser);
      if one.Err? { return Err(one.error); }
      FollowOne(predicates, one.value, ReadPredicates(parser.Rest()));
      predicates := predicates + [one.value];
      done := parser.Done();
    }
    PredicatesEnd(predicates);
    if |predicates| == 0 { return Ok(tag); }
    return Ok(tag + "[" + Join(predicates, " and ") + "]");
  }

  lemma PredicatesEnd(ps: seq<string>)
    ensures Follow(ps, ReadPredicates("")) == Ok(ps)
  {
    assert ps + [] == ps;
  }

  lemma FollowNone(r: Result<seq<string>, Error>)
    ensures Follow([], r) == r
  {
    if r.Ok? { assert [] + r.value == r.value; }
  }

  /** Predicates read so far, then the rest. */
  function Follow(ps: seq<string>, r: Result<seq<string>, Error>): Result<seq<string>, Error> {
    match r case Err(e) => Err(e) case Ok(more) => Ok(ps + more)
  }

  lemma FollowOne(ps: seq<string>, p: string, r: Result<seq<string>, Error>)
    ensures Follow(ps, Follow([p], r)) == Follow(ps + [p], r)
  {
    if r.Ok? { assert ps + ([p] + r.value) == ps + [p] + r.value; }
  }
}
