/** Generated path selectors as text. */
module SelectorText {
  import opened Wrappers
  import opened Text
  import opened Dom
  import opened SelectorGen
  import I = CssIdentifier
  import L = XPathLiteral

  datatype Format = Css | XPath

  // ---------- the program ----------

  /** selectorTagPart, and selectorIDPart with the star that every id part has in the joined XPath. */
  function PartText(u: Unicode, format: Format, part: Part): string {
    match part
    case IdPart(id) => if format.Css? then "#" + I.Identifier(u, id) else "*[@id=" + L.Literal(id) + "]"
    case TagPart(tag, index) =>
      if index <= 1 then tag
      else if format.Css? then tag + ":nth-of-type(" + Decimal(index) + ")"
      else tag + "[" + Decimal(index) + "]"
  }

  function PartTexts(u: Unicode, format: Format, parts: seq<Part>): (r: seq<string>)
    ensures |r| == |parts|
  {
    if parts == [] then [] else [PartText(u, format, parts[0])] + PartTexts(u, format, parts[1..])
  }

  function PathText(u: Unicode, format: Format, parts: seq<Part>): string {
    if parts == [] then ""
    else if format.Css? then Join(PartTexts(u, format, parts), " > ")
    else "//" + Join(PartTexts(u, format, parts), "/")
  }

  /** generalSelector: nothing for a place that is no element. */
  function Generate(u: Unicode, root: Node, loc: Loc, format: Format, full: bool): string {
    if IsElement(root, loc) then PathText(u, format, Climb(u, root, loc, full).0) else ""
  }

  function Reversed(s: seq<string>): (r: seq<string>)
    ensures |r| == |s| && forall i :: 0 <= i < |s| ==> r[i] == s[|s| - 1 - i]
  {
    seq(|s|, i requires 0 <= i < |s| => s[|s| - 1 - i])
  }

  function Joined(format: Format, parts: seq<string>, startsAtId: bool): string {
    if parts == [] then ""
    else if format.Css? then Join(Reversed(parts), " > ")
    else if startsAtId then "//*" + Join(Reversed(parts), "/")
    else "//" + Join(Reversed(parts), "/")
  }

  /** joinSelectorParts, with the array it fills from the other end. */
  method JoinSelectorParts(format: Format, parts: seq<string>, startsAtId: bool) returns (r: string)
    ensures r == Joined(format, parts, startsAtId)
  {
    if |parts| == 0 { return ""; }
    var reversed := new string[|parts|];
    for i := 0 to |parts|
      invariant forall k :: 0 <= k < i ==> reversed[k] == parts[|parts| - 1 - k]
    {
      reversed[i] := parts[|parts| - 1 - i];
    }
    assert reversed[..] == Reversed(parts);
    if format.Css? { return Join(reversed[..], " > "); }
    if startsAtId { return "//*" + Join(reversed[..], "/"); }
    return "//" + Join(reversed[..], "/");
  }

  /** selectorIDPart */
  function IdPartText(u: Unicode, format: Format, full: bool, id: string): string {
    if format.Css? then "#" + I.Identifier(u, id)
    else if full then "*[@id=" + L.Literal(id) + "]"
    else "[@id=" + L.Literal(id) + "]"
  }

  /** selectorTagPart */
  method SelectorTagPart(u: Unicode, root: Node, loc: Loc, format: Format) returns (text: string)
    requires IsElement(root, loc)
    ensures text == PartText(u, format, TagPart(TagName(u, At(root, loc).value), NthIndex(u, root, loc)))
  {
    var tag := TagName(u, At(root, loc).value);
    var index := NthOfTypeIndex(u, root, loc);
    if index <= 1 { return tag; }
    if format.Css? { return tag + ":nth-of-type(" + Decimal(index) + ")"; }
    return tag + "[" + Decimal(index) + "]";
  }

  lemma IdText(u: Unicode, format: Format, id: string)
    ensures PartText(u, format, IdPart(id)) == IdPartText(u, format, true, id)
    ensures format.Css? ==> PartText(u, format, IdPart(id)) == IdPartText(u, format, false, id)
    ensures format.XPath? ==> PartText(u, format, IdPart(id)) == "*" + IdPartText(u, format, false, id)
  {
    hide I.Identifier, L.Literal;
    if format.XPath? {
      assert "*" + ("[@id=" + L.Literal(id) + "]") == "*[@id=" + L.Literal(id) + "]";
    }
  }

  /** generalSelector, with its climb from the element upwards. */
  method GeneralSelector(u: Unicode, root: Node, loc: Loc, format: Format, full: bool) returns (r: string)
    ensures r == Generate(u, root, loc, format, full)
  {
    if loc == [] || At(root, loc).None? || !At(root, loc).value.Element? { return ""; }
    hide IdPartText, NthIndex, TagName, Joined, PartText, PartTexts, PathText, Reversed, IsElement, Climb;
    var parts: seq<string> := [];
    var target := loc;
    ghost var low: seq<Part> := [];
    assert Climb(u, root, target, full).0 + low == Climb(u, root, loc, full).0;
    while |target| > 1
      invariant IsElement(root, target)
      invariant Climb(u, root, loc, full) == (Climb(u, root, target, full).0 + low, Climb(u, root, target, full).1)
      invariant parts == Reversed(PartTexts(u, format, low))
      decreases |target|
    {
      PrefixIsElement(root, target, |target| - 1);
      var parent := Parent(target);
      ghost var part := PartOf(u, root, target);
      ClimbTurn(u, root, loc, full, target, low);
      LowerPart(u, format, part, low);
      var n := At(root, target).value;
      if HasId(n) {
        var id := n.attrs["id"];
        IdText(u, format, id);
        parts := parts + [IdPartText(u, format, full, id)];
        if !full {
          StartAtId(u, format, id, low);
          r := JoinSelectorParts(format, parts, true);
          return;
        }
      } else {
        var text := SelectorTagPart(u, root, target, format);
        parts := parts + [text];
      }
      if TagName(u, At(root, parent).value) == "html" {
        JoinsToPath(u, format, [part] + low);
        r := JoinSelectorParts(format, parts, false);
        return;
      }
      low := [part] + low;
      target := parent;
    }
    assert Climb(u, root, loc, full).0 == low;
    JoinsToPath(u, format, low);
    r := JoinSelectorParts(format, parts, false);
  }

  /** One turn of the climb, with the parts below already collected. */
  lemma ClimbTurn(u: Unicode, root: Node, loc: Loc, full: bool, target: Loc, low: seq<Part>)
    requires IsElement(root, loc) && IsElement(root, target) && |target| > 1 && IsElement(root, Parent(target))
    requires Climb(u, root, loc, full) == (Climb(u, root, target, full).0 + low, Climb(u, root, target, full).1)
    ensures var part, parent := PartOf(u, root, target), Parent(target);
            if (HasId(At(root, target).value) && !full) || TagName(u, At(root, parent).value) == "html" then
              Climb(u, root, loc, full).0 == [part] + low
            else
              Climb(u, root, loc, full) ==
                (Climb(u, root, parent, full).0 + ([part] + low), Climb(u, root, parent, full).1)
  {
    hide IsElement, NthIndex, TagName, HasId, At;
    var part, above := PartOf(u, root, target), Climb(u, root, Parent(target), full).0;
    assert above + [part] + low == above + ([part] + low);
  }

  lemma LowerPart(u: Unicode, format: Format, part: Part, low: seq<Part>)
    ensures Reversed(PartTexts(u, format, [part] + low)) ==
            Reversed(PartTexts(u, format, low)) + [PartText(u, format, part)]
  {
    hide PartText;
    assert ([part] + low)[1..] == low;
  }

  lemma ReversedTwice(s: seq<string>)
    ensures Reversed(Reversed(s)) == s
  {
  }

  lemma JoinsToPath(u: Unicode, format: Format, parts: seq<Part>)
    ensures Joined(format, Reversed(PartTexts(u, format, parts)), false) == PathText(u, format, parts)
  {
    hide PartTexts, Join;
    ReversedTwice(PartTexts(u, format, parts));
  }

  /** The star of the short XPath form belongs to its first part. */
  lemma StartAtId(u: Unicode, format: Format, id: string, low: seq<Part>)
    ensures Joined(format, Reversed(PartTexts(u, format, low)) + [IdPartText(u, format, false, id)], true)
         == PathText(u, format, [IdPart(id)] + low)
  {
    hide PartText, IdPartText, Join;
    var texts := PartTexts(u, format, low);
    var first := IdPartText(u, format, false, id);
    IdText(u, format, id);
    assert Reversed(Reversed(texts) + [first]) == [first] + texts;
    assert ([IdPart(id)] + low)[1..] == low;
    if format.XPath? {
      JoinHead("*", first, texts);
      assert "//" + ("*" + Join([first] + texts, "/")) == "//*" + Join([first] + texts, "/");
    }
  }

  lemma JoinHead(head: string, first: string, rest: seq<string>)
    ensures Join([head + first] + rest, "/") == head + Join([first] + rest, "/")
  {
    assert ([head + first] + rest)[1..] == rest && ([first] + rest)[1..] == rest;
    if rest != [] {
      assert head + first + "/" + Join(rest, "/") == head + (first + "/" + Join(rest, "/"));
    }
  }
}
