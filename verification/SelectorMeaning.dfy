/** What a generated text selects. */
module SelectorMeaning {
  import opened Wrappers
  import opened Text
  import opened Dom
  import opened SelectorGen
  import opened SelectorOrder
  import opened SelectorReading
  import opened SelectorText
  import I = CssIdentifier
  import X = XPathLang

  /** What a selector text selects, by the rules of its language. */
  ghost predicate Selects(root: Node, format: Format, text: string, loc: Loc) {
    match ReadPath(format, text)
    case None => false
    case Some(parts) => if format.Css? then CssFits(root, parts, loc) else XPathFits(root, parts, loc)
  }

  /** The names on the way are tag names of HTML, as in every parsed document. */
  ghost predicate HtmlTags(u: Unicode, root: Node, loc: Loc) {
    forall k :: 0 < k <= |loc| ==> IsElement(root, loc[..k]) ==> IsHtmlTag(TagName(u, At(root, loc[..k]).value))
  }

  /** An element of a parsed document below the topmost one. */
  ghost predicate IsPlace(u: Unicode, root: Node, loc: Loc) {
    I.AsciiTables(u) && IsElement(root, loc) && |loc| > 1 && HtmlTags(u, root, loc)
  }

  /** The elements on the way are spelled in lower case, and so are the siblings that were counted. */
  ghost predicate SpelledOnTheWay(u: Unicode, root: Node, loc: Loc, full: bool)
    requires IsElement(root, loc)
  {
    var n := |Climb(u, root, loc, full).0|;
    forall i :: 0 <= i < n ==> IsElement(root, Stop(loc, n, i)) && Spelled(u, root, Stop(loc, n, i))
  }

  /** What stands for this element in a path can be written in the language: its id, or else its tag as a name
      without escapes. */
  predicate CanWrite(u: Unicode, format: Format, n: Node)
    requires n.Element?
  {
    if HasId(n) then CanWriteId(format, n.attrs["id"]) else IsNameIn(format, TagName(u, n))
  }

  ghost predicate WritableOnTheWay(u: Unicode, root: Node, loc: Loc, format: Format, full: bool)
    requires IsElement(root, loc)
  {
    var n := |Climb(u, root, loc, full).0|;
    forall i :: 0 <= i < n ==> IsElement(root, Stop(loc, n, i)) && CanWrite(u, format, At(root, Stop(loc, n, i)).value)
  }

  // ---------- the element itself ----------

  lemma ClimbIsMade(u: Unicode, root: Node, loc: Loc, full: bool)
    requires IsPlace(u, root, loc)
    ensures AreMade(Climb(u, root, loc, full).0)
  {
    hide I.AsciiTables, Climb, NthIndex, TagName, IsHtmlTag;
    var parts := Climb(u, root, loc, full).0;
    forall p | p in parts ensures IsMade(p) {
      var i :| 0 <= i < |parts| && parts[i] == p;
      ClimbParts(u, root, loc, full, i);
      IndexIsSize(u, root, Stop(loc, |parts|, i));
    }
  }

  lemma WritableReadsBack(u: Unicode, root: Node, loc: Loc, format: Format, full: bool)
    requires IsElement(root, loc)
    ensures AllReadBack(format, Climb(u, root, loc, full).0) <==> WritableOnTheWay(u, root, loc, format, full)
  {
    hide Climb, NthIndex, TagName, CanWriteId, IsNameIn;
    var parts := Climb(u, root, loc, full).0;
    forall i | 0 <= i < |parts|
      ensures IsElement(root, Stop(loc, |parts|, i))
      ensures ReadsBack(format, parts[i]) <==> CanWrite(u, format, At(root, Stop(loc, |parts|, i)).value)
    {
      ClimbParts(u, root, loc, full, i);
    }
    assert AllReadBack(format, parts) <==> forall i :: 0 <= i < |parts| ==> ReadsBack(format, parts[i]);
  }

  /** Where it can be written, the text selects what its path fits. */
  lemma TextMeansPath(u: Unicode, root: Node, loc: Loc, format: Format, full: bool, other: Loc)
    requires IsPlace(u, root, loc) && WritableOnTheWay(u, root, loc, format, full)
    ensures Selects(root, format, Generate(u, root, loc, format, full), other) <==>
            CssFits(root, Climb(u, root, loc, full).0, other)
  {
    ClimbIsMade(u, root, loc, full);
    WritableReadsBack(u, root, loc, format, full);
    hide I.AsciiTables, AreMade, AllReadBack, ReadAs, ReadPath, PathText, CssFits, XPathFits, Climb, IsElement,
      HtmlTags;
    var parts := Climb(u, root, loc, full).0;
    PathReads(u, format, parts);
    FormsAgree(root, parts, other);
  }

  /** A part that misses does not fit the element. */
  lemma MissNoFit(u: Unicode, root: Node, loc: Loc, p: Part)
    requires IsElement(root, loc)
    ensures Misses(p, PartOf(u, root, loc)) ==> !Fits(root, p, loc)
  {
    hide NthIndex, SameBefore, Siblings;
  }

  /** A path that is read with a part that misses does not select the element. */
  lemma MissedPart(u: Unicode, root: Node, loc: Loc, format: Format, full: bool, read: seq<Part>)
    requires IsElement(root, loc) && |loc| > 1 && ReadAs(format, read, Climb(u, root, loc, full).0)
    requires !AllReadBack(format, Climb(u, root, loc, full).0)
    ensures !CssFits(root, read, loc)
  {
    hide Climb, CssFits, Fits, PartOf, ReadsBack, Misses, IsElement;
    var parts := Climb(u, root, loc, full).0;
    var p :| p in parts && !ReadsBack(format, p);
    var i :| 0 <= i < |parts| && parts[i] == p;
    assert Resembles(format, read[i], parts[i]);
    ClimbParts(u, root, loc, full, i);
    MissNoFit(u, root, Stop(loc, |parts|, i), read[i]);
    FitsByStops(root, read, loc);
  }

  lemma UnwritableMisses(u: Unicode, root: Node, loc: Loc, format: Format, full: bool)
    requires IsPlace(u, root, loc) && !WritableOnTheWay(u, root, loc, format, full)
    ensures !Selects(root, format, Generate(u, root, loc, format, full), loc)
  {
    ClimbIsMade(u, root, loc, full);
    WritableReadsBack(u, root, loc, format, full);
    hide I.AsciiTables, AreMade, AllReadBack, ReadAs, ReadPath, PathText, CssFits, XPathFits, Climb, IsElement,
      HtmlTags;
    var parts := Climb(u, root, loc, full).0;
    PathReads(u, format, parts);
    var read := ReadPath(format, PathText(u, format, parts));
    if read.Some? {
      MissedPart(u, root, loc, format, full, read.value);
      assert |read.value| == |parts| by { SameLength(format, read.value, parts); }
      FormsAgree(root, read.value, loc);
    }
  }

  lemma SameLength(format: Format, read: seq<Part>, parts: seq<Part>)
    requires ReadAs(format, read, parts)
    ensures |read| == |parts|
  {
  }

  /** A generated selector selects its own element, if and only if the tags on the way are lower-case, and they
      and the ids can be written in its language. */
  lemma SelectsItsElement(u: Unicode, root: Node, loc: Loc, format: Format, full: bool)
    requires IsPlace(u, root, loc)
    ensures Selects(root, format, Generate(u, root, loc, format, full), loc) <==>
            SpelledOnTheWay(u, root, loc, full) && WritableOnTheWay(u, root, loc, format, full)
  {
    hide I.AsciiTables, CssFits, Selects, Climb, Generate, Spelled, HtmlTags, CanWrite, WritableOnTheWay;
    OwnPathFits(u, root, loc, full);
    if WritableOnTheWay(u, root, loc, format, full) {
      TextMeansPath(u, root, loc, format, full, loc);
    } else {
      UnwritableMisses(u, root, loc, format, full);
    }
  }

  /** The topmost element gets an empty text, which selects nothing. */
  lemma TopmostHasNoSelector(u: Unicode, root: Node, loc: Loc, format: Format, full: bool, other: Loc)
    requires IsElement(root, loc) && |loc| == 1
    ensures Generate(u, root, loc, format, full) == "" &&
            !Selects(root, format, Generate(u, root, loc, format, full), other)
  {
    hide IsElement, CssFits, XPathFits;
    assert Climb(u, root, loc, full).0 == [];
    if format.Css? { assert ReadCssPart("").None?; } else { X.SkipsNot("", "//", 0); }
  }

  /** The short form of an element with an id selects it, in XPath always, in CSS if and only if the id can be
      written. */
  lemma OwnIdIsEnough(u: Unicode, root: Node, loc: Loc, format: Format)
    requires IsPlace(u, root, loc) && HasId(At(root, loc).value)
    ensures Selects(root, format, Generate(u, root, loc, format, false), loc) <==>
            CanWriteId(format, At(root, loc).value.attrs["id"])
  {
    hide I.AsciiTables, Selects, Generate, HtmlTags, CanWriteId;
    SelectsItsElement(u, root, loc, format, false);
    assert |Climb(u, root, loc, false).0| == 1 && Stop(loc, 1, 0) == loc;
  }

  // ---------- tags and ids that are not found again ----------

  /** An element without an id whose tag has a colon is never found again; one with a dot not in CSS. */
  lemma OddTagIsLost(u: Unicode, root: Node, loc: Loc, format: Format, full: bool)
    requires IsPlace(u, root, loc) && !HasId(At(root, loc).value)
    requires ':' in TagName(u, At(root, loc).value) || (format.Css? && '.' in TagName(u, At(root, loc).value))
    ensures !Selects(root, format, Generate(u, root, loc, format, full), loc)
  {
    hide I.AsciiTables, Selects, Generate, Climb, HtmlTags;
    SelectsItsElement(u, root, loc, format, full);
    var n := |Climb(u, root, loc, full).0|;
    assert Stop(loc, n, n - 1) == loc;
    OddName(format, TagName(u, At(root, loc).value));
  }

  lemma OddName(format: Format, tag: string)
    requires ':' in tag || (format.Css? && '.' in tag)
    ensures !IsNameIn(format, tag)
  {
    CssNameIsIdents(tag);
    hide I.TakeName;
  }

  lemma CssNameIsIdents(tag: string)
    ensures IsNameIn(Css, tag) ==> forall c :: c in tag ==> I.IsIdent(c)
  {
    hide I.TakeName;
    I.NameLength(tag);
  }

  /** A document exported by an office program. */
  const OFFICE: Node := Element("", map[], [HTML])
  const HTML: Node := Element("html", map[], [BODY])
  const BODY: Node := Element("body", map[], [Element("o:p", map[], []), Element("p", map["id" := "-5"], [])])

  /** Only capitals and characters beyond ASCII have another lower-case form. */
  ghost predicate LowersCapitals(u: Unicode) {
    forall c :: c in u.lower ==> 'A' <= c <= 'Z' || c >= 0x80 as char
  }

  lemma StaysLower(u: Unicode, tag: string)
    requires LowersCapitals(u) && IsHtmlTag(tag) && forall c :: c in tag ==> c < 0x80 as char && !('A' <= c <= 'Z')
    ensures ToLower(u, tag) == tag
  {
    assert forall i :: 0 <= i < |tag| ==> tag[i] in tag;
  }

  lemma OfficePlace(u: Unicode, i: nat)
    requires I.AsciiTables(u) && LowersCapitals(u) && i < 2
    ensures At(OFFICE, [0, 0, i]) == Some(BODY.children[i]) && IsPlace(u, OFFICE, [0, 0, i])
    ensures TagName(u, BODY.children[i]) == BODY.children[i].tag
  {
    hide I.AsciiTables, LowersCapitals;
    var loc: Loc := [0, 0, i];
    assert loc[1..] == [0, i] && [0, i][1..] == [i] && [i][1..] == [];
    assert At(HTML, [0, i]) == At(BODY, [i]) == Some(BODY.children[i]);
    forall k | 0 < k <= 3
      ensures At(OFFICE, loc[..k]).Some? && At(OFFICE, loc[..k]).value in {HTML, BODY, BODY.children[i]}
    {
      if k == 1 {
        assert loc[..1] == [0] && [0][1..] == [];
      } else if k == 2 {
        assert loc[..2] == [0, 0] && [0, 0][1..] == [0] && [0][1..] == [];
      } else {
        assert loc[..3] == loc;
      }
    }
    StaysLower(u, "html");
    StaysLower(u, "body");
    StaysLower(u, "o:p");
    StaysLower(u, "p");
  }

  /** Its first element is found by neither form; the second, with id -5, by the short XPath only. */
  lemma OfficeDocument(u: Unicode, full: bool)
    requires I.AsciiTables(u) && LowersCapitals(u)
    ensures IsPlace(u, OFFICE, [0, 0, 0]) && IsPlace(u, OFFICE, [0, 0, 1])
    ensures forall format :: !Selects(OFFICE, format, Generate(u, OFFICE, [0, 0, 0], format, full), [0, 0, 0])
    ensures !Selects(OFFICE, Css, Generate(u, OFFICE, [0, 0, 1], Css, false), [0, 0, 1])
    ensures Selects(OFFICE, XPath, Generate(u, OFFICE, [0, 0, 1], XPath, false), [0, 0, 1])
  {
    OfficePlace(u, 0);
    OfficePlace(u, 1);
    hide I.AsciiTables, Selects, Generate, IsPlace, At, LowersCapitals, TagName;
    forall format ensures !Selects(OFFICE, format, Generate(u, OFFICE, [0, 0, 0], format, full), [0, 0, 0]) {
      assert "o:p"[1] == ':';
      OddTagIsLost(u, OFFICE, [0, 0, 0], format, full);
    }
    OwnIdIsEnough(u, OFFICE, [0, 0, 1], Css);
    OwnIdIsEnough(u, OFFICE, [0, 0, 1], XPath);
  }

  // ---------- other elements ----------

  /** A text that selects its element selects what its path fits. */
  lemma OwnTextMeansPath(u: Unicode, root: Node, loc: Loc, format: Format, full: bool, other: Loc)
    requires IsPlace(u, root, loc) && Selects(root, format, Generate(u, root, loc, format, full), loc)
    ensures Selects(root, format, Generate(u, root, loc, format, full), other) <==>
            CssFits(root, Climb(u, root, loc, full).0, other)
  {
    hide IsPlace, Selects, CssFits, Generate, Climb, WritableOnTheWay, SpelledOnTheWay;
    SelectsItsElement(u, root, loc, format, full);
    TextMeansPath(u, root, loc, format, full, other);
  }

  /** With unique ids and a top part that fits one element, the element comes first in the document among
      all that its selector selects. */
  lemma SelectsItFirst(u: Unicode, root: Node, loc: Loc, format: Format, full: bool, other: Loc)
    requires IsPlace(u, root, loc) && Anchored(u, root, loc, full)
    requires Selects(root, format, Generate(u, root, loc, format, full), loc)
    requires Selects(root, format, Generate(u, root, loc, format, full), other)
    ensures other == loc || Before(loc, other)
    ensures NoTwins(u, root, loc, full) ==> other == loc
  {
    hide I.AsciiTables, CssFits, Selects, Climb, IsElement, Generate, Anchored, NoTwins, Before, HtmlTags;
    OwnTextMeansPath(u, root, loc, format, full, loc);
    OwnTextMeansPath(u, root, loc, format, full, other);
    ElementIsFirst(u, root, loc, full, other);
    if NoTwins(u, root, loc, full) { ElementIsOnly(u, root, loc, full, other); }
  }

  /** Then the text selects exactly the element and what lies behind twins, siblings of the tag beside a step
      that is written without an index. */
  lemma SelectsItAndTwins(u: Unicode, root: Node, loc: Loc, format: Format, full: bool, other: Loc)
    requires IsPlace(u, root, loc) && Anchored(u, root, loc, full)
    requires Selects(root, format, Generate(u, root, loc, format, full), loc)
    ensures Selects(root, format, Generate(u, root, loc, format, full), other) <==>
            other == loc || exists i :: TwinLeads(u, root, loc, full, i, other)
  {
    hide I.AsciiTables, CssFits, Selects, Climb, IsElement, Generate, Anchored, HtmlTags, TwinLeads;
    OwnTextMeansPath(u, root, loc, format, full, loc);
    OwnTextMeansPath(u, root, loc, format, full, other);
    OtherMatches(u, root, loc, full, other);
  }

  /** A unique selector is not promised: the first of several siblings of a tag shares its text with them,
      on every document. */
  lemma NotAlwaysUnique(u: Unicode, root: Node, loc: Loc, format: Format, full: bool)
    requires IsPlace(u, root, loc) && HasTwin(u, root, loc)
    requires Selects(root, format, Generate(u, root, loc, format, full), loc)
    ensures exists other: Loc :: other != loc && Selects(root, format, Generate(u, root, loc, format, full), other)
  {
    hide I.AsciiTables, CssFits, Selects, Climb, IsElement, Generate, HasTwin, HtmlTags;
    OwnTextMeansPath(u, root, loc, format, full, loc);
    TwinMatchesToo(u, root, loc, full);
    var other: Loc :| other != loc && CssFits(root, Climb(u, root, loc, full).0, other);
    OwnTextMeansPath(u, root, loc, format, full, other);
  }
}
