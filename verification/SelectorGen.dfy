/** Path selectors for an element, and which elements a path selects. */
module SelectorGen {
  import opened Wrappers
  import opened Text
  import opened Dom

  /** One part of a path.  An index of 1 is not written. */
  datatype Part = IdPart(id: string) | TagPart(tag: string, index: nat)

  // ---------- the program ----------

  /** nodeTagName */
  function TagName(u: Unicode, n: Node): string {
    if n.Element? then ToLower(u, n.tag) else ""
  }

  predicate Named(u: Unicode, n: Node, name: string) {
    n.Element? && TagName(u, n) == name
  }

  function CountNamed(u: Unicode, nodes: seq<Node>, name: string): nat {
    if nodes == [] then 0
    else CountNamed(u, nodes[..|nodes| - 1], name) + if Named(u, nodes[|nodes| - 1], name) then 1 else 0
  }

  function Siblings(root: Node, loc: Loc): (nodes: seq<Node>)
    requires IsElement(root, loc)
    ensures Last(loc) < |nodes| && nodes[Last(loc)] == At(root, loc).value
  {
    ParentExists(root, loc);
    At(root, Parent(loc)).value.children
  }

  function Last(loc: Loc): nat
    requires loc != []
  {
    loc[|loc| - 1]
  }

  /** nthOfTypeIndex: elements of the same name up to and with this one. */
  function NthIndex(u: Unicode, root: Node, loc: Loc): nat
    requires IsElement(root, loc)
  {
    CountNamed(u, Siblings(root, loc)[..Last(loc) + 1], TagName(u, At(root, loc).value))
  }

  /** nthOfTypeIndex, with its walk over the siblings. */
  method NthOfTypeIndex(u: Unicode, root: Node, loc: Loc) returns (index: nat)
    ensures index == if IsElement(root, loc) then NthIndex(u, root, loc) else 0
  {
    index := 0;
    if loc == [] || At(root, loc).None? || !At(root, loc).value.Element? { return; }
    var siblings, name := Siblings(root, loc), TagName(u, At(root, loc).value);
    for sibling := 0 to |siblings|
      invariant sibling <= Last(loc)
      invariant index == CountNamed(u, siblings[..sibling], name)
    {
      assert siblings[..sibling + 1][..sibling] == siblings[..sibling];
      if !Named(u, siblings[sibling], name) { continue; }
      index := index + 1;
      if sibling == Last(loc) { return; }
    }
  }

  function PartOf(u: Unicode, root: Node, loc: Loc): Part
    requires IsElement(root, loc)
  {
    var n := At(root, loc).value;
    if HasId(n) then IdPart(n.attrs["id"]) else TagPart(TagName(u, n), NthIndex(u, root, loc))
  }

  predicate HasId(n: Node) {
    n.Element? && "id" in n.attrs && n.attrs["id"] != ""
  }

  lemma PrefixIsElement(root: Node, loc: Loc, k: nat)
    requires IsElement(root, loc) && 0 < k <= |loc|
    ensures IsElement(root, loc[..k])
  {
    assert loc == loc[..k] + loc[k..];
    assert k == |loc| ==> loc[..k] == loc;
    AtPrefix(root, loc[..k], loc[k..]);
  }

  /** The climb of generalSelector: the parts from the top down, and whether it ended at an id. */
  function Climb(u: Unicode, root: Node, loc: Loc, full: bool): (r: (seq<Part>, bool))
    requires IsElement(root, loc)
    ensures |r.0| < |loc| && (|loc| > 1 ==> r.0 != [])
    ensures r.1 ==> !full && r.0 != [] && r.0[0].IdPart?
    decreases |loc|
  {
    if |loc| == 1 then ([], false)
    else
      PrefixIsElement(root, loc, |loc| - 1);
      var part := PartOf(u, root, loc);
      if part.IdPart? && !full then ([part], true)
      else if TagName(u, At(root, Parent(loc)).value) == "html" then ([part], false)
      else
        var (above, atId) := Climb(u, root, Parent(loc), full);
        (above + [part], atId)
  }

  // ---------- which elements a part fits ----------

  /** The siblings before this one with the same element name. */
  ghost function SameBefore(siblings: seq<Node>, i: nat, tag: string): set<nat>
    requires i <= |siblings|
  {
    set j: nat | j < i && siblings[j].Element? && siblings[j].tag == tag
  }

  /** CSS: an id selector, or a type selector with :nth-of-type; Selectors Level 3, sections 6.1, 6.5 and
      6.6.5.4. */
  ghost predicate Fits(root: Node, part: Part, loc: Loc) {
    IsElement(root, loc) &&
    var n := At(root, loc).value;
    match part
    case IdPart(id) => "id" in n.attrs && n.attrs["id"] == id
    case TagPart(tag, index) =>
      n.tag == tag && (index > 1 ==> |SameBefore(Siblings(root, loc), Last(loc), tag)| == index - 1)
  }

  /** Parts joined by child combinators, read from the right. */
  ghost predicate CssFits(root: Node, parts: seq<Part>, loc: Loc)
    decreases |parts|
  {
    && parts != [] && Fits(root, parts[|parts| - 1], loc)
    && (|parts| > 1 ==> CssFits(root, parts[..|parts| - 1], Parent(loc)))
  }

  /** The children with a tag, in document order. */
  function Tagged(children: seq<Node>, tag: string): (places: seq<nat>)
    ensures |places| <= |children|
  {
    if children == [] then []
    else
      var last := |children| - 1;
      Tagged(children[..last], tag) + if children[last].Element? && children[last].tag == tag then [last] else []
  }

  /** XPath: whether a child step from the parent takes this element.  A number in brackets keeps the child
      at that position among the children with the tag; XPath 1.0 section 2.4. */
  predicate Picks(root: Node, part: Part, loc: Loc)
    requires IsElement(root, loc)
  {
    var n := At(root, loc).value;
    match part
    case IdPart(id) => "id" in n.attrs && n.attrs["id"] == id
    case TagPart(tag, index) =>
      if index <= 1 then n.tag == tag
      else
        var places := Tagged(Siblings(root, loc), tag);
        index <= |places| && places[index - 1] == Last(loc)
  }

  ghost function TakeStep(root: Node, from: iset<Loc>, part: Part): iset<Loc> {
    iset loc: Loc | IsElement(root, loc) && Parent(loc) in from && Picks(root, part, loc)
  }

  ghost function TakeSteps(root: Node, from: iset<Loc>, parts: seq<Part>): iset<Loc> {
    if parts == [] then from else TakeSteps(root, TakeStep(root, from, parts[0]), parts[1..])
  }

  /** //part/part...: the steps start from every node of the document. */
  ghost predicate XPathFits(root: Node, parts: seq<Part>, loc: Loc) {
    loc in TakeSteps(root, (iset p: Loc | At(root, p).Some?), parts)
  }

  // ---------- the two languages agree ----------

  lemma {:induction false} TaggedAt(children: seq<Node>, tag: string, k: nat, i: nat)
    ensures k < |Tagged(children, tag)| && Tagged(children, tag)[k] == i <==>
            i < |children| && children[i].Element? && children[i].tag == tag && |SameBefore(children, i, tag)| == k
    decreases |children|
  {
    if children != [] {
      var last := |children| - 1;
      var init := children[..last];
      TaggedAt(init, tag, k, i);
      TaggedCount(children, tag);
      if i < last {
        assert SameBefore(init, i, tag) == SameBefore(children, i, tag);
      } else if i == last {
        TaggedCount(init, tag);
        assert SameBefore(init, last, tag) == SameBefore(children, last, tag);
      }
    }
  }

  lemma {:induction false} TaggedCount(children: seq<Node>, tag: string)
    ensures |Tagged(children, tag)| == |SameBefore(children, |children|, tag)|
    ensures forall k :: 0 <= k < |Tagged(children, tag)| ==> Tagged(children, tag)[k] < |children|
  {
    if children != [] {
      var last := |children| - 1;
      var init := children[..last];
      TaggedCount(init, tag);
      var before := SameBefore(init, last, tag);
      assert last !in before;
      if children[last].Element? && children[last].tag == tag {
        assert SameBefore(children, |children|, tag) == before + {last};
      } else {
        assert SameBefore(children, |children|, tag) == before;
      }
    }
  }

  lemma StepAgrees(root: Node, from: iset<Loc>, part: Part, loc: Loc)
    ensures loc in TakeStep(root, from, part) <==> Fits(root, part, loc) && Parent(loc) in from
  {
    if IsElement(root, loc) && part.TagPart? && part.index > 1 {
      TaggedAt(Siblings(root, loc), part.tag, part.index - 1, Last(loc));
    }
  }

  lemma {:induction false} StepsSnoc(root: Node, from: iset<Loc>, parts: seq<Part>, part: Part)
    ensures TakeSteps(root, from, parts + [part]) == TakeStep(root, TakeSteps(root, from, parts), part)
    decreases |parts|
  {
    hide TakeStep;
    if parts == [] {
      assert parts + [part] == [part] && [part][1..] == [];
    } else {
      assert (parts + [part])[1..] == parts[1..] + [part];
      StepsSnoc(root, TakeStep(root, from, parts[0]), parts[1..], part);
    }
  }

  /** The XPath form of a path selects exactly what its CSS form selects. */
  lemma {:induction false} FormsAgree(root: Node, parts: seq<Part>, loc: Loc)
    requires parts != []
    ensures XPathFits(root, parts, loc) <==> CssFits(root, parts, loc)
    decreases |parts|
  {
    var everywhere := iset p: Loc | At(root, p).Some?;
    var init, part := parts[..|parts| - 1], parts[|parts| - 1];
    assert parts == init + [part];
    StepsSnoc(root, everywhere, init, part);
    StepAgrees(root, TakeSteps(root, everywhere, init), part, loc);
    if IsElement(root, loc) {
      ParentExists(root, loc);
      if |parts| > 1 { FormsAgree(root, init, Parent(loc)); }
    }
  }

  // ---------- a generated path selects its element ----------

  /** The place that part `i` of a path of `n` parts was made for. */
  function Stop(loc: Loc, n: nat, i: nat): Loc
    requires i < n <= |loc|
  {
    loc[..|loc| - n + 1 + i]
  }

  lemma {:induction false} ClimbParts(u: Unicode, root: Node, loc: Loc, full: bool, i: nat)
    requires IsElement(root, loc) && i < |Climb(u, root, loc, full).0|
    ensures var n := |Climb(u, root, loc, full).0|;
            IsElement(root, Stop(loc, n, i)) && Climb(u, root, loc, full).0[i] == PartOf(u, root, Stop(loc, n, i))
    decreases |loc|
  {
    hide PartOf;
    var parts := Climb(u, root, loc, full).0;
    if i == |parts| - 1 {
      assert Stop(loc, |parts|, i) == loc;
    } else {
      PrefixIsElement(root, loc, |loc| - 1);
      ClimbParts(u, root, Parent(loc), full, i);
      assert Stop(Parent(loc), |parts| - 1, i) == Stop(loc, |parts|, i);
    }
  }

  /** How far the climb goes: in the short form to the nearest element with an id, and otherwise to below the
      html element, or to below the topmost element. */
  lemma {:induction false} ClimbExtent(u: Unicode, root: Node, loc: Loc, full: bool, i: nat)
    requires IsElement(root, loc) && i < |Climb(u, root, loc, full).0|
    ensures var (parts, atId) := Climb(u, root, loc, full);
            var stop := Stop(loc, |parts|, i);
            && IsElement(root, stop) && |stop| > 1 && IsElement(root, Parent(stop))
            && var anchor := !full && HasId(At(root, stop).value);
               var top := TagName(u, At(root, Parent(stop)).value) == "html" || |stop| == 2;
               (i > 0 ==> !anchor && TagName(u, At(root, Parent(stop)).value) != "html" && |stop| > 2) &&
               (i == 0 ==> (anchor || top) && (anchor <==> atId))
    decreases |loc|
  {
    hide NthIndex, TagName, IsElement, HasId;
    var (parts, _) := Climb(u, root, loc, full);
    PrefixIsElement(root, loc, |loc| - 1);
    if i == |parts| - 1 {
      assert Stop(loc, |parts|, i) == loc;
    } else {
      ClimbExtent(u, root, Parent(loc), full, i);
      assert Stop(Parent(loc), |parts| - 1, i) == Stop(loc, |parts|, i);
    }
  }

  /** A chain holds when every part fits its own ancestor. */
  lemma {:induction false} FitsByStops(root: Node, parts: seq<Part>, loc: Loc)
    requires parts != []
    ensures CssFits(root, parts, loc) <==>
            |parts| <= |loc| && forall i :: 0 <= i < |parts| ==> Fits(root, parts[i], Stop(loc, |parts|, i))
    decreases |parts|
  {
    hide Fits;
    var n := |parts|;
    if n <= |loc| { assert Stop(loc, n, n - 1) == loc; }
    if n > 1 && loc != [] {
      var init := parts[..n - 1];
      FitsByStops(root, init, Parent(loc));
      if n <= |loc| {
        forall i | 0 <= i < n - 1 ensures Stop(loc, n, i) == Stop(Parent(loc), n - 1, i) {}
        assert forall i :: 0 <= i < n - 1 ==> init[i] == parts[i];
      }
    }
    NoFitAtTop(root, parts[n - 1], loc);
  }

  lemma NoFitAtTop(root: Node, part: Part, loc: Loc)
    ensures Fits(root, part, loc) ==> loc != []
  {
  }

  /** The tag of this element is written in the generated path as it stands in the document, and so are
      those of the siblings that were counted. */
  predicate Spelled(u: Unicode, root: Node, loc: Loc)
    requires IsElement(root, loc)
  {
    var n := At(root, loc).value;
    HasId(n) ||
    (ToLower(u, n.tag) == n.tag &&
     forall j :: 0 <= j < Last(loc) ==> Named(u, Siblings(root, loc)[j], n.tag) ==> Siblings(root, loc)[j].tag == n.tag)
  }

  ghost function NamedBefore(u: Unicode, siblings: seq<Node>, i: nat, name: string): set<nat>
    requires i <= |siblings|
  {
    set j: nat | j < i && Named(u, siblings[j], name)
  }

  lemma {:induction false} CountIsSize(u: Unicode, siblings: seq<Node>, i: nat, name: string)
    requires i <= |siblings|
    ensures CountNamed(u, siblings[..i], name) == |NamedBefore(u, siblings, i, name)|
  {
    hide Named;
    if i > 0 {
      CountIsSize(u, siblings, i - 1, name);
      assert siblings[..i][..i - 1] == siblings[..i - 1];
      var before := NamedBefore(u, siblings, i - 1, name);
      if Named(u, siblings[i - 1], name) {
        assert NamedBefore(u, siblings, i, name) == before + {i - 1};
      } else {
        assert NamedBefore(u, siblings, i, name) == before;
      }
    }
  }

  /** The index counts the element itself and those of its name before it. */
  lemma IndexIsSize(u: Unicode, root: Node, loc: Loc)
    requires IsElement(root, loc)
    ensures NthIndex(u, root, loc) ==
            |NamedBefore(u, Siblings(root, loc), Last(loc), TagName(u, At(root, loc).value))| + 1
  {
    var siblings, i, name := Siblings(root, loc), Last(loc), TagName(u, At(root, loc).value);
    CountIsSize(u, siblings, i, name);
    assert siblings[..i + 1][..i] == siblings[..i];
  }

  lemma SubsetSize(a: set<nat>, b: set<nat>)
    requires a <= b
    ensures |a| <= |b| && (|a| == |b| ==> a == b)
  {
    assert b == a + (b - a);
  }

  /** The siblings of the same tag are among those of the same name; they are all of them when none is
      spelled otherwise. */
  lemma CountsAgree(u: Unicode, siblings: seq<Node>, i: nat, tag: string)
    requires i <= |siblings| && ToLower(u, tag) == tag
    ensures |SameBefore(siblings, i, tag)| == |NamedBefore(u, siblings, i, tag)| <==>
            forall j :: 0 <= j < i ==> Named(u, siblings[j], tag) ==> siblings[j].tag == tag
  {
    hide ToLower;
    var same, named := SameBefore(siblings, i, tag), NamedBefore(u, siblings, i, tag);
    forall j: nat ensures j in same ==> j in named {}
    SubsetSize(same, named);
    if j: nat :| j < i && Named(u, siblings[j], tag) && siblings[j].tag != tag {
      assert j in named && j !in same;
    } else {
      forall j: nat ensures j in named ==> j in same {}
      assert named <= same;
    }
  }

  lemma NoneNamed(u: Unicode, siblings: seq<Node>, i: nat, name: string)
    requires i <= |siblings| && |NamedBefore(u, siblings, i, name)| == 0
    ensures forall j :: 0 <= j < i ==> !Named(u, siblings[j], name)
  {
    forall j | 0 <= j < i ensures !Named(u, siblings[j], name) {
      assert j !in NamedBefore(u, siblings, i, name);
    }
  }

  /** A part fits the element that it was made for exactly when that element is spelled so. */
  lemma OwnPartFits(u: Unicode, root: Node, loc: Loc)
    requires IsElement(root, loc)
    ensures Fits(root, PartOf(u, root, loc), loc) <==> Spelled(u, root, loc)
  {
    hide Siblings, Named, NthIndex, SameBefore, NamedBefore;
    var n := At(root, loc).value;
    if !HasId(n) && ToLower(u, n.tag) == n.tag {
      IndexIsSize(u, root, loc);
      CountsAgree(u, Siblings(root, loc), Last(loc), n.tag);
      if NthIndex(u, root, loc) == 1 { NoneNamed(u, Siblings(root, loc), Last(loc), n.tag); }
    }
  }

  /** The generated path of an element selects it, exactly when the elements on the way are spelled in lower
      case. */
  lemma OwnPathFits(u: Unicode, root: Node, loc: Loc, full: bool)
    requires IsElement(root, loc) && |loc| > 1
    ensures var parts := Climb(u, root, loc, full).0;
            CssFits(root, parts, loc) <==>
            forall i :: 0 <= i < |parts| ==>
              IsElement(root, Stop(loc, |parts|, i)) && Spelled(u, root, Stop(loc, |parts|, i))
  {
    hide Fits, PartOf, Spelled;
    var parts := Climb(u, root, loc, full).0;
    FitsByStops(root, parts, loc);
    forall i | 0 <= i < |parts|
      ensures IsElement(root, Stop(loc, |parts|, i))
      ensures Fits(root, parts[i], Stop(loc, |parts|, i)) <==> Spelled(u, root, Stop(loc, |parts|, i))
    {
      ClimbParts(u, root, loc, full, i);
      OwnPartFits(u, root, Stop(loc, |parts|, i));
    }
  }
}
