/** The matches of a generated path. */
module SelectorOrder {
  import opened Text
  import opened Dom
  import opened SelectorGen

  /** Document order: an ancestor comes before what is below it, an earlier sibling before a later one. */
  predicate Before(a: Loc, b: Loc) {
    || (|a| < |b| && b[..|a|] == a)
    || (exists j: nat :: j < |a| && j < |b| && a[..j] == b[..j] && a[j] < b[j])
  }

  ghost predicate UniqueIds(root: Node) {
    forall a: Loc, b: Loc ::
      (IsElement(root, a) && IsElement(root, b) && HasId(At(root, a).value) && HasId(At(root, b).value) &&
       At(root, a).value.attrs["id"] == At(root, b).value.attrs["id"]) ==> a == b
  }

  /** At most one element of the document fits this part. */
  ghost predicate FitsOnce(root: Node, part: Part) {
    forall a: Loc, b: Loc :: Fits(root, part, a) && Fits(root, part, b) ==> a == b
  }

  /** An element whose part is written without an index, and that has a sibling of the same tag. */
  predicate HasTwin(u: Unicode, root: Node, loc: Loc)
    requires IsElement(root, loc)
  {
    && !HasId(At(root, loc).value) && NthIndex(u, root, loc) <= 1
    && exists j :: 0 <= j < |Siblings(root, loc)| && j != Last(loc) &&
                   Siblings(root, loc)[j].Element? && Siblings(root, loc)[j].tag == At(root, loc).value.tag
  }

  // ---------- one level ----------

  /** Of two siblings of a tag, the later one has more of them before it. */
  lemma MoreBefore(siblings: seq<Node>, i: nat, j: nat, tag: string)
    requires i < j < |siblings| && siblings[i].Element? && siblings[i].tag == tag
    ensures |SameBefore(siblings, i, tag)| < |SameBefore(siblings, j, tag)|
  {
    SubsetSize(SameBefore(siblings, i, tag), SameBefore(siblings, j, tag));
    assert i in SameBefore(siblings, j, tag) && i !in SameBefore(siblings, i, tag);
  }

  lemma SameCountSamePlace(siblings: seq<Node>, i: nat, j: nat, tag: string)
    requires i < |siblings| && siblings[i].Element? && siblings[i].tag == tag
    requires j < |siblings| && siblings[j].Element? && siblings[j].tag == tag
    requires |SameBefore(siblings, i, tag)| == |SameBefore(siblings, j, tag)|
    ensures i == j
  {
    hide SameBefore;
    if i < j {
      MoreBefore(siblings, i, j, tag);
    } else if j < i {
      MoreBefore(siblings, j, i, tag);
    }
  }

  /** Without an index the element is the first of its tag. */
  lemma UnindexedIsFirst(u: Unicode, root: Node, loc: Loc, j: nat)
    requires IsElement(root, loc) && NthIndex(u, root, loc) <= 1
    requires j < |Siblings(root, loc)|
    requires Siblings(root, loc)[j].Element? && Siblings(root, loc)[j].tag == At(root, loc).value.tag
    ensures Last(loc) <= j
  {
    hide Siblings, NthIndex, NamedBefore;
    IndexIsSize(u, root, loc);
    NoneNamed(u, Siblings(root, loc), Last(loc), TagName(u, At(root, loc).value));
  }

  lemma SameParentSameSiblings(root: Node, a: Loc, b: Loc)
    requires IsElement(root, a) && IsElement(root, b) && Parent(a) == Parent(b)
    ensures Siblings(root, a) == Siblings(root, b)
    ensures Last(a) == Last(b) ==> a == b
  {
    assert a == Parent(a) + [Last(a)] && b == Parent(b) + [Last(b)];
  }

  /** Among siblings, no other element that fits the part comes before the one it was made for; and
      without a twin there is no other. */
  lemma FirstAmongSiblings(u: Unicode, root: Node, own: Loc, other: Loc)
    requires UniqueIds(root) && IsElement(root, own) && Spelled(u, root, own)
    requires Fits(root, PartOf(u, root, own), other) && Parent(own) == Parent(other)
    ensures Last(own) <= Last(other)
    ensures !HasTwin(u, root, own) ==> own == other
  {
    hide UniqueIds, Siblings, NthIndex, SameBefore;
    var n := At(root, own).value;
    if HasId(n) {
      IdIsPinned(u, root, own, other);
    } else {
      SameParentSameSiblings(root, own, other);
      if NthIndex(u, root, own) <= 1 {
        UnindexedIsFirst(u, root, own, Last(other));
      } else {
        OwnPartFits(u, root, own);
        SameCountSamePlace(Siblings(root, own), Last(own), Last(other), n.tag);
      }
    }
  }

  lemma IdIsPinned(u: Unicode, root: Node, own: Loc, other: Loc)
    requires UniqueIds(root) && IsElement(root, own) && PartOf(u, root, own).IdPart?
    requires Fits(root, PartOf(u, root, own), other)
    ensures own == other
  {
  }

  // ---------- the whole path ----------

  /** What a path assumes of its document: ids are unique, and its top part fits one element. */
  ghost predicate Anchored(u: Unicode, root: Node, loc: Loc, full: bool)
    requires IsElement(root, loc) && |loc| > 1
  {
    UniqueIds(root) && FitsOnce(root, Climb(u, root, loc, full).0[0])
  }

  /** A short path that ended at an id is anchored as soon as ids are unique. */
  lemma IdAnchors(u: Unicode, root: Node, loc: Loc)
    requires IsElement(root, loc) && |loc| > 1 && Climb(u, root, loc, false).1 && UniqueIds(root)
    ensures Anchored(u, root, loc, false)
  {
    hide UniqueIds, PartOf;
    var parts := Climb(u, root, loc, false).0;
    ClimbParts(u, root, loc, false, 0);
    forall a: Loc, b: Loc | Fits(root, parts[0], a) && Fits(root, parts[0], b) ensures a == b {
      IdIsPinned(u, root, Stop(loc, |parts|, 0), a);
      IdIsPinned(u, root, Stop(loc, |parts|, 0), b);
    }
  }

  /** The place of a match at the level of part `i`, beside that of the element itself. */
  lemma {:induction false} LevelByLevel(u: Unicode, root: Node, loc: Loc, full: bool, other: Loc, i: nat)
    requires IsElement(root, loc) && |loc| > 1 && Anchored(u, root, loc, full)
    requires CssFits(root, Climb(u, root, loc, full).0, loc) && CssFits(root, Climb(u, root, loc, full).0, other)
    requires i < |Climb(u, root, loc, full).0|
    ensures |other| == |loc|
    ensures var n := |Climb(u, root, loc, full).0|;
            Stop(loc, n, i) == Stop(other, n, i) || Before(Stop(loc, n, i), Stop(other, n, i))
  {
    hide CssFits, Fits, Before, PartOf, UniqueIds;
    var parts := Climb(u, root, loc, full).0;
    var n := |parts|;
    FitsByStops(root, parts, loc);
    FitsByStops(root, parts, other);
    assert Stop(loc, n, 0) == Stop(other, n, 0) by {
      assert Fits(root, parts[0], Stop(loc, n, 0)) && Fits(root, parts[0], Stop(other, n, 0));
    }
    assert |loc| - n + 1 == |other| - n + 1;
    if i > 0 {
      LevelByLevel(u, root, loc, full, other, i - 1);
      var own, its := Stop(loc, n, i), Stop(other, n, i);
      assert Parent(own) == Stop(loc, n, i - 1) && Parent(its) == Stop(other, n, i - 1);
      if Parent(own) == Parent(its) {
        OneLevel(u, root, loc, full, i, its);
        SiblingOrder(own, its);
      } else {
        BelowOrder(own, its);
      }
    }
  }

  /** Part `i` of a path, against an element at its level below the same parent. */
  lemma OneLevel(u: Unicode, root: Node, loc: Loc, full: bool, i: nat, its: Loc)
    requires IsElement(root, loc) && |loc| > 1 && UniqueIds(root)
    requires i < |Climb(u, root, loc, full).0| && CssFits(root, Climb(u, root, loc, full).0, loc)
    requires var n := |Climb(u, root, loc, full).0|;
             Fits(root, Climb(u, root, loc, full).0[i], its) && Parent(its) == Parent(Stop(loc, n, i))
    ensures var own := Stop(loc, |Climb(u, root, loc, full).0|, i);
            && IsElement(root, own) && IsElement(root, its) && Last(own) <= Last(its)
            && (!HasTwin(u, root, own) ==> own == its)
  {
    hide UniqueIds, PartOf, CssFits, HasTwin, Spelled;
    var parts := Climb(u, root, loc, full).0;
    ClimbParts(u, root, loc, full, i);
    FitsByStops(root, parts, loc);
    OwnPartFits(u, root, Stop(loc, |parts|, i));
    FirstAmongSiblings(u, root, Stop(loc, |parts|, i), its);
  }

  lemma SiblingOrder(a: Loc, b: Loc)
    requires a != [] && b != [] && |a| == |b| && Parent(a) == Parent(b) && Last(a) <= Last(b)
    ensures a == b || Before(a, b)
  {
    var j := |a| - 1;
    assert a == a[..j] + [a[j]] && b == b[..j] + [b[j]];
  }

  lemma BelowOrder(a: Loc, b: Loc)
    requires a != [] && b != [] && |a| == |b| && Before(Parent(a), Parent(b))
    ensures Before(a, b)
  {
    var p, q := Parent(a), Parent(b);
    assert |p| == |q|;
    var j: nat :| j < |p| && j < |q| && p[..j] == q[..j] && p[j] < q[j];
    assert a[..j] == p[..j] && b[..j] == q[..j];
  }

  /** When ids are unique and the top part fits one element, the element comes before every other match. */
  lemma ElementIsFirst(u: Unicode, root: Node, loc: Loc, full: bool, other: Loc)
    requires IsElement(root, loc) && |loc| > 1 && Anchored(u, root, loc, full)
    requires CssFits(root, Climb(u, root, loc, full).0, loc) && CssFits(root, Climb(u, root, loc, full).0, other)
    ensures other == loc || Before(loc, other)
  {
    hide CssFits, Before, Anchored;
    var n := |Climb(u, root, loc, full).0|;
    LevelByLevel(u, root, loc, full, other, n - 1);
    assert Stop(loc, n, n - 1) == loc && Stop(other, n, n - 1) == other;
  }

  /** No element on the way that is written without an index has a sibling of its tag. */
  ghost predicate NoTwins(u: Unicode, root: Node, loc: Loc, full: bool)
    requires IsElement(root, loc)
  {
    var n := |Climb(u, root, loc, full).0|;
    forall i :: 0 < i < n ==> IsElement(root, Stop(loc, n, i)) ==> !HasTwin(u, root, Stop(loc, n, i))
  }

  lemma {:induction false} SameAtEveryLevel(u: Unicode, root: Node, loc: Loc, full: bool, other: Loc, i: nat)
    requires IsElement(root, loc) && |loc| > 1 && Anchored(u, root, loc, full) && NoTwins(u, root, loc, full)
    requires CssFits(root, Climb(u, root, loc, full).0, loc) && CssFits(root, Climb(u, root, loc, full).0, other)
    requires i < |Climb(u, root, loc, full).0|
    ensures var n := |Climb(u, root, loc, full).0|; |other| == |loc| && Stop(loc, n, i) == Stop(other, n, i)
  {
    hide CssFits, Fits, Before, PartOf, UniqueIds, HasTwin;
    var parts := Climb(u, root, loc, full).0;
    var n := |parts|;
    FitsByStops(root, parts, loc);
    FitsByStops(root, parts, other);
    LevelByLevel(u, root, loc, full, other, i);
    if i == 0 {
      assert Fits(root, parts[0], Stop(loc, n, 0)) && Fits(root, parts[0], Stop(other, n, 0));
    } else {
      SameAtEveryLevel(u, root, loc, full, other, i - 1);
      var own, its := Stop(loc, n, i), Stop(other, n, i);
      assert Parent(own) == Stop(loc, n, i - 1) && Parent(its) == Stop(other, n, i - 1);
      OneLevel(u, root, loc, full, i, its);
    }
  }

  /** The only match, when moreover no unindexed step has a sibling of its tag. */
  lemma ElementIsOnly(u: Unicode, root: Node, loc: Loc, full: bool, other: Loc)
    requires IsElement(root, loc) && |loc| > 1 && Anchored(u, root, loc, full) && NoTwins(u, root, loc, full)
    requires CssFits(root, Climb(u, root, loc, full).0, loc) && CssFits(root, Climb(u, root, loc, full).0, other)
    ensures other == loc
  {
    hide CssFits, Before, Anchored, NoTwins;
    var n := |Climb(u, root, loc, full).0|;
    SameAtEveryLevel(u, root, loc, full, other, n - 1);
    assert Stop(loc, n, n - 1) == loc && Stop(other, n, n - 1) == other;
  }

  /** A twin of the element itself is a second match: uniqueness alone is not promised. */
  lemma TwinMatchesToo(u: Unicode, root: Node, loc: Loc, full: bool)
    requires IsElement(root, loc) && |loc| > 1 && HasTwin(u, root, loc)
    requires CssFits(root, Climb(u, root, loc, full).0, loc)
    ensures exists other: Loc :: other != loc && CssFits(root, Climb(u, root, loc, full).0, other)
  {
    var parts := Climb(u, root, loc, full).0;
    var siblings := Siblings(root, loc);
    var j :| 0 <= j < |siblings| && j != Last(loc) && siblings[j].Element? &&
      siblings[j].tag == At(root, loc).value.tag;
    var other := Parent(loc) + [j];
    ParentExists(root, loc);
    AtAppend(root, Parent(loc), [j]);
    assert [j][1..] == [];
    assert At(root, other).value == siblings[j];
    ClimbParts(u, root, loc, full, |parts| - 1);
    assert Stop(loc, |parts|, |parts| - 1) == loc;
    assert Fits(root, parts[|parts| - 1], other);
    assert Parent(other) == Parent(loc);
    assert CssFits(root, parts, other);
  }

  // ---------- every other match ----------

  /** `other` leaves the element's own way at part `i`, which is unindexed, for a sibling of the tag, and fits
      the parts below. */
  ghost predicate TwinLeads(u: Unicode, root: Node, loc: Loc, full: bool, i: nat, other: Loc)
    requires IsElement(root, loc)
  {
    var parts := Climb(u, root, loc, full).0;
    var n := |parts|;
    && 0 < i < n && |other| == |loc|
    && IsTwin(u, root, Stop(loc, n, i), Stop(other, n, i))
    && forall j :: i < j < n ==> Fits(root, parts[j], Stop(other, n, j))
  }

  /** A sibling of the tag, beside an element whose part is written without an index. */
  predicate IsTwin(u: Unicode, root: Node, own: Loc, its: Loc) {
    && IsElement(root, own) && IsElement(root, its) && Parent(own) == Parent(its) && own != its
    && !HasId(At(root, own).value) && NthIndex(u, root, own) <= 1
    && At(root, its).value.tag == At(root, own).value.tag
  }

  /** The only way to match beside the element, below the same parent, is to be its twin. */
  lemma OnlyTwinsFit(u: Unicode, root: Node, own: Loc, its: Loc)
    requires UniqueIds(root) && IsElement(root, own) && Spelled(u, root, own)
    requires Fits(root, PartOf(u, root, own), its) && Parent(own) == Parent(its) && own != its
    ensures IsTwin(u, root, own, its)
  {
    hide UniqueIds, Siblings, NthIndex, SameBefore;
    if HasId(At(root, own).value) {
      IdIsPinned(u, root, own, its);
    } else {
      SameParentSameSiblings(root, own, its);
      if NthIndex(u, root, own) > 1 {
        OwnPartFits(u, root, own);
        SameCountSamePlace(Siblings(root, own), Last(own), Last(its), At(root, own).value.tag);
      }
    }
  }

  lemma TwinFits(u: Unicode, root: Node, own: Loc, its: Loc)
    requires IsTwin(u, root, own, its) && Fits(root, PartOf(u, root, own), own)
    ensures Fits(root, PartOf(u, root, own), its)
  {
    hide NthIndex, SameBefore;
  }

  /** Two ways that meet at the top part and end apart, part somewhere. */
  lemma {:induction false} WaysPart(a: Loc, b: Loc, n: nat, i: nat) returns (k: nat)
    requires i < n <= |a| == |b| && Stop(a, n, 0) == Stop(b, n, 0) && Stop(a, n, i) != Stop(b, n, i)
    ensures 0 < k <= i && Parent(Stop(a, n, k)) == Parent(Stop(b, n, k)) && Stop(a, n, k) != Stop(b, n, k)
  {
    if Stop(a, n, i - 1) == Stop(b, n, i - 1) {
      k := i;
      assert Parent(Stop(a, n, i)) == Stop(a, n, i - 1) && Parent(Stop(b, n, i)) == Stop(b, n, i - 1);
    } else {
      k := WaysPart(a, b, n, i - 1);
    }
  }

  /** Under unique ids and a top part that fits one element, the other matches are exactly those behind twins. */
  lemma OtherMatches(u: Unicode, root: Node, loc: Loc, full: bool, other: Loc)
    requires IsElement(root, loc) && |loc| > 1 && Anchored(u, root, loc, full)
    requires CssFits(root, Climb(u, root, loc, full).0, loc)
    ensures other != loc && CssFits(root, Climb(u, root, loc, full).0, other) <==>
            exists i :: TwinLeads(u, root, loc, full, i, other)
  {
    hide CssFits, Anchored, TwinLeads;
    if other != loc && CssFits(root, Climb(u, root, loc, full).0, other) {
      MatchLeads(u, root, loc, full, other);
    }
    if i :| TwinLeads(u, root, loc, full, i, other) {
      TwinMatches(u, root, loc, full, i, other);
    }
  }

  lemma MatchLeads(u: Unicode, root: Node, loc: Loc, full: bool, other: Loc)
    requires IsElement(root, loc) && |loc| > 1 && Anchored(u, root, loc, full) && other != loc
    requires CssFits(root, Climb(u, root, loc, full).0, loc) && CssFits(root, Climb(u, root, loc, full).0, other)
    ensures exists i :: TwinLeads(u, root, loc, full, i, other)
  {
    hide CssFits, Fits, PartOf, UniqueIds, Spelled, IsTwin, Before;
    var parts := Climb(u, root, loc, full).0;
    var n := |parts|;
    FitsByStops(root, parts, loc);
    FitsByStops(root, parts, other);
    LevelByLevel(u, root, loc, full, other, 0);
    assert Fits(root, parts[0], Stop(loc, n, 0)) && Fits(root, parts[0], Stop(other, n, 0));
    assert Stop(loc, n, n - 1) == loc && Stop(other, n, n - 1) == other;
    var i := WaysPart(loc, other, n, n - 1);
    ClimbParts(u, root, loc, full, i);
    OwnPartFits(u, root, Stop(loc, n, i));
    OnlyTwinsFit(u, root, Stop(loc, n, i), Stop(other, n, i));
    assert TwinLeads(u, root, loc, full, i, other);
  }

  lemma TwinMatches(u: Unicode, root: Node, loc: Loc, full: bool, i: nat, other: Loc)
    requires IsElement(root, loc) && |loc| > 1 && CssFits(root, Climb(u, root, loc, full).0, loc)
    requires TwinLeads(u, root, loc, full, i, other)
    ensures other != loc && CssFits(root, Climb(u, root, loc, full).0, other)
  {
    hide CssFits, Fits, PartOf;
    var parts := Climb(u, root, loc, full).0;
    var n := |parts|;
    FitsByStops(root, parts, loc);
    FitsByStops(root, parts, other);
    var own, its := Stop(loc, n, i), Stop(other, n, i);
    ClimbParts(u, root, loc, full, i);
    TwinFits(u, root, own, its);
    forall j | 0 <= j < i ensures Fits(root, parts[j], Stop(other, n, j)) {
      assert Stop(other, n, j) == Parent(its)[..|loc| - n + 1 + j] == Stop(loc, n, j);
    }
  }
}
