/** Finite document trees and the places in them. */
module Dom {
  import opened Wrappers

  datatype Node = Element(tag: string, attrs: map<string, string>, children: seq<Node>) | TextNode(data: string)

  /** A place: the child indices from the document node down.  The document node itself is []. */
  type Loc = seq<nat>

  function At(root: Node, loc: Loc): Option<Node>
    decreases loc
  {
    if loc == [] then Some(root)
    else if root.Element? && loc[0] < |root.children| then At(root.children[loc[0]], loc[1..])
    else None
  }

  /** An element of the document; the document node is none. */
  predicate IsElement(root: Node, loc: Loc) {
    loc != [] && At(root, loc).Some? && At(root, loc).value.Element?
  }

  function Parent(loc: Loc): Loc
    requires loc != []
  {
    loc[..|loc| - 1]
  }

  lemma {:induction false} AtAppend(root: Node, a: Loc, b: Loc)
    requires At(root, a).Some?
    ensures At(root, a + b) == At(At(root, a).value, b)
    decreases a
  {
    if a == [] {
      assert a + b == b;
    } else {
      assert (a + b)[0] == a[0] && (a + b)[1..] == a[1..] + b;
      AtAppend(root.children[a[0]], a[1..], b);
    }
  }

  lemma {:induction false} AtPrefix(root: Node, a: Loc, b: Loc)
    requires At(root, a + b).Some?
    ensures At(root, a).Some? && (b != [] ==> At(root, a).value.Element?)
    decreases a
  {
    if a == [] {
      assert a + b == b;
    } else {
      assert (a + b)[0] == a[0] && (a + b)[1..] == a[1..] + b;
      AtPrefix(root.children[a[0]], a[1..], b);
    }
  }

  /** The parent of an existing place exists and is an element or the document node. */
  lemma ParentExists(root: Node, loc: Loc)
    requires loc != [] && At(root, loc).Some?
    ensures At(root, Parent(loc)).Some? && At(root, Parent(loc)).value.Element?
    ensures loc[|loc| - 1] < |At(root, Parent(loc)).value.children|
    ensures At(root, loc).value == At(root, Parent(loc)).value.children[loc[|loc| - 1]]
  {
    var last := [loc[|loc| - 1]];
    assert loc == Parent(loc) + last;
    AtPrefix(root, Parent(loc), last);
    AtAppend(root, Parent(loc), last);
    assert last[1..] == [];
  }
}
