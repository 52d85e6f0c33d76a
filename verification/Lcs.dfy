/** The longest common subsequence of two lists of tags, by the two-row dynamic program. */
module Lcs {

  /** `s` can be had from `a` by deleting elements. */
  ghost predicate IsSubsequence(s: seq<string>, a: seq<string>) {
    if s == [] then true
    else if a == [] then false
    else
      || (s[|s| - 1] == a[|a| - 1] && IsSubsequence(s[..|s| - 1], a[..|a| - 1]))
      || IsSubsequence(s, a[..|a| - 1])
  }

  ghost predicate IsCommon(s: seq<string>, a: seq<string>, b: seq<string>) {
    IsSubsequence(s, a) && IsSubsequence(s, b)
  }

  /** The recurrence on prefixes. */
  function Length(a: seq<string>, b: seq<string>): nat
    decreases |a| + |b|
  {
    if a == [] || b == [] then 0
    else if a[|a| - 1] == b[|b| - 1] then Length(a[..|a| - 1], b[..|b| - 1]) + 1
    else Max(Length(a[..|a| - 1], b), Length(a, b[..|b| - 1]))
  }

  function Max(x: nat, y: nat): nat {
    if x > y then x else y
  }

  /** The program: rows are filled, swapped and zeroed. */
  method LongestCommonSubsequence(a: seq<string>, b: seq<string>) returns (n: nat)
    ensures n == Length(a, b)
  {
    var previous := new nat[|b| + 1](_ => 0);
    var current := new nat[|b| + 1](_ => 0);
    for i := 1 to |a| + 1
      invariant previous != current && fresh(previous) && fresh(current)
      invariant previous.Length == current.Length == |b| + 1
      invariant forall j :: 0 <= j <= |b| ==> previous[j] == Length(a[..i - 1], b[..j])
      invariant forall j :: 0 <= j <= |b| ==> current[j] == 0
    {
      FillRow(a, b, i, previous, current);
      previous, current := current, previous;
      for j := 0 to current.Length
        invariant forall k :: 0 <= k < j ==> current[k] == 0
        invariant forall k :: 0 <= k <= |b| ==> previous[k] == Length(a[..i], b[..k])
      {
        current[j] := 0;
      }
    }
    assert a[..|a|] == a && b[..|b|] == b;
    return previous[|b|];
  }

  method FillRow(a: seq<string>, b: seq<string>, i: nat, previous: array<nat>, current: array<nat>)
    requires 1 <= i <= |a| && previous != current && previous.Length == current.Length == |b| + 1
    requires forall j :: 0 <= j <= |b| ==> previous[j] == Length(a[..i - 1], b[..j])
    requires current[0] == 0
    modifies current
    ensures forall j :: 0 <= j <= |b| ==> current[j] == Length(a[..i], b[..j])
  {
    for j := 1 to |b| + 1
      invariant forall k :: 0 <= k < j ==> current[k] == Length(a[..i], b[..k])
    {
      Prefixes(a, b, i, j);
      if a[i - 1] == b[j - 1] {
        current[j] := previous[j - 1] + 1;
      } else if previous[j] > current[j - 1] {
        current[j] := previous[j];
      } else {
        current[j] := current[j - 1];
      }
    }
  }

  lemma Prefixes(a: seq<string>, b: seq<string>, i: nat, j: nat)
    requires 1 <= i <= |a| && 1 <= j <= |b|
    ensures Length(a[..i], b[..j]) ==
            if a[i - 1] == b[j - 1] then Length(a[..i - 1], b[..j - 1]) + 1
            else Max(Length(a[..i - 1], b[..j]), Length(a[..i], b[..j - 1]))
  {
    assert a[..i][..i - 1] == a[..i - 1];
    assert b[..j][..j - 1] == b[..j - 1];
  }

  // ---------- the length is that of a longest common subsequence ----------

  /** A common subsequence of that length. */
  ghost function Witness(a: seq<string>, b: seq<string>): (s: seq<string>)
    ensures |s| == Length(a, b)
    decreases |a| + |b|
  {
    if a == [] || b == [] then []
    else if a[|a| - 1] == b[|b| - 1] then Witness(a[..|a| - 1], b[..|b| - 1]) + [a[|a| - 1]]
    else if Length(a[..|a| - 1], b) > Length(a, b[..|b| - 1]) then Witness(a[..|a| - 1], b)
    else Witness(a, b[..|b| - 1])
  }

  lemma {:induction false} WitnessIsCommon(a: seq<string>, b: seq<string>)
    ensures IsCommon(Witness(a, b), a, b)
    decreases |a| + |b|
  {
    if a == [] || b == [] {
    } else if a[|a| - 1] == b[|b| - 1] {
      var init := Witness(a[..|a| - 1], b[..|b| - 1]);
      WitnessIsCommon(a[..|a| - 1], b[..|b| - 1]);
      assert (init + [a[|a| - 1]])[..|init|] == init;
    } else if Length(a[..|a| - 1], b) > Length(a, b[..|b| - 1]) {
      WitnessIsCommon(a[..|a| - 1], b);
    } else {
      WitnessIsCommon(a, b[..|b| - 1]);
    }
  }

  /** Deleting the last element of a subsequence leaves a subsequence, also of the shorter list. */
  lemma {:induction false} DropLast(s: seq<string>, a: seq<string>)
    requires s != [] && IsSubsequence(s, a)
    ensures a != [] && IsSubsequence(s[..|s| - 1], a[..|a| - 1])
  {
    if !(s[|s| - 1] == a[|a| - 1] && IsSubsequence(s[..|s| - 1], a[..|a| - 1])) {
      DropLast(s, a[..|a| - 1]);
    }
  }

  lemma {:induction false} NoneLonger(s: seq<string>, a: seq<string>, b: seq<string>)
    requires IsCommon(s, a, b)
    ensures |s| <= Length(a, b)
    decreases |a| + |b|
  {
    if s != [] {
      var a', b' := a[..|a| - 1], b[..|b| - 1];
      if a[|a| - 1] == b[|b| - 1] {
        DropLast(s, a);
        DropLast(s, b);
        NoneLonger(s[..|s| - 1], a', b');
      } else if s[|s| - 1] != a[|a| - 1] {
        NoneLonger(s, a', b);
      } else {
        NoneLonger(s, a, b');
      }
    }
  }

  /** Length is the length of a longest common subsequence. */
  lemma LengthIsLongest(a: seq<string>, b: seq<string>)
    ensures exists s :: IsCommon(s, a, b) && |s| == Length(a, b)
    ensures forall s :: IsCommon(s, a, b) ==> |s| <= Length(a, b)
  {
    WitnessIsCommon(a, b);
    forall s | IsCommon(s, a, b) ensures |s| <= Length(a, b) { NoneLonger(s, a, b); }
  }

  lemma {:induction false} Symmetric(a: seq<string>, b: seq<string>)
    ensures Length(a, b) == Length(b, a)
  {
    WitnessIsCommon(a, b);
    NoneLonger(Witness(a, b), b, a);
    WitnessIsCommon(b, a);
    NoneLonger(Witness(b, a), a, b);
  }

  /** A subsequence is no longer than its list, and equal to it when as long. */
  lemma {:induction false} SubsequenceLength(s: seq<string>, a: seq<string>)
    requires IsSubsequence(s, a)
    ensures |s| <= |a| && (|s| == |a| ==> s == a)
  {
    if s != [] {
      if s[|s| - 1] == a[|a| - 1] && IsSubsequence(s[..|s| - 1], a[..|a| - 1]) {
        SubsequenceLength(s[..|s| - 1], a[..|a| - 1]);
        assert s == s[..|s| - 1] + [s[|s| - 1]] && a == a[..|a| - 1] + [a[|a| - 1]];
      } else {
        SubsequenceLength(s, a[..|a| - 1]);
      }
    }
  }

  lemma {:induction false} SelfCommon(a: seq<string>)
    ensures IsSubsequence(a, a)
  {
    if a != [] { SelfCommon(a[..|a| - 1]); }
  }

  lemma {:induction false} LengthBounds(a: seq<string>, b: seq<string>)
    ensures Length(a, b) <= |a| && Length(a, b) <= |b|
    ensures Length(a, b) == |a| == |b| <==> a == b
  {
    WitnessIsCommon(a, b);
    SubsequenceLength(Witness(a, b), a);
    SubsequenceLength(Witness(a, b), b);
    if a == b {
      SelfCommon(a);
      NoneLonger(a, a, b);
    }
  }
}
