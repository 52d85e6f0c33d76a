/** The two searches for the element that best fits a stored fingerprint. */
module Relocation {
  import opened Wrappers
  import opened Score
  import opened ScoreMeaning
  import opened Text

  const DEFAULT_MIN_SCORE := 0.65

  /** minScoreFromPercentage: None for a percentage outside [0, 100]. */
  function MinScore(percentage: real): (r: Option<real>)
    ensures r.Some? ==> 0.0 < r.value <= 1.0
    ensures r.None? <==> percentage < 0.0 || percentage > 100.0
    ensures percentage == 0.0 ==> r == Some(DEFAULT_MIN_SCORE)
    ensures r.Some? && percentage != 0.0 ==> r.value * 100.0 == percentage
  {
    if percentage == 0.0 then Some(DEFAULT_MIN_SCORE)
    else if percentage < 0.0 || percentage > 100.0 then None
    else Some(percentage / 100.0)
  }

  datatype Match = Match(index: nat, score: real)

  /** `i` is the first of the best scores. */
  ghost predicate IsFirstBest(scores: seq<real>, i: nat) {
    && i < |scores|
    && (forall j :: 0 <= j < |scores| ==> scores[j] <= scores[i])
    && (forall j :: 0 <= j < i ==> scores[j] < scores[i])
  }

  lemma FirstBestIsUnique(scores: seq<real>, i: nat, j: nat)
    requires IsFirstBest(scores, i) && IsFirstBest(scores, j)
    ensures i == j
  {
    assert scores[i] <= scores[j] && scores[j] <= scores[i];
  }

  /** The scores of the document's elements against `target`, in document order. */
  function Scores(u: Unicode, elements: seq<Fingerprint>, target: Fingerprint): (r: seq<real>)
    ensures |r| == |elements| && forall i :: 0 <= i < |elements| ==> r[i] == Similarity(u, elements[i], target)
  {
    seq(|elements|, i requires 0 <= i < |elements| => Similarity(u, elements[i], target))
  }

  /** relocateWithKey: skip what is below the threshold, keep a running best. */
  method RelocateWithKey(u: Unicode, elements: seq<Fingerprint>, target: Fingerprint, minScore: real)
    returns (best: Option<Match>)
    ensures RunningBest(Scores(u, elements, target), minScore, best)
  {
    hide Scores, Similarity;
    best := None;
    ghost var scores := Scores(u, elements, target);
    for k := 0 to |elements|
      invariant RunningBest(scores[..k], minScore, best)
    {
      var score := ScoreFingerprint(u, elements[k], target);
      assert scores[..k + 1] == scores[..k] + [score];
      if score < minScore { continue; }
      if best.None? || score > best.value.score { best := Some(Match(k, score)); }
    }
    assert scores[..|elements|] == scores;
  }

  /** What relocateWithKey has found after the elements with `scores`. */
  ghost predicate RunningBest(scores: seq<real>, minScore: real, best: Option<Match>) {
    && (best.None? <==> forall i :: 0 <= i < |scores| ==> scores[i] < minScore)
    && (best.Some? ==>
          IsFirstBest(scores, best.value.index) && best.value.score == scores[best.value.index] >= minScore)
  }

  datatype Candidate = Candidate(index: nat, score: real)

  datatype Diagnosis = NoCandidates | Diagnosed(candidates: seq<Candidate>, best: Candidate, accepted: bool)

  /** sort.SliceStable by descending score. */
  function SortStable(q: seq<Candidate>): (r: seq<Candidate>)
    ensures |r| == |q|
  {
    if q == [] then [] else InsertStable(SortStable(q[..|q| - 1]), q[|q| - 1])
  }

  function InsertStable(q: seq<Candidate>, c: Candidate): (r: seq<Candidate>)
    ensures |r| == |q| + 1
  {
    if q == [] || c.score > q[0].score then [c] + q else [q[0]] + InsertStable(q[1..], c)
  }

  /** The diagnosis of a document whose elements have `scores`: all candidates are reported, the first
      of the best in front. */
  ghost predicate IsDiagnosis(scores: seq<real>, minScore: real, d: Diagnosis) {
    && (d == NoCandidates <==> scores == [])
    && (d.Diagnosed? ==>
          && IsFirstBest(scores, d.best.index) && d.best.score == scores[d.best.index]
          && d.accepted == (d.best.score >= minScore)
          && |d.candidates| == |scores| && d.candidates[0] == d.best
          && multiset(d.candidates) == multiset(Listed(scores)) && Ranked(d.candidates))
  }

  /** Better candidates come first, and earlier elements among equals. */
  ghost predicate Ranked(q: seq<Candidate>) {
    forall i, j :: 0 <= i < j < |q| ==> Outranks(q[i], q[j])
  }

  predicate Outranks(c: Candidate, d: Candidate) {
    c.score > d.score || (c.score == d.score && c.index < d.index)
  }

  /** DiagnoseRelocate: score every element, sort the list, take its first entry. */
  method DiagnoseRelocate(u: Unicode, elements: seq<Fingerprint>, target: Fingerprint, minScore: real)
    returns (d: Diagnosis)
    ensures IsDiagnosis(Scores(u, elements, target), minScore, d)
  {
    hide Scores, Similarity;
    var candidates: seq<Candidate> := [];
    ghost var scores := Scores(u, elements, target);
    for k := 0 to |elements|
      invariant candidates == Listed(scores[..k])
    {
      var score := ScoreFingerprint(u, elements[k], target);
      assert scores[..k + 1] == scores[..k] + [score];
      candidates := candidates + [Candidate(k, score)];
    }
    assert scores[..|elements|] == scores;
    if |candidates| == 0 { return NoCandidates; }
    SortedHead(scores);
    SortKeeps(candidates);
    SortRanks(candidates);
    candidates := SortStable(candidates);
    return Diagnosed(candidates, candidates[0], candidates[0].score >= minScore);
  }

  function Listed(scores: seq<real>): (q: seq<Candidate>)
    ensures |q| == |scores|
  {
    seq(|scores|, i requires 0 <= i < |scores| => Candidate(i, scores[i]))
  }

  lemma {:induction false} InsertKeeps(q: seq<Candidate>, c: Candidate)
    ensures multiset(InsertStable(q, c)) == multiset(q) + multiset{c}
  {
    if q != [] && c.score <= q[0].score {
      assert q == [q[0]] + q[1..];
      InsertKeeps(q[1..], c);
    }
  }

  lemma {:induction false} SortKeeps(q: seq<Candidate>)
    ensures multiset(SortStable(q)) == multiset(q)
  {
    if q != [] {
      var init, last := q[..|q| - 1], q[|q| - 1];
      assert q == init + [last];
      SortKeeps(init);
      InsertKeeps(SortStable(init), last);
    }
  }

  lemma {:induction false} InsertRanks(q: seq<Candidate>, c: Candidate)
    requires Ranked(q) && forall x :: x in q ==> x.index < c.index
    ensures Ranked(InsertStable(q, c))
  {
    if q == [] || c.score > q[0].score {
      forall x | x in q ensures Outranks(c, x) {
        var i :| 0 <= i < |q| && q[i] == x;
        assert i == 0 || Outranks(q[0], q[i]);
      }
    } else {
      var rest := InsertStable(q[1..], c);
      InsertRanks(q[1..], c);
      InsertKeeps(q[1..], c);
      forall x | x in rest ensures Outranks(q[0], x) {
        assert x in multiset(rest);
        if x != c {
          assert x in q[1..];
          var i :| 1 <= i < |q| && q[i] == x;
          assert Outranks(q[0], q[i]);
        }
      }
      assert InsertStable(q, c) == [q[0]] + rest;
    }
  }

  lemma {:induction false} SortRanks(q: seq<Candidate>)
    requires forall i, j :: 0 <= i < j < |q| ==> q[i].index < q[j].index
    ensures Ranked(SortStable(q))
  {
    if q != [] {
      var init, last := q[..|q| - 1], q[|q| - 1];
      SortRanks(init);
      SortKeeps(init);
      forall x | x in SortStable(init) ensures x.index < last.index {
        assert x in multiset(SortStable(init));
        assert x in init;
      }
      InsertRanks(SortStable(init), last);
    }
  }

  /** A stable sort puts the first of the best scores at the head. */
  lemma {:induction false} SortedHead(scores: seq<real>)
    requires scores != []
    ensures var head := SortStable(Listed(scores))[0];
            IsFirstBest(scores, head.index) && head.score == scores[head.index]
    decreases |scores|
  {
    var n := |scores| - 1;
    var init, last := scores[..n], Candidate(n, scores[n]);
    assert Listed(scores)[..n] == Listed(init) && Listed(scores)[n] == last;
    assert scores == init + [scores[n]];
    hide InsertStable;
    if init != [] {
      SortedHead(init);
    }
  }

  // ---------- the searches agree ----------

  /** On one document and one threshold both searches give the same verdict, element and score. */
  lemma SearchesAgree(scores: seq<real>, minScore: real, best: Option<Match>, d: Diagnosis)
    requires RunningBest(scores, minScore, best) && IsDiagnosis(scores, minScore, d)
    ensures best.Some? <==> d.Diagnosed? && d.accepted
    ensures best.Some? ==> best.value.index == d.best.index && best.value.score == d.best.score
  {
    if best.Some? && d.Diagnosed? { FirstBestIsUnique(scores, best.value.index, d.best.index); }
  }

  /** An element saved and looked up in the unchanged document is found with score exactly 1, at the first element
      that is alike to it; that is the saved element itself unless an earlier one is alike. */
  lemma SavedIsFound(u: Unicode, elements: seq<Fingerprint>, saved: nat, minScore: real, best: Option<Match>)
    requires saved < |elements| && minScore <= 1.0
    requires RunningBest(Scores(u, elements, elements[saved]), minScore, best)
    ensures best.Some? && best.value.score == 1.0 && best.value.index <= saved
    ensures Alike(u, elements[best.value.index], elements[saved])
    ensures best.value.index == saved <==> forall i :: 0 <= i < saved ==> !Alike(u, elements[i], elements[saved])
  {
    hide Similarity, Alike;
    var scores := Scores(u, elements, elements[saved]);
    forall i | 0 <= i < |elements|
      ensures scores[i] <= 1.0 && (scores[i] == 1.0 <==> Alike(u, elements[i], elements[saved]))
    {
      OneIffAlike(u, elements[i], elements[saved]);
    }
    SimilarityUnit(u, elements[saved], elements[saved]);
    assert scores[saved] == 1.0;
    assert scores[best.value.index] >= scores[saved];
  }
}
