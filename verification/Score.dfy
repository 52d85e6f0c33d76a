/** Fingerprint similarity, over exact real numbers. */
module Score {
  import Lcs
  import opened Text

  datatype Fingerprint = Fingerprint(
    tag: string,
    text: string,
    attributes: map<string, string>,
    parentTag: string,
    parentText: string,
    parentAttributes: map<string, string>,
    siblingTags: seq<string>,
    childrenTags: seq<string>,
    pathTags: seq<string>)

  datatype ScoreComponent = ScoreComponent(name: string, weight: real, score: real, contribution: real)

  // ---------- strings ----------

  function SeqSet(q: seq<string>): set<string> {
    set t | t in q
  }

  /** tokenSet: the maximal runs of letters and digits of the lower-cased text. */
  function Tokens(u: Unicode, value: string): set<string> {
    SeqSet(FieldsFrom(c => c in u.letters || c in u.digits, ToLower(u, value), ""))
  }

  /** The builder loop of tokenSet. */
  method TokenSet(u: Unicode, value: string) returns (tokens: set<string>)
    ensures tokens == Tokens(u, value)
  {
    var text := ToLower(u, value);
    tokens := {};
    var builder := "";
    for i := 0 to |text|
      invariant tokens + SeqSet(FieldsFrom(c => c in u.letters || c in u.digits, text[i..], builder)) ==
                Tokens(u, value)
    {
      assert text[i..][1..] == text[i + 1..];
      if text[i] in u.letters || text[i] in u.digits {
        builder := builder + [text[i]];
      } else {
        var rest := FieldsFrom(c => c in u.letters || c in u.digits, text[i + 1..], "");
        var flushed := if builder == [] then [] else [builder];
        if builder != [] { tokens := tokens + {builder}; }
        builder := "";
      }
    }
    if builder != [] { tokens := tokens + {builder}; }
  }

  // ---------- similarities ----------

  function ExactScore(u: Unicode, candidate: string, target: string): real {
    var c, t := NormalizeSpace(ToLower(u, candidate)), NormalizeSpace(ToLower(u, target));
    if c == "" && t == "" then 1.0 else if c != "" && c == t then 1.0 else 0.0
  }

  /** Common tokens over all tokens; 1 for two empty sets and 0 for one. */
  function Jaccard(candidate: set<string>, target: set<string>): real {
    if candidate == {} && target == {} then 1.0
    else if candidate == {} || target == {} then 0.0
    else |candidate * target| as real / |candidate + target| as real
  }

  /** tokenSetSimilarity: count the intersection and gather the union. */
  method TokenSetSimilarity(candidate: set<string>, target: set<string>) returns (r: real)
    ensures r == Jaccard(candidate, target)
  {
    if |candidate| == 0 && |target| == 0 { return 1.0; }
    if |candidate| == 0 || |target| == 0 { return 0.0; }
    var intersection := 0;
    var union: set<string> := {};
    var rest := candidate;
    while rest != {}
      invariant rest <= candidate && union == candidate - rest
      invariant intersection == |(candidate - rest) * target|
      decreases |rest|
    {
      var token :| token in rest;
      union := union + {token};
      CountOne(candidate - rest, token, target);
      SeenGrows(candidate, rest, token);
      if token in target { intersection := intersection + 1; }
      rest := rest - {token};
    }
    assert candidate - {} == candidate;
    rest := target;
    while rest != {}
      invariant rest <= target && union == candidate + (target - rest)
      decreases |rest|
    {
      var token :| token in rest;
      SeenGrows(target, rest, token);
      union := union + {token};
      rest := rest - {token};
    }
    assert union == candidate + target;
    return intersection as real / |union| as real;
  }

  lemma SeenGrows(all: set<string>, rest: set<string>, token: string)
    requires token in rest && rest <= all
    ensures all - (rest - {token}) == (all - rest) + {token} && rest - {token} <= all
  {
  }

  lemma CountOne(seen: set<string>, token: string, target: set<string>)
    requires token !in seen
    ensures |(seen + {token}) * target| == |seen * target| + if token in target then 1 else 0
  {
    assert (seen + {token}) * target == seen * target + if token in target then {token} else {};
  }

  function StringSimilarity(u: Unicode, candidate: string, target: string): real {
    var c, t := NormalizeSpace(ToLower(u, candidate)), NormalizeSpace(ToLower(u, target));
    if c == "" && t == "" then 1.0
    else if c == "" || t == "" then 0.0
    else if c == t then 1.0
    else Jaccard(Tokens(u, c), Tokens(u, t))
  }

  function LowerKeys(u: Unicode, m: map<string, string>): set<string> {
    set k | k in m :: ToLower(u, k)
  }

  function MapKeySimilarity(u: Unicode, candidate: map<string, string>, target: map<string, string>): real {
    if |candidate| == 0 && |target| == 0 then 1.0
    else if |candidate| == 0 || |target| == 0 then 0.0
    else Jaccard(LowerKeys(u, candidate), LowerKeys(u, target))
  }

  function AttrValueTokens(u: Unicode, m: map<string, string>): set<string> {
    set k, t | k in m && t in Tokens(u, m[k]) :: t
  }

  function AttrValueSimilarity(u: Unicode, candidate: map<string, string>, target: map<string, string>): real {
    if |candidate| == 0 && |target| == 0 then 1.0
    else if |candidate| == 0 || |target| == 0 then 0.0
    else Jaccard(AttrValueTokens(u, candidate), AttrValueTokens(u, target))
  }

  function SequenceSimilarity(candidate: seq<string>, target: seq<string>): real {
    if candidate == [] && target == [] then 1.0
    else if candidate == [] || target == [] then 0.0
    else Lcs.Length(candidate, target) as real / Lcs.Max(|target|, |candidate|) as real
  }

  function ParentSimilarity(u: Unicode, candidate: Fingerprint, target: Fingerprint): real {
    ExactScore(u, candidate.parentTag, target.parentTag) * 0.35 +
    StringSimilarity(u, candidate.parentText, target.parentText) * 0.25 +
    MapKeySimilarity(u, candidate.parentAttributes, target.parentAttributes) * 0.20 +
    AttrValueSimilarity(u, candidate.parentAttributes, target.parentAttributes) * 0.20
  }

  function NewScoreComponent(name: string, weight: real, score: real): ScoreComponent {
    ScoreComponent(name, weight, score, weight * score)
  }

  function Components(u: Unicode, candidate: Fingerprint, target: Fingerprint): seq<ScoreComponent> {
    [ NewScoreComponent("tag", 0.22, ExactScore(u, candidate.tag, target.tag)),
      NewScoreComponent("text", 0.22, StringSimilarity(u, candidate.text, target.text)),
      NewScoreComponent("attributes.keys", 0.11, MapKeySimilarity(u, candidate.attributes, target.attributes)),
      NewScoreComponent("attributes.values", 0.14, AttrValueSimilarity(u, candidate.attributes, target.attributes)),
      NewScoreComponent("parent", 0.12, ParentSimilarity(u, candidate, target)),
      NewScoreComponent("siblings", 0.05, SequenceSimilarity(candidate.siblingTags, target.siblingTags)),
      NewScoreComponent("path", 0.07, SequenceSimilarity(candidate.pathTags, target.pathTags)),
      NewScoreComponent("children", 0.07, SequenceSimilarity(candidate.childrenTags, target.childrenTags)) ]
  }

  function Total(components: seq<ScoreComponent>): real {
    if components == [] then 0.0
    else Total(components[..|components| - 1]) + components[|components| - 1].contribution
  }

  function Similarity(u: Unicode, candidate: Fingerprint, target: Fingerprint): real {
    Total(Components(u, candidate, target))
  }

  /** The loop of scoreFingerprint and of sumScoreComponents. */
  method SumScoreComponents(components: seq<ScoreComponent>) returns (score: real)
    ensures score == Total(components)
  {
    score := 0.0;
    for i := 0 to |components|
      invariant score == Total(components[..i])
    {
      assert components[..i + 1][..i] == components[..i];
      score := score + components[i].contribution;
    }
    assert components[..|components|] == components;
  }

  method ScoreFingerprint(u: Unicode, candidate: Fingerprint, target: Fingerprint) returns (score: real)
    ensures score == Similarity(u, candidate, target)
  {
    score := SumScoreComponents(Components(u, candidate, target));
  }

  // ---------- range, symmetry and when a similarity is 1 ----------

  predicate Unit(x: real) {
    0.0 <= x <= 1.0
  }

  lemma DivideUnit(n: nat, d: nat)
    requires n <= d && d > 0
    ensures Unit(n as real / d as real)
    ensures n as real / d as real == 1.0 <==> n == d
  {
    var x := n as real / d as real;
    assert x * d as real == n as real;
    assert x > 1.0 ==> x * d as real > d as real;
    assert x < 0.0 ==> x * d as real < 0.0;
  }

  lemma JaccardUnit(a: set<string>, b: set<string>)
    ensures Unit(Jaccard(a, b)) && Jaccard(a, b) == Jaccard(b, a)
    ensures Jaccard(a, b) == 1.0 <==> a == b
  {
    if a != {} && b != {} {
      assert a * b == b * a && a + b == b + a;
      assert a + b == (a * b) + ((a - b) + (b - a));
      assert |a + b| == |a * b| + |(a - b) + (b - a)|;
      DivideUnit(|a * b|, |a + b|);
      if |a * b| == |a + b| { assert (a - b) + (b - a) == {}; }
    }
  }

  lemma ExactUnit(u: Unicode, a: string, b: string)
    ensures Unit(ExactScore(u, a, b)) && ExactScore(u, a, b) == ExactScore(u, b, a) && ExactScore(u, a, a) == 1.0
  {
  }

  lemma StringUnit(u: Unicode, a: string, b: string)
    ensures Unit(StringSimilarity(u, a, b)) && StringSimilarity(u, a, b) == StringSimilarity(u, b, a)
    ensures StringSimilarity(u, a, a) == 1.0
  {
    JaccardUnit(Tokens(u, NormalizeSpace(ToLower(u, a))), Tokens(u, NormalizeSpace(ToLower(u, b))));
  }

  lemma MapKeyUnit(u: Unicode, a: map<string, string>, b: map<string, string>)
    ensures Unit(MapKeySimilarity(u, a, b)) && MapKeySimilarity(u, a, b) == MapKeySimilarity(u, b, a)
    ensures MapKeySimilarity(u, a, a) == 1.0
  {
    JaccardUnit(LowerKeys(u, a), LowerKeys(u, b));
    JaccardUnit(LowerKeys(u, a), LowerKeys(u, a));
  }

  lemma AttrValueUnit(u: Unicode, a: map<string, string>, b: map<string, string>)
    ensures Unit(AttrValueSimilarity(u, a, b)) && AttrValueSimilarity(u, a, b) == AttrValueSimilarity(u, b, a)
    ensures AttrValueSimilarity(u, a, a) == 1.0
  {
    JaccardUnit(AttrValueTokens(u, a), AttrValueTokens(u, b));
    JaccardUnit(AttrValueTokens(u, a), AttrValueTokens(u, a));
  }

  /** Sequence similarity is symmetric, lies between 0 and 1, and is 1 exactly for equal sequences. */
  lemma SequenceUnit(a: seq<string>, b: seq<string>)
    ensures Unit(SequenceSimilarity(a, b)) && SequenceSimilarity(a, b) == SequenceSimilarity(b, a)
    ensures SequenceSimilarity(a, b) == 1.0 <==> a == b
  {
    Lcs.Symmetric(a, b);
    Lcs.LengthBounds(a, b);
    if a != [] && b != [] { DivideUnit(Lcs.Length(a, b), Lcs.Max(|b|, |a|)); }
  }

  lemma ParentUnit(u: Unicode, a: Fingerprint, b: Fingerprint)
    ensures Unit(ParentSimilarity(u, a, b)) && ParentSimilarity(u, a, b) == ParentSimilarity(u, b, a)
    ensures ParentSimilarity(u, a, a) == 1.0
  {
    hide ExactScore, StringSimilarity, MapKeySimilarity, AttrValueSimilarity;
    ExactUnit(u, a.parentTag, b.parentTag);
    StringUnit(u, a.parentText, b.parentText);
    MapKeyUnit(u, a.parentAttributes, b.parentAttributes);
    AttrValueUnit(u, a.parentAttributes, b.parentAttributes);
  }

  /** The total as one sum: the eight weights add up to 1. */
  lemma TotalOf(u: Unicode, a: Fingerprint, b: Fingerprint)
    ensures Similarity(u, a, b) ==
            0.22 * ExactScore(u, a.tag, b.tag) +
            0.22 * StringSimilarity(u, a.text, b.text) +
            0.11 * MapKeySimilarity(u, a.attributes, b.attributes) +
            0.14 * AttrValueSimilarity(u, a.attributes, b.attributes) +
            0.12 * ParentSimilarity(u, a, b) +
            0.05 * SequenceSimilarity(a.siblingTags, b.siblingTags) +
            0.07 * SequenceSimilarity(a.pathTags, b.pathTags) +
            0.07 * SequenceSimilarity(a.childrenTags, b.childrenTags)
  {
    hide ExactScore, StringSimilarity, MapKeySimilarity, AttrValueSimilarity, ParentSimilarity, SequenceSimilarity;
    var c := Components(u, a, b);
    assert Total(c[..0]) == 0.0;
    TotalPrefix(c, 0);
    TotalPrefix(c, 1);
    TotalPrefix(c, 2);
    TotalPrefix(c, 3);
    TotalPrefix(c, 4);
    TotalPrefix(c, 5);
    TotalPrefix(c, 6);
    TotalPrefix(c, 7);
    assert c[..8] == c;
  }

  lemma TotalPrefix(c: seq<ScoreComponent>, i: nat)
    requires i < |c|
    ensures Total(c[..i + 1]) == Total(c[..i]) + c[i].contribution
  {
    assert c[..i + 1][..i] == c[..i];
  }

  /** Scores lie between 0 and 1 and do not depend on which fingerprint is the target; equal
      fingerprints score exactly 1, and a score of 1 needs equal sibling, path and child tags. */
  lemma SimilarityUnit(u: Unicode, a: Fingerprint, b: Fingerprint)
    ensures Unit(Similarity(u, a, b)) && Similarity(u, a, b) == Similarity(u, b, a)
    ensures a == b ==> Similarity(u, a, b) == 1.0
    ensures Similarity(u, a, b) == 1.0 ==>
            a.siblingTags == b.siblingTags && a.pathTags == b.pathTags && a.childrenTags == b.childrenTags
  {
    hide ExactScore, StringSimilarity, MapKeySimilarity, AttrValueSimilarity, ParentSimilarity, SequenceSimilarity,
      Similarity;
    TotalOf(u, a, b);
    TotalOf(u, b, a);
    ExactUnit(u, a.tag, b.tag);
    StringUnit(u, a.text, b.text);
    MapKeyUnit(u, a.attributes, b.attributes);
    AttrValueUnit(u, a.attributes, b.attributes);
    ParentUnit(u, a, b);
    SequenceUnit(a.siblingTags, b.siblingTags);
    SequenceUnit(a.pathTags, b.pathTags);
    SequenceUnit(a.childrenTags, b.childrenTags);
  }
}
