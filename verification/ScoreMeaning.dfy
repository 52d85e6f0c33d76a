/** What a score says. */
module ScoreMeaning {
  import Lcs
  import opened Score
  import opened Text
  import opened TextFields

  // ---------- words and tokens ----------

  /** The same words in the same order, without regard to case and white space. */
  predicate SameWords(u: Unicode, a: string, b: string) {
    Fields(ToLower(u, a)) == Fields(ToLower(u, b))
  }

  predicate IsBlank(u: Unicode, a: string) {
    Fields(ToLower(u, a)) == []
  }

  /** The tokens of a text whose white space has been normalized. */
  function TextTokens(u: Unicode, a: string): set<string> {
    Tokens(u, NormalizeSpace(ToLower(u, a)))
  }

  /** A token of a value: one of its maximal runs of letters and digits. */
  lemma TokensAreRuns(u: Unicode, value: string, gaps: seq<string>, words: seq<string>)
    requires IsLayout(c => c in u.letters || c in u.digits, gaps, words) && Laid(gaps, words) == ToLower(u, value)
    ensures Tokens(u, value) == SeqSet(words)
  {
    FieldsOfLayout(c => c in u.letters || c in u.digits, gaps, words);
  }

  /** Every token of one set of tokens is one of the other. */
  predicate Disjoint(a: set<string>, b: set<string>) {
    forall t :: t in a ==> t !in b
  }

  /** Common tokens over all tokens, by inclusion and exclusion; 0 exactly when one has tokens and none of them is
      shared. */
  lemma JaccardIs(a: set<string>, b: set<string>)
    ensures a + b != {} ==> Jaccard(a, b) * (|a| + |b| - |a * b|) as real == |a * b| as real
    ensures a + b == {} ==> Jaccard(a, b) == 1.0
    ensures Jaccard(a, b) == 0.0 <==> a + b != {} && Disjoint(a, b)
    ensures Jaccard(a, b) == 1.0 <==> a == b
  {
    JaccardUnit(a, b);
    UnionSize(a, b);
    if a == {} || b == {} {
      assert a * b == {};
    } else {
      Quotient(|a * b|, |a + b|);
      DisjointSets(a, b);
    }
  }

  lemma DisjointSets(a: set<string>, b: set<string>)
    ensures a * b == {} <==> Disjoint(a, b)
  {
    if a * b == {} {
      forall t | t in a ensures t !in b { assert t !in a * b; }
    } else {
      var t :| t in a * b;
      assert t in a && t in b;
    }
  }

  lemma UnionSize(a: set<string>, b: set<string>)
    ensures |a + b| == |a| + |b| - |a * b|
    ensures a != {} ==> |a + b| > 0
  {
    assert a + b == (a - b) + b;
    assert a == (a - b) + (a * b);
  }

  lemma Quotient(n: nat, d: nat)
    requires d > 0
    ensures n as real / d as real * d as real == n as real
    ensures n as real / d as real == 0.0 <==> n == 0
  {
  }

  // ---------- the single similarities ----------

  /** A tag scores 1 for the same words and 0 for others. */
  lemma ExactIs(u: Unicode, a: string, b: string)
    ensures ExactScore(u, a, b) == if SameWords(u, a, b) then 1.0 else 0.0
  {
    NormalizedIffWords(ToLower(u, a), ToLower(u, b));
    NormalizedIffWords(ToLower(u, b), ToLower(u, b));
    hide NormalizeSpace, Fields, ToLower;
  }

  /** A text scores 1 for the same words, 0 against a blank one, and else by its tokens. */
  lemma StringIs(u: Unicode, a: string, b: string)
    ensures StringSimilarity(u, a, b) ==
            if SameWords(u, a, b) then 1.0
            else if IsBlank(u, a) || IsBlank(u, b) then 0.0
            else Jaccard(TextTokens(u, a), TextTokens(u, b))
  {
    NormalizedIffWords(ToLower(u, a), ToLower(u, b));
    NormalizedIffWords(ToLower(u, b), ToLower(u, b));
    hide NormalizeSpace, Fields, ToLower, Jaccard, Tokens;
  }

  /** Full marks for a text. */
  predicate SameText(u: Unicode, a: string, b: string) {
    SameWords(u, a, b) || (!IsBlank(u, a) && !IsBlank(u, b) && TextTokens(u, a) == TextTokens(u, b))
  }

  lemma StringExtremes(u: Unicode, a: string, b: string)
    ensures StringSimilarity(u, a, b) == 1.0 <==> SameText(u, a, b)
    ensures StringSimilarity(u, a, b) == 0.0 <==>
            !SameWords(u, a, b) &&
            (IsBlank(u, a) || IsBlank(u, b) ||
             (TextTokens(u, a) + TextTokens(u, b) != {} && Disjoint(TextTokens(u, a), TextTokens(u, b))))
  {
    StringIs(u, a, b);
    JaccardIs(TextTokens(u, a), TextTokens(u, b));
    hide StringSimilarity, Jaccard, TextTokens, SameWords, IsBlank;
  }

  /** A key of the one is a key of the other, without regard to case. */
  predicate HasKey(u: Unicode, m: map<string, string>, key: string) {
    exists k :: k in m && ToLower(u, k) == key
  }

  ghost predicate SameKeys(u: Unicode, a: map<string, string>, b: map<string, string>) {
    forall key :: HasKey(u, a, key) <==> HasKey(u, b, key)
  }

  ghost predicate NoSharedKey(u: Unicode, a: map<string, string>, b: map<string, string>) {
    forall key :: !(HasKey(u, a, key) && HasKey(u, b, key))
  }

  lemma KeysAre(u: Unicode, m: map<string, string>, key: string)
    ensures key in LowerKeys(u, m) <==> HasKey(u, m, key)
    ensures LowerKeys(u, m) == {} <==> |m| == 0
  {
    hide ToLower;
    if m.Keys != {} {
      var k :| k in m;
      assert ToLower(u, k) in LowerKeys(u, m);
    }
  }

  lemma MapKeyExtremes(u: Unicode, a: map<string, string>, b: map<string, string>)
    ensures MapKeySimilarity(u, a, b) == Jaccard(LowerKeys(u, a), LowerKeys(u, b))
    ensures MapKeySimilarity(u, a, b) == 1.0 <==> SameKeys(u, a, b)
    ensures MapKeySimilarity(u, a, b) == 0.0 <==> (|a| > 0 || |b| > 0) && NoSharedKey(u, a, b)
  {
    hide LowerKeys, HasKey, SameKeys, NoSharedKey, Jaccard, Disjoint, MapKeySimilarity;
    KeyQuotient(u, a, b);
    KeysCompare(u, a, b);
    var ka, kb := LowerKeys(u, a), LowerKeys(u, b);
    assert ka + kb != {} <==> ka != {} || kb != {};
    JaccardIs(ka, kb);
  }

  lemma KeyQuotient(u: Unicode, a: map<string, string>, b: map<string, string>)
    ensures MapKeySimilarity(u, a, b) == Jaccard(LowerKeys(u, a), LowerKeys(u, b))
    ensures (LowerKeys(u, a) == {} <==> |a| == 0) && (LowerKeys(u, b) == {} <==> |b| == 0)
  {
    KeysAre(u, a, "");
    KeysAre(u, b, "");
    hide LowerKeys, HasKey;
  }

  lemma KeysCompare(u: Unicode, a: map<string, string>, b: map<string, string>)
    ensures LowerKeys(u, a) == LowerKeys(u, b) <==> SameKeys(u, a, b)
    ensures Disjoint(LowerKeys(u, a), LowerKeys(u, b)) <==> NoSharedKey(u, a, b)
  {
    var ka, kb := LowerKeys(u, a), LowerKeys(u, b);
    forall key ensures (key in ka <==> HasKey(u, a, key)) && (key in kb <==> HasKey(u, b, key)) {
      KeysAre(u, a, key);
      KeysAre(u, b, key);
    }
    hide LowerKeys, HasKey;
    assert ka == kb <==> SameKeys(u, a, b);
    assert Disjoint(ka, kb) <==> NoSharedKey(u, a, b);
  }

  /** A token of one of the values. */
  predicate HasToken(u: Unicode, m: map<string, string>, token: string) {
    exists k :: k in m && token in Tokens(u, m[k])
  }

  /** Full marks for attribute values: no attributes at all, or attributes with the same tokens. */
  ghost predicate SameValues(u: Unicode, a: map<string, string>, b: map<string, string>) {
    (|a| == 0 <==> |b| == 0) && forall token :: HasToken(u, a, token) <==> HasToken(u, b, token)
  }

  lemma AttrValueExtremes(u: Unicode, a: map<string, string>, b: map<string, string>)
    ensures |a| > 0 && |b| > 0 ==>
              AttrValueSimilarity(u, a, b) == Jaccard(AttrValueTokens(u, a), AttrValueTokens(u, b))
    ensures AttrValueSimilarity(u, a, b) == 1.0 <==> SameValues(u, a, b)
    ensures AttrValueSimilarity(u, a, b) == 0.0 <==>
            (|a| == 0 && |b| > 0) || (|a| > 0 && |b| == 0) ||
            ((exists token :: HasToken(u, a, token) || HasToken(u, b, token)) &&
             forall token :: !(HasToken(u, a, token) && HasToken(u, b, token)))
  {
    JaccardIs(AttrValueTokens(u, a), AttrValueTokens(u, b));
    NoAttributes(u, a);
    NoAttributes(u, b);
    ValuesCompare(u, a, b);
    hide AttrValueTokens, HasToken, Jaccard, Disjoint;
  }

  lemma ValuesCompare(u: Unicode, a: map<string, string>, b: map<string, string>)
    ensures var ta, tb := AttrValueTokens(u, a), AttrValueTokens(u, b);
            && (ta == tb <==> forall token :: HasToken(u, a, token) <==> HasToken(u, b, token))
            && (ta + tb != {} <==> exists token :: HasToken(u, a, token) || HasToken(u, b, token))
            && (Disjoint(ta, tb) <==> forall token :: !(HasToken(u, a, token) && HasToken(u, b, token)))
  {
    var ta, tb := AttrValueTokens(u, a), AttrValueTokens(u, b);
    assert forall token :: token in ta <==> HasToken(u, a, token);
    assert forall token :: token in tb <==> HasToken(u, b, token);
    hide AttrValueTokens, HasToken;
    if ta + tb != {} {
      var t :| t in ta + tb;
      assert t in ta || t in tb;
    }
    if t :| HasToken(u, a, t) || HasToken(u, b, t) { assert t in ta + tb; }
  }

  lemma NoAttributes(u: Unicode, m: map<string, string>)
    ensures |m| == 0 ==> AttrValueTokens(u, m) == {}
  {
    if |m| == 0 { assert m.Keys == {}; }
  }

  /** The four shares of the parent. */
  lemma ParentShares(u: Unicode, a: Fingerprint, b: Fingerprint)
    ensures 1.0 - ParentSimilarity(u, a, b) ==
            0.35 * (1.0 - ExactScore(u, a.parentTag, b.parentTag)) +
            0.25 * (1.0 - StringSimilarity(u, a.parentText, b.parentText)) +
            0.2 * (1.0 - MapKeySimilarity(u, a.parentAttributes, b.parentAttributes)) +
            0.2 * (1.0 - AttrValueSimilarity(u, a.parentAttributes, b.parentAttributes))
  {
    hide ExactScore, StringSimilarity, MapKeySimilarity, AttrValueSimilarity;
  }

  ghost predicate SameParent(u: Unicode, a: Fingerprint, b: Fingerprint) {
    && SameWords(u, a.parentTag, b.parentTag) && SameText(u, a.parentText, b.parentText)
    && SameKeys(u, a.parentAttributes, b.parentAttributes) && SameValues(u, a.parentAttributes, b.parentAttributes)
  }

  lemma ParentIsOne(u: Unicode, a: Fingerprint, b: Fingerprint)
    ensures ParentSimilarity(u, a, b) == 1.0 <==> SameParent(u, a, b)
  {
    ParentShares(u, a, b);
    ExactIs(u, a.parentTag, b.parentTag);
    StringExtremes(u, a.parentText, b.parentText);
    MapKeyExtremes(u, a.parentAttributes, b.parentAttributes);
    AttrValueExtremes(u, a.parentAttributes, b.parentAttributes);
    ExactUnit(u, a.parentTag, b.parentTag);
    StringUnit(u, a.parentText, b.parentText);
    MapKeyUnit(u, a.parentAttributes, b.parentAttributes);
    AttrValueUnit(u, a.parentAttributes, b.parentAttributes);
    hide SameWords, SameText, SameKeys, SameValues, ParentSimilarity, NoSharedKey, HasToken, IsBlank, TextTokens;
    hide ExactScore, StringSimilarity, MapKeySimilarity, AttrValueSimilarity, Jaccard;
  }

  // ---------- the whole score ----------

  /** What a score lacks: each part's weight times what that part lacks. */
  lemma ScoreShares(u: Unicode, a: Fingerprint, b: Fingerprint)
    ensures 1.0 - Similarity(u, a, b) ==
            0.22 * (1.0 - ExactScore(u, a.tag, b.tag)) +
            0.22 * (1.0 - StringSimilarity(u, a.text, b.text)) +
            0.11 * (1.0 - MapKeySimilarity(u, a.attributes, b.attributes)) +
            0.14 * (1.0 - AttrValueSimilarity(u, a.attributes, b.attributes)) +
            0.12 * (1.0 - ParentSimilarity(u, a, b)) +
            0.05 * (1.0 - SequenceSimilarity(a.siblingTags, b.siblingTags)) +
            0.07 * (1.0 - SequenceSimilarity(a.pathTags, b.pathTags)) +
            0.07 * (1.0 - SequenceSimilarity(a.childrenTags, b.childrenTags))
  {
    TotalOf(u, a, b);
    hide Similarity, ExactScore, StringSimilarity, MapKeySimilarity, AttrValueSimilarity, ParentSimilarity,
      SequenceSimilarity;
  }

  /** Two fingerprints that no part of the score tells apart. */
  ghost predicate Alike(u: Unicode, a: Fingerprint, b: Fingerprint) {
    && SameWords(u, a.tag, b.tag) && SameText(u, a.text, b.text)
    && SameKeys(u, a.attributes, b.attributes) && SameValues(u, a.attributes, b.attributes)
    && SameParent(u, a, b)
    && a.siblingTags == b.siblingTags && a.pathTags == b.pathTags && a.childrenTags == b.childrenTags
  }

  /** A score is 1 exactly for fingerprints that are alike in every part. */
  lemma OneIffAlike(u: Unicode, a: Fingerprint, b: Fingerprint)
    ensures Similarity(u, a, b) <= 1.0 && (Similarity(u, a, b) == 1.0 <==> Alike(u, a, b))
  {
    ScoreShares(u, a, b);
    ExactIs(u, a.tag, b.tag);
    StringExtremes(u, a.text, b.text);
    MapKeyExtremes(u, a.attributes, b.attributes);
    AttrValueExtremes(u, a.attributes, b.attributes);
    ParentIsOne(u, a, b);
    SequenceUnit(a.siblingTags, b.siblingTags);
    SequenceUnit(a.pathTags, b.pathTags);
    SequenceUnit(a.childrenTags, b.childrenTags);
    StringUnit(u, a.text, b.text);
    MapKeyUnit(u, a.attributes, b.attributes);
    AttrValueUnit(u, a.attributes, b.attributes);
    ParentUnit(u, a, b);
    hide SameWords, SameText, SameKeys, SameValues, SameParent, NoSharedKey, HasToken, IsBlank, TextTokens, Jaccard;
    hide Similarity, ExactScore, StringSimilarity, MapKeySimilarity, AttrValueSimilarity, ParentSimilarity,
      SequenceSimilarity;
  }

  /** An element that differs in its tag alone scores 1 - 0.22. */
  lemma OtherTagCosts(u: Unicode, a: Fingerprint, tag: string)
    ensures Similarity(u, a.(tag := tag), a) == if SameWords(u, tag, a.tag) then 1.0 else 0.78
  {
    var b := a.(tag := tag);
    ScoreShares(u, b, a);
    ExactIs(u, tag, a.tag);
    StringUnit(u, a.text, a.text);
    MapKeyUnit(u, a.attributes, a.attributes);
    AttrValueUnit(u, a.attributes, a.attributes);
    SameParents(u, b, a);
    SequenceUnit(a.siblingTags, a.siblingTags);
    SequenceUnit(a.pathTags, a.pathTags);
    SequenceUnit(a.childrenTags, a.childrenTags);
    hide SameWords, Similarity, ExactScore, StringSimilarity, MapKeySimilarity, AttrValueSimilarity, ParentSimilarity,
      SequenceSimilarity;
  }

  lemma SameParents(u: Unicode, a: Fingerprint, b: Fingerprint)
    requires a.parentTag == b.parentTag && a.parentText == b.parentText && a.parentAttributes == b.parentAttributes
    ensures ParentSimilarity(u, a, b) == 1.0
  {
    ParentShares(u, a, b);
    ExactUnit(u, a.parentTag, b.parentTag);
    StringUnit(u, a.parentText, b.parentText);
    MapKeyUnit(u, a.parentAttributes, b.parentAttributes);
    AttrValueUnit(u, a.parentAttributes, b.parentAttributes);
  }

  /** Sequences: the longest common subsequence over the longer list, and 0 exactly when one of them is not
      empty and they share no tag. */
  lemma SequenceIs(a: seq<string>, b: seq<string>)
    ensures SequenceSimilarity(a, b) * Lcs.Max(|a|, |b|) as real == Lcs.Length(a, b) as real
    ensures SequenceSimilarity(a, b) == 0.0 <==> (a != [] || b != []) && forall t :: !(t in a && t in b)
  {
    NoneShared(a, b);
    if a == [] || b == [] { EmptySequence(a, b); } else { SequenceQuotient(a, b); }
    hide Lcs.Length, SequenceSimilarity, Lcs.Max;
  }

  lemma SequenceQuotient(a: seq<string>, b: seq<string>)
    requires a != [] && b != []
    ensures SequenceSimilarity(a, b) * Lcs.Max(|a|, |b|) as real == Lcs.Length(a, b) as real
    ensures SequenceSimilarity(a, b) == 0.0 <==> Lcs.Length(a, b) == 0
  {
    hide Lcs.Length;
    Quotient(Lcs.Length(a, b), Lcs.Max(|b|, |a|));
  }

  lemma EmptySequence(a: seq<string>, b: seq<string>)
    requires a == [] || b == []
    ensures SequenceSimilarity(a, b) * Lcs.Max(|a|, |b|) as real == Lcs.Length(a, b) as real
    ensures SequenceSimilarity(a, b) == 0.0 <==> a != [] || b != []
  {
  }

  lemma {:induction false} NoneShared(a: seq<string>, b: seq<string>)
    ensures Lcs.Length(a, b) == 0 <==> forall t :: !(t in a && t in b)
    decreases |a| + |b|
  {
    if a != [] && b != [] {
      var a', b' := a[..|a| - 1], b[..|b| - 1];
      var x, y := a[|a| - 1], b[|b| - 1];
      assert a == a' + [x] && b == b' + [y];
      if x == y {
        assert x in a && x in b;
      } else {
        NoneShared(a', b);
        NoneShared(a, b');
        assert forall t :: t in a <==> t in a' || t == x;
        assert forall t :: t in b <==> t in b' || t == y;
      }
    }
  }
}
