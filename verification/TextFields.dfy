/** What the fields of a text are: its maximal runs of kept characters. */
module TextFields {
  import opened Text

  /** Words with gaps before, between and after them. */
  function Laid(gaps: seq<string>, words: seq<string>): string
    requires |gaps| == |words| + 1
  {
    if words == [] then gaps[0] else gaps[0] + words[0] + Laid(gaps[1..], words[1..])
  }

  /** The words are the maximal runs of kept characters: each has only such, no gap has any, and two words are
      never side by side. */
  predicate IsLayout(keep: char -> bool, gaps: seq<string>, words: seq<string>) {
    && |gaps| == |words| + 1
    && (forall i :: 0 <= i < |words| ==> words[i] != "" && forall c :: c in words[i] ==> keep(c))
    && (forall i :: 0 <= i < |gaps| ==> forall c :: c in gaps[i] ==> !keep(c))
    && (forall i :: 0 < i < |words| ==> gaps[i] != "")
  }

  lemma {:induction false} ReadWord(keep: char -> bool, word: string, rest: string, current: string)
    requires forall c :: c in word ==> keep(c)
    ensures FieldsFrom(keep, word + rest, current) == FieldsFrom(keep, rest, current + word)
    decreases word
  {
    if word == "" {
      assert word + rest == rest && current + word == current;
    } else {
      assert (word + rest)[0] == word[0] && (word + rest)[1..] == word[1..] + rest;
      ReadWord(keep, word[1..], rest, current + [word[0]]);
      assert current + [word[0]] + word[1..] == current + word;
    }
  }

  lemma {:induction false} ReadGap(keep: char -> bool, gap: string, rest: string)
    requires forall c :: c in gap ==> !keep(c)
    ensures FieldsFrom(keep, gap + rest, "") == FieldsFrom(keep, rest, "")
    decreases gap
  {
    if gap == "" {
      assert gap + rest == rest;
    } else {
      assert (gap + rest)[0] == gap[0] && (gap + rest)[1..] == gap[1..] + rest;
      ReadGap(keep, gap[1..], rest);
    }
  }

  /** A word ends where a gap or the text ends it. */
  lemma WordEnds(keep: char -> bool, word: string, rest: string)
    requires word != "" && (rest == "" || !keep(rest[0]))
    ensures FieldsFrom(keep, rest, word) == [word] + FieldsFrom(keep, rest, "")
  {
  }

  lemma LayoutRest(keep: char -> bool, gaps: seq<string>, words: seq<string>)
    requires IsLayout(keep, gaps, words) && words != []
    ensures IsLayout(keep, gaps[1..], words[1..])
    ensures var rest := Laid(gaps[1..], words[1..]); rest == "" || !keep(rest[0])
  {
    var rest := Laid(gaps[1..], words[1..]);
    if |words| > 1 {
      assert gaps[1] != "" && rest == gaps[1] + (words[1] + Laid(gaps[2..], words[2..])) by {
        assert gaps[1..][1..] == gaps[2..] && words[1..][1..] == words[2..];
      }
      assert rest[0] == gaps[1][0] && gaps[1][0] in gaps[1];
    } else {
      assert rest == gaps[1];
      assert rest != "" ==> rest[0] in gaps[1];
    }
  }

  /** Fields gives the maximal runs, in order. */
  lemma {:induction false} FieldsOfLayout(keep: char -> bool, gaps: seq<string>, words: seq<string>)
    requires IsLayout(keep, gaps, words)
    ensures FieldsFrom(keep, Laid(gaps, words), "") == words
    decreases words
  {
    if words == [] {
      ReadGap(keep, gaps[0], "");
      assert gaps[0] + "" == gaps[0];
    } else {
      var rest := Laid(gaps[1..], words[1..]);
      LayoutRest(keep, gaps, words);
      assert gaps[0] + words[0] + rest == gaps[0] + (words[0] + rest);
      ReadGap(keep, gaps[0], words[0] + rest);
      ReadWord(keep, words[0], rest, "");
      assert "" + words[0] == words[0];
      WordEnds(keep, words[0], rest);
      FieldsOfLayout(keep, gaps[1..], words[1..]);
    }
  }

  /** Every text is laid out so. */
  lemma {:induction false} TextHasLayout(keep: char -> bool, s: string) returns (gaps: seq<string>, words: seq<string>)
    ensures IsLayout(keep, gaps, words) && Laid(gaps, words) == s
    ensures s != "" && keep(s[0]) ==> gaps[0] == "" && words != []
    decreases s
  {
    if s == "" {
      gaps, words := [""], [];
    } else {
      var gaps', words' := TextHasLayout(keep, s[1..]);
      if !keep(s[0]) {
        gaps, words := [[s[0]] + gaps'[0]] + gaps'[1..], words';
        assert gaps[1..] == gaps'[1..];
      } else if |s| > 1 && keep(s[1]) {
        gaps, words := gaps', [[s[0]] + words'[0]] + words'[1..];
        assert words[1..] == words'[1..];
      } else {
        gaps, words := [""] + gaps', [[s[0]]] + words';
        assert gaps[1..] == gaps' && words[1..] == words';
        NextIsGap(keep, gaps', words');
      }
      assert s == [s[0]] + s[1..];
    }
  }

  lemma NextIsGap(keep: char -> bool, gaps: seq<string>, words: seq<string>)
    requires IsLayout(keep, gaps, words)
    ensures words != [] && gaps[0] == "" ==> Laid(gaps, words) != "" && keep(Laid(gaps, words)[0])
  {
    if words != [] && gaps[0] == "" {
      assert Laid(gaps, words)[0] == words[0][0];
      assert words[0][0] in words[0];
    }
  }

  // ---------- words separated by white space ----------

  predicate IsWord(w: string) {
    w != "" && forall c :: c in w ==> !IsSpace(c)
  }

  /** Single blanks between words. */
  function Blanks(n: nat): (gaps: seq<string>)
    ensures |gaps| == n + 1
    ensures forall i :: 0 <= i <= n ==> gaps[i] == if 0 < i < n then " " else ""
  {
    seq(n + 1, i requires 0 <= i <= n => if 0 < i < n then " " else "")
  }

  lemma {:induction false} JoinIsLaid(words: seq<string>, gaps: seq<string>)
    requires |gaps| == |words| + 1 && gaps[|words|] == "" && (words != [] ==> gaps[0] == "" || gaps[0] == " ")
    requires forall i :: 0 < i < |words| ==> gaps[i] == " "
    ensures Laid(gaps, words) == gaps[0] + Join(words, " ")
    decreases words
  {
    if |words| > 1 {
      JoinIsLaid(words[1..], gaps[1..]);
      assert gaps[0] + words[0] + (" " + Join(words[1..], " ")) == gaps[0] + Join(words, " ");
    } else if |words| == 1 {
      assert Laid(gaps[1..], words[1..]) == "" && gaps[0] + words[0] + "" == gaps[0] + words[0];
    } else {
      assert gaps[0] + "" == gaps[0];
    }
  }

  /** Splitting joined words gives them back. */
  lemma FieldsOfJoin(words: seq<string>)
    requires forall w :: w in words ==> IsWord(w)
    ensures Fields(Join(words, " ")) == words
  {
    var gaps := Blanks(|words|);
    JoinIsLaid(words, gaps);
    assert "" + Join(words, " ") == Join(words, " ");
    forall i | 0 <= i < |words| ensures IsWord(words[i]) { assert words[i] in words; }
    assert IsLayout(c => !IsSpace(c), gaps, words);
    FieldsOfLayout(c => !IsSpace(c), gaps, words);
  }

  lemma FieldsAreWords(s: string)
    ensures forall w :: w in Fields(s) ==> IsWord(w)
  {
    var gaps, words := TextHasLayout(c => !IsSpace(c), s);
    FieldsOfLayout(c => !IsSpace(c), gaps, words);
  }

  /** Two texts are the same up to white space exactly when they have the same words. */
  lemma NormalizedIffWords(s: string, t: string)
    ensures NormalizeSpace(s) == NormalizeSpace(t) <==> Fields(s) == Fields(t)
    ensures NormalizeSpace(s) == "" <==> Fields(s) == []
  {
    FieldsAreWords(s);
    FieldsAreWords(t);
    FieldsOfJoin(Fields(s));
    FieldsOfJoin(Fields(t));
    FieldsOfJoin([]);
  }

  lemma {:induction false} ReadTail(keep: char -> bool, s: string, c: char, current: string)
    requires !keep(c)
    ensures FieldsFrom(keep, s + [c], current) == FieldsFrom(keep, s, current)
    decreases s
  {
    if s == "" {
      assert s + [c] == [c] && [c][1..] == "";
    } else {
      assert (s + [c])[1..] == s[1..] + [c];
      ReadTail(keep, s[1..], c, current + [s[0]]);
      ReadTail(keep, s[1..], c, "");
    }
  }

  lemma {:induction false} FieldsTrimLeft(s: string)
    ensures Fields(TrimLeft(s)) == Fields(s)
  {
    if s != "" && IsSpace(s[0]) { FieldsTrimLeft(s[1..]); }
  }

  lemma {:induction false} FieldsTrimRight(s: string)
    ensures Fields(TrimRight(s)) == Fields(s)
  {
    if s != "" && IsSpace(s[|s| - 1]) {
      var init, last := s[..|s| - 1], s[|s| - 1];
      FieldsTrimRight(init);
      assert s == init + [last];
      ReadTail(c => !IsSpace(c), init, last, "");
    }
  }

  /** Outer white space makes no words. */
  lemma FieldsTrim(s: string)
    ensures Fields(TrimSpace(s)) == Fields(s)
    ensures TrimSpace(s) == "" <==> Fields(s) == []
  {
    FieldsTrimLeft(s);
    FieldsTrimRight(TrimLeft(s));
    var t := TrimSpace(s);
    TrimSpaceShortens(s);
    if t != "" {
      var gaps, words := TextHasLayout(c => !IsSpace(c), t);
      FieldsOfLayout(c => !IsSpace(c), gaps, words);
    }
  }
}
