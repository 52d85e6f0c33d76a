/** Testing for a class token with contains() on a padded, normalized attribute value. */
module ClassTokens {
  import opened Text
  import opened XPathEval

  /** The white space of Selectors Level 3 section 4 and of HTML's class attribute: XPath's and form
      feed. */
  predicate IsCssSpace(c: char) {
    IsXmlSpace(c) || c == FORM_FEED
  }

  const FORM_FEED := 12 as char

  /** The class tokens of an attribute value. */
  function CssTokens(value: string): seq<string> {
    FieldsFrom(c => !IsCssSpace(c), value, "")
  }

  /** A token that a class selector can name. */
  predicate IsToken(c: string) {
    c != "" && forall i :: 0 <= i < |c| ==> !IsCssSpace(c[i])
  }

  function Padded(value: string): string {
    " " + NormalizeXml(value) + " "
  }

  /** contains(concat(' ', normalize-space(@class), ' '), ' c ') */
  predicate ClassTest(value: string, c: string) {
    Contains(Padded(value), " " + c + " ")
  }

  // ---------- fields ----------

  /** Fields are not empty and have no separator inside. */
  lemma {:induction false} FieldsAreClean(keep: char -> bool, s: string, current: string)
    requires forall i :: 0 <= i < |current| ==> keep(current[i])
    ensures forall f :: f in FieldsFrom(keep, s, current) ==> f != "" && forall i :: 0 <= i < |f| ==> keep(f[i])
    decreases s
  {
    if s != "" {
      if keep(s[0]) {
        FieldsAreClean(keep, s[1..], current + [s[0]]);
      } else {
        FieldsAreClean(keep, s[1..], "");
      }
    }
  }

  /** Two ways to tell separators that agree on a text split it alike. */
  lemma {:induction false} FieldsAgree(a: char -> bool, b: char -> bool, s: string, current: string)
    requires forall i :: 0 <= i < |s| ==> a(s[i]) == b(s[i])
    ensures FieldsFrom(a, s, current) == FieldsFrom(b, s, current)
    decreases s
  {
    if s != "" {
      FieldsAgree(a, b, s[1..], if a(s[0]) then current + [s[0]] else "");
    }
  }

  /** A field of the coarser split that has no form feed is a field of the finer one.  `fine` is the
      finer split's part of `coarse`, which a form feed may have cut short. */
  lemma {:induction false} CoarseField(s: string, coarse: string, fine: string, t: string)
    requires FORM_FEED in coarse || fine == coarse
    requires t in FieldsFrom(c => !IsXmlSpace(c), s, coarse) && FORM_FEED !in t
    ensures t in FieldsFrom(c => !IsCssSpace(c), s, fine)
    decreases s
  {
    if s != "" {
      if s[0] == FORM_FEED {
        CoarseField(s[1..], coarse + [s[0]], "", t);
      } else if !IsXmlSpace(s[0]) {
        CoarseField(s[1..], coarse + [s[0]], fine + [s[0]], t);
      } else if t in FieldsFrom(c => !IsXmlSpace(c), s[1..], "") {
        CoarseField(s[1..], "", "", t);
      }
    }
  }

  // ---------- contains on padded fields ----------

  /** The fields, each followed by a space. */
  function Trail(fields: seq<string>): string {
    if fields == [] then "" else fields[0] + " " + Trail(fields[1..])
  }

  lemma {:induction false} JoinIsTrail(fields: seq<string>)
    requires fields != []
    ensures Join(fields, " ") + " " == Trail(fields)
  {
    if |fields| == 1 {
      assert Trail(fields[1..]) == "";
      assert fields[0] + " " + "" == fields[0] + " ";
    } else {
      JoinIsTrail(fields[1..]);
      assert fields[0] + " " + Join(fields[1..], " ") + " " == fields[0] + " " + (Join(fields[1..], " ") + " ");
    }
  }

  ghost predicate Spaceless(f: string) {
    f != "" && ' ' !in f
  }

  /** Somewhere in a padded list of fields `c` stands between spaces exactly if it is a field. */
  lemma {:induction false} TrailContains(fields: seq<string>, c: string)
    requires Spaceless(c) && forall f :: f in fields ==> Spaceless(f)
    ensures Contains(" " + Trail(fields), " " + c + " ") <==> c in fields
  {
    var text, word := " " + Trail(fields), " " + c + " ";
    if fields == [] {
      assert |text| < |word|;
    } else {
      var rest := " " + Trail(fields[1..]);
      assert text == " " + fields[0] + rest;
      TrailContains(fields[1..], c);
      HeadMatch(fields[0], rest, c);
      InnerMatch(fields[0], rest, c);
      assert fields == [fields[0]] + fields[1..];
    }
  }

  /** At the first place the padded word matches just when it is the first field. */
  lemma HeadMatch(f: string, rest: string, c: string)
    requires Spaceless(f) && Spaceless(c) && rest != "" && rest[0] == ' '
    ensures HasPrefix(" " + f + rest, " " + c + " ") <==> f == c
  {
    var text, word := " " + f + rest, " " + c + " ";
    assert HasPrefix(text, word) ==> forall i :: 0 <= i < |word| ==> text[i] == text[..|word|][i] == word[i];
    if |c| < |f| {
      assert f[|c|] in f;
      assert text[|c| + 1] == f[|c|] && word[|c| + 1] == ' ';
    } else if |f| < |c| {
      assert c[|f|] in c;
      assert word[|f| + 1] == c[|f|] && text[|f| + 1] == ' ';
    } else {
      assert forall i :: 0 <= i < |f| ==> f[i] == text[i + 1] && c[i] == word[i + 1];
      if f == c { assert text[..|word|] == word; }
    }
  }

  /** Any other match lies in the rest, because the first field has no space. */
  lemma InnerMatch(f: string, rest: string, c: string)
    requires Spaceless(f) && Spaceless(c) && rest != "" && rest[0] == ' '
    ensures Contains(" " + f + rest, " " + c + " ") <==>
            HasPrefix(" " + f + rest, " " + c + " ") || Contains(rest, " " + c + " ")
  {
    var text, word := " " + f + rest, " " + c + " ";
    assert text[0..] == text;
    forall i | 1 <= i <= |f| ensures text[i] != ' ' {
      assert text[i] == f[i - 1] && f[i - 1] in f;
    }
    if i :| 0 <= i <= |text| - |word| && HasPrefix(text[i..], word) {
      if i > 0 {
        assert text[i] == text[i..][..|word|][0] == ' ';
        assert text[i..] == rest[i - 1 - |f|..];
      }
    }
    if i :| 0 <= i <= |rest| - |word| && HasPrefix(rest[i..], word) {
      assert text[i + 1 + |f|..] == rest[i..];
    }
  }

  /** The test is true exactly for the fields that XPath sees. */
  lemma TestIsXmlField(value: string, c: string)
    requires IsToken(c)
    ensures ClassTest(value, c) <==> c in XmlFields(value)
  {
    var fields := XmlFields(value);
    FieldsAreClean(ch => !IsXmlSpace(ch), value, "");
    assert ' ' !in c;
    forall f | f in fields ensures Spaceless(f) {}
    if fields == [] {
      assert |Padded(value)| == 2;
    } else {
      JoinIsTrail(fields);
      assert Padded(value) == " " + Trail(fields);
      TrailContains(fields, c);
    }
  }

  /** The test never accepts what is not a class token. */
  lemma TestIsSound(value: string, c: string)
    requires IsToken(c) && ClassTest(value, c)
    ensures c in CssTokens(value)
  {
    TestIsXmlField(value, c);
    assert FORM_FEED !in c;
    CoarseField(value, "", "", c);
  }

  /** On a value without form feeds the test is true exactly for class tokens. */
  lemma TestIsExact(value: string, c: string)
    requires IsToken(c) && FORM_FEED !in value
    ensures ClassTest(value, c) <==> c in CssTokens(value)
  {
    TestIsXmlField(value, c);
    FieldsAgree(ch => !IsXmlSpace(ch), ch => !IsCssSpace(ch), value, "");
  }

  /** A form feed is a separator for CSS but not for XPath: here the test misses a token. */
  lemma FormFeedIsMissed(c: string)
    requires IsToken(c)
    ensures c in CssTokens(c + [FORM_FEED]) && !ClassTest(c + [FORM_FEED], c)
  {
    var value := c + [FORM_FEED];
    OneField(ch => !IsCssSpace(ch), c, "", [FORM_FEED]);
    OneField(ch => !IsXmlSpace(ch), value, "", "");
    assert "" + c == c && "" + value == value && value + "" == value;
    assert [FORM_FEED][1..] == "";
    TestIsXmlField(value, c);
  }

  /** Text without separators is read into the current field. */
  lemma {:induction false} OneField(keep: char -> bool, s: string, current: string, rest: string)
    requires forall i :: 0 <= i < |s| ==> keep(s[i])
    ensures FieldsFrom(keep, s + rest, current) == FieldsFrom(keep, rest, current + s)
    decreases s
  {
    if s == "" {
      assert s + rest == rest && current + s == current;
    } else {
      assert (s + rest)[1..] == s[1..] + rest;
      OneField(keep, s[1..], current + [s[0]], rest);
      assert current + [s[0]] + s[1..] == current + s;
    }
  }
}
