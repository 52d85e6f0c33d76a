/** Which agents a user agent matches. */
module RobotsAgents {
  import opened Text
  import opened TextFields
  import opened Robots
  import opened RobotsPattern

  predicate IsPunctuation(c: char) {
    c == '(' || c == ')' || c == ';' || c == ','
  }

  ghost predicate AllPunctuation(s: string) {
    forall c :: c in s ==> IsPunctuation(c)
  }

  /** The product of a word of the user agent: what stands before the first slash, without the punctuation around
      it. */
  ghost predicate IsProduct(word: string, product: string) {
    && product != "" && !IsPunctuation(product[0]) && !IsPunctuation(product[|product| - 1])
    && '/' !in product
    && exists lead: string, tail: string, more: string :: IsWrapped(word, lead, product, tail, more)
  }

  ghost predicate IsWrapped(word: string, lead: string, product: string, tail: string, more: string) {
    && word == lead + product + tail + more && AllPunctuation(lead) && AllPunctuation(tail)
    && (more == "" || more[0] == '/')
  }

  /** TrimPunctuation leaves what is between two runs of punctuation. */
  lemma {:induction false} TrimFinds(s: string) returns (lead: string, tail: string)
    ensures s == lead + TrimPunctuation(s) + tail && AllPunctuation(lead) && AllPunctuation(tail)
    ensures var t := TrimPunctuation(s); t != "" ==> !IsPunctuation(t[0]) && !IsPunctuation(t[|t| - 1])
    decreases |s|
  {
    if s != "" && s[0] in "();," {
      lead, tail := TrimFinds(s[1..]);
      MoreBefore(s, lead, TrimPunctuation(s[1..]), tail);
      lead := [s[0]] + lead;
    } else if s != "" && s[|s| - 1] in "();," {
      lead, tail := TrimFinds(s[..|s| - 1]);
      MoreBehind(s, lead, TrimPunctuation(s[..|s| - 1]), tail);
      tail := tail + [s[|s| - 1]];
    } else {
      lead, tail := "", "";
      assert s == "" + s + "";
    }
  }

  lemma MoreBefore(s: string, lead: string, t: string, tail: string)
    requires s != "" && s[1..] == lead + t + tail
    ensures s == [s[0]] + lead + t + tail
  {
  }

  lemma MoreBehind(s: string, lead: string, t: string, tail: string)
    requires s != "" && s[..|s| - 1] == lead + t + tail
    ensures s == lead + t + (tail + [s[|s| - 1]])
  {
  }

  /** And nothing else. */
  lemma {:induction false} TrimIs(lead: string, t: string, tail: string)
    requires AllPunctuation(lead) && AllPunctuation(tail)
    requires t != "" && !IsPunctuation(t[0]) && !IsPunctuation(t[|t| - 1])
    ensures TrimPunctuation(lead + t + tail) == t
    decreases |lead| + |tail|
  {
    var s := lead + t + tail;
    if lead != "" {
      assert s[0] == lead[0] && lead[0] in lead;
      assert s[1..] == lead[1..] + t + tail;
      TrimIs(lead[1..], t, tail);
    } else if tail != "" {
      var init := tail[..|tail| - 1];
      assert s[0] == t[0];
      assert s[|s| - 1] == tail[|tail| - 1] && tail[|tail| - 1] in tail;
      assert s[..|s| - 1] == lead + t + init;
      TrimIs(lead, t, init);
    } else {
      assert s == t;
    }
  }

  lemma BeforeSlash(word: string)
    ensures '/' !in Before(word, "/")
    ensures var b := Before(word, "/"); b <= word && (word[|b|..] == "" || word[|b|] == '/')
  {
    IndexIsFirst(word);
  }

  lemma {:induction false} IndexIsFirst(word: string)
    ensures Index(word, "/") == -1 ==> '/' !in word
    ensures var i := Index(word, "/"); i >= 0 ==> '/' !in word[..i] && word[i] == '/'
  {
    if word != "" {
      if word[0] == '/' {
        assert HasPrefix(word, "/");
      } else {
        assert !HasPrefix(word, "/") by { assert |word| >= 1 && word[..1] == [word[0]]; }
        IndexIsFirst(word[1..]);
        assert word == [word[0]] + word[1..];
        var i := Index(word[1..], "/");
        if i >= 0 { assert word[..i + 1] == [word[0]] + word[1..][..i]; }
      }
    }
  }

  lemma BeforeIs(head: string, more: string)
    requires '/' !in head && (more == "" || more[0] == '/')
    ensures Before(head + more, "/") == head
  {
    if more == "" {
      assert head + more == head;
      NotContained(head, "/");
      NoIndex(head, "/");
    } else {
      assert head + more == head + "/" + more[1..];
      FirstIndex(head, "/", more[1..]);
    }
  }

  lemma ProductIs(word: string, product: string)
    ensures IsProduct(word, product) <==> product != "" && TrimPunctuation(Before(word, "/")) == product
  {
    if IsProduct(word, product) { ProductIsTrimmed(word, product); }
    if product != "" && TrimPunctuation(Before(word, "/")) == product { TrimmedIsProduct(word, product); }
  }

  lemma ProductIsTrimmed(word: string, product: string)
    requires IsProduct(word, product)
    ensures TrimPunctuation(Before(word, "/")) == product
  {
    var lead, tail, more :| IsWrapped(word, lead, product, tail, more);
    NoSlash(lead);
    NoSlash(tail);
    hide AllPunctuation, TrimPunctuation, Before, IsPunctuation;
    BeforeIs(lead + product + tail, more);
    TrimIs(lead, product, tail);
  }

  lemma NoSlash(s: string)
    requires AllPunctuation(s)
    ensures '/' !in s
  {
  }

  lemma TrimmedIsProduct(word: string, product: string)
    requires product != "" && TrimPunctuation(Before(word, "/")) == product
    ensures IsProduct(word, product)
  {
    hide AllPunctuation, TrimPunctuation, Before, IsPunctuation;
    var b := Before(word, "/");
    BeforeSlash(word);
    var lead, tail := TrimFinds(b);
    var more := word[|b|..];
    assert word == b + more;
    assert word == lead + product + tail + more;
    Inside(lead, product, tail);
    assert IsWrapped(word, lead, product, tail, more);
  }

  lemma Inside(lead: string, product: string, tail: string)
    requires '/' !in lead + product + tail
    ensures '/' !in product
  {
    forall c | c in product ensures c in lead + product + tail {
      var i :| 0 <= i < |product| && product[i] == c;
      assert (lead + product + tail)[|lead| + i] == c;
    }
  }

  lemma {:induction false} TokensAre(fields: seq<string>, product: string)
    ensures product in ProductTokens(fields) <==> exists w :: w in fields && IsProduct(w, product)
  {
    if fields != [] {
      TokensAre(fields[1..], product);
      ProductIs(fields[0], product);
      assert forall w :: w in fields <==> w == fields[0] || w in fields[1..];
    }
  }

  /** A named agent scores exactly when it is a prefix of the product of some word of the user agent, lower-cased. */
  lemma NamedAgentMatches(u: Unicode, userAgent: string, agent: string)
    requires agent != "" && agent != "*"
    ensures AgentScore(agent, UserAgentTokens(u, userAgent)) > 0 <==>
            exists w, p :: w in Fields(ToLower(u, userAgent)) && IsProduct(w, p) && HasPrefix(p, agent)
  {
    var ua := TrimSpace(ToLower(u, userAgent));
    var tokens := UserAgentTokens(u, userAgent);
    FieldsTrim(ToLower(u, userAgent));
    hide TrimPunctuation, IsProduct, ProductTokens;
    if ua == "" {
      StarToken(agent);
    } else {
      if i :| 0 <= i < |tokens| && HasPrefix(tokens[i], agent) {
        TokensAre(Fields(ua), tokens[i]);
      }
      if w, p :| w in Fields(ua) && IsProduct(w, p) && HasPrefix(p, agent) {
        TokensAre(Fields(ua), p);
        var i :| 0 <= i < |tokens| && tokens[i] == p;
      }
    }
  }

  /** A blank user agent counts as *, which no named agent matches. */
  lemma StarToken(agent: string)
    requires agent != "" && agent != "*"
    ensures AgentScore(agent, ProductTokens(Fields("*"))) == -1
  {
    ReadWord(c => !IsSpace(c), "*", "", "");
    assert "*" + "" == "*" && "" + "*" == "*";
    assert Fields("*") == ["*"];
    ProductIs("*", "*");
    BeforeIs("*", "");
    assert ProductTokens(["*"][1..]) == [];
    assert HasPrefix("*", agent) ==> agent == "*";
  }

  // ---------- the length of a rule ----------

  /** Stars and a final dollar sign do not count, every other character counts its bytes. */
  lemma RuleLengthCounts(p: string, c: char)
    requires '$' !in p
    ensures RuleLength("") == 0 && RuleLength(p + "$") == RuleLength(p) && RuleLength(p + "*") == RuleLength(p)
    ensures c != '*' && c != '$' ==> RuleLength(p + [c]) == RuleLength(p) + ByteLength([c])
  {
    assert TrimDollar("") == "";
    NoDollarAtEnd(p);
    NoDollar(p);
    DollarGoes(p);
    NoDollar(p + "*");
    StarCounts(p);
    if c != '*' && c != '$' {
      NoDollar(p + [c]);
      CharCounts(p, c);
    }
    hide WithoutStars, ByteLength, TrimDollar;
  }

  lemma NoDollarAtEnd(p: string)
    requires '$' !in p
    ensures p == "" || p[|p| - 1] != '$'
  {
  }

  lemma StarCounts(p: string)
    ensures WithoutStars(p + "*") == WithoutStars(p) && ByteLength(WithoutStars("")) == 0
  {
    StarsAppend(p, "*");
    assert WithoutStars("*") == "" by { assert "*"[1..] == ""; }
    assert WithoutStars(p) + "" == WithoutStars(p);
  }

  lemma CharCounts(p: string, c: char)
    requires c != '*'
    ensures ByteLength(WithoutStars(p + [c])) == ByteLength(WithoutStars(p)) + ByteLength([c])
  {
    StarsAppend(p, [c]);
    assert WithoutStars([c]) == [c] by { assert [c][1..] == ""; }
    BytesAppend(WithoutStars(p), [c]);
  }

  lemma NoDollar(p: string)
    requires p == "" || p[|p| - 1] != '$'
    ensures TrimDollar(p) == p
  {
    if p != "" { assert p[|p| - 1..] == [p[|p| - 1]]; }
  }

  lemma DollarGoes(p: string)
    ensures TrimDollar(p + "$") == p
  {
    var s := p + "$";
    assert s[|s| - 1..] == "$" && s[..|s| - 1] == p;
  }

  lemma {:induction false} StarsAppend(a: string, b: string)
    ensures WithoutStars(a + b) == WithoutStars(a) + WithoutStars(b)
  {
    if a == "" {
      assert a + b == b;
    } else {
      assert (a + b)[1..] == a[1..] + b;
      StarsAppend(a[1..], b);
    }
  }

  lemma {:induction false} BytesAppend(a: string, b: string)
    ensures ByteLength(a + b) == ByteLength(a) + ByteLength(b)
  {
    if a == "" {
      assert a + b == b;
    } else {
      assert (a + b)[1..] == a[1..] + b;
      BytesAppend(a[1..], b);
    }
  }
}
