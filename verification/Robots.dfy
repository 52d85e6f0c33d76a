/** The robots policy of a user agent. */
module Robots {
  import opened Wrappers
  import opened Text
  import opened RobotsPattern

  datatype Rate = Rate(requests: nat, period: nat)

  datatype Rule = Rule(pattern: string, allow: bool)

  datatype Group = Group(agents: seq<string>, rules: seq<Rule>, crawlDelay: nat, requestRate: Option<Rate>)

  const NO_GROUP := Group([], [], 0, None)

  // ---------- choosing groups ----------

  /** strings.Trim with the cut set of robotsUserAgentProductTokens. */
  function TrimPunctuation(s: string): string {
    if s != "" && s[0] in "();," then TrimPunctuation(s[1..])
    else if s != "" && s[|s| - 1] in "();," then TrimPunctuation(s[..|s| - 1])
    else s
  }

  function Before(s: string, separator: string): string {
    var i := Index(s, separator);
    if i == -1 then s else s[..i]
  }

  /** robotsUserAgentProductTokens of a lower-case user agent. */
  function ProductTokens(fields: seq<string>): seq<string> {
    if fields == [] then []
    else
      var product := TrimPunctuation(Before(fields[0], "/"));
      (if product != "" then [product] else []) + ProductTokens(fields[1..])
  }

  function UserAgentTokens(u: Unicode, userAgent: string): seq<string> {
    var ua := TrimSpace(ToLower(u, userAgent));
    ProductTokens(Fields(if ua == "" then "*" else ua))
  }

  /** robotsAgentMatchScore for an agent that the parser has lower-cased and trimmed. */
  function AgentScore(agent: string, tokens: seq<string>): (score: int)
    ensures score == -1 || score >= 1
    ensures score == 1 <==> agent == "*"
    ensures score > 1 ==> score == ByteLength(agent) + 1
  {
    if agent == "" then -1
    else if agent == "*" then 1
    else if exists i :: 0 <= i < |tokens| && HasPrefix(tokens[i], agent) then ByteLength(agent) + 1
    else -1
  }

  function GroupScore(agents: seq<string>, tokens: seq<string>): int {
    if agents == [] then -1
    else
      var best := GroupScore(agents[..|agents| - 1], tokens);
      var score := AgentScore(agents[|agents| - 1], tokens);
      if score > best then score else best
  }

  /** robotsGroupMatchScore */
  method GroupMatchScore(g: Group, tokens: seq<string>) returns (best: int)
    ensures best == GroupScore(g.agents, tokens)
  {
    best := -1;
    for i := 0 to |g.agents|
      invariant best == GroupScore(g.agents[..i], tokens)
    {
      assert g.agents[..i + 1][..i] == g.agents[..i];
      var score := AgentScore(g.agents[i], tokens);
      if score > best { best := score; }
    }
    assert g.agents[..|g.agents|] == g.agents;
  }

  /** The groups with score `best`, in file order. */
  function WithScore(groups: seq<Group>, tokens: seq<string>, best: int): seq<Group> {
    if groups == [] then []
    else
      var last := groups[|groups| - 1];
      WithScore(groups[..|groups| - 1], tokens, best) + if GroupScore(last.agents, tokens) == best then [last] else []
  }

  /** The highest score of any group, or -1. */
  function BestScore(groups: seq<Group>, tokens: seq<string>): (best: int)
    ensures best >= -1
    ensures forall g :: g in groups ==> GroupScore(g.agents, tokens) <= best
    ensures best >= 0 ==> exists g :: g in groups && GroupScore(g.agents, tokens) == best
  {
    if groups == [] then -1
    else
      var best := BestScore(groups[..|groups| - 1], tokens);
      var last := groups[|groups| - 1];
      var score := GroupScore(last.agents, tokens);
      assert groups == groups[..|groups| - 1] + [last];
      assert last in groups;
      if score > best then score else best
  }

  function Selected(groups: seq<Group>, tokens: seq<string>): seq<Group> {
    if BestScore(groups, tokens) < 0 then [] else WithScore(groups, tokens, BestScore(groups, tokens))
  }

  /** matchingGroups: one pass, starting over when a better group appears. */
  method MatchingGroups(groups: seq<Group>, tokens: seq<string>) returns (matches: seq<Group>)
    ensures matches == Selected(groups, tokens)
  {
    var best := -1;
    matches := [];
    for i := 0 to |groups|
      invariant best == BestScore(groups[..i], tokens) && matches == Selected(groups[..i], tokens)
    {
      assert groups[..i + 1][..i] == groups[..i];
      assert groups[i] in groups[..i + 1];
      var score := GroupMatchScore(groups[i], tokens);
      if score < 0 || score < best { continue; }
      if score > best {
        NoneAbove(groups[..i], tokens, score);
        best := score;
        matches := [];
      }
      matches := matches + [groups[i]];
    }
    assert groups[..|groups|] == groups;
  }

  lemma {:induction false} NoneAbove(groups: seq<Group>, tokens: seq<string>, score: int)
    requires score > BestScore(groups, tokens)
    ensures WithScore(groups, tokens, score) == []
  {
    if groups != [] { NoneAbove(groups[..|groups| - 1], tokens, score); }
  }

  lemma {:induction false} WithScoreMembers(groups: seq<Group>, tokens: seq<string>, best: int, g: Group)
    ensures g in WithScore(groups, tokens, best) <==> g in groups && GroupScore(g.agents, tokens) == best
  {
    if groups != [] {
      WithScoreMembers(groups[..|groups| - 1], tokens, best, g);
      assert groups == groups[..|groups| - 1] + [groups[|groups| - 1]];
    }
  }

  /** The chosen groups are exactly those with the highest score that is not negative. */
  lemma SelectedAreBest(groups: seq<Group>, tokens: seq<string>, g: Group)
    ensures g in Selected(groups, tokens) <==>
            g in groups && GroupScore(g.agents, tokens) >= 0 &&
            forall h :: h in groups ==> GroupScore(h.agents, tokens) <= GroupScore(g.agents, tokens)
  {
    WithScoreMembers(groups, tokens, BestScore(groups, tokens), g);
  }

  /** When some agent matches the user agent by name, no group that matches only through the wildcard
      is chosen. */
  lemma WildcardNeverMixes(groups: seq<Group>, tokens: seq<string>, specific: Group, agent: string, g: Group)
    requires specific in groups && agent in specific.agents && AgentScore(agent, tokens) > 1
    requires g in Selected(groups, tokens)
    ensures exists a :: a in g.agents && a != "*" && AgentScore(a, tokens) > 1
  {
    SelectedAreBest(groups, tokens, g);
    ScoreIsMax(specific.agents, tokens, agent);
    ScoreIsReached(g.agents, tokens);
  }

  lemma {:induction false} ScoreIsMax(agents: seq<string>, tokens: seq<string>, a: string)
    requires a in agents
    ensures AgentScore(a, tokens) <= GroupScore(agents, tokens)
  {
    if a != agents[|agents| - 1] { ScoreIsMax(agents[..|agents| - 1], tokens, a); }
  }

  lemma {:induction false} ScoreIsReached(agents: seq<string>, tokens: seq<string>)
    requires GroupScore(agents, tokens) > -1
    ensures exists a :: a in agents && AgentScore(a, tokens) == GroupScore(agents, tokens)
  {
    if AgentScore(agents[|agents| - 1], tokens) != GroupScore(agents, tokens) {
      ScoreIsReached(agents[..|agents| - 1], tokens);
      var a :| a in agents[..|agents| - 1] && AgentScore(a, tokens) == GroupScore(agents[..|agents| - 1], tokens);
      assert a in agents;
    } else {
      assert agents[|agents| - 1] in agents;
    }
  }

  // ---------- merging groups ----------

  function RateDelay(r: Option<Rate>): (delay: nat)
    ensures r.Some? && r.value.requests > 0 ==>
              delay * r.value.requests <= r.value.period < (delay + 1) * r.value.requests
    ensures r.None? ==> delay == 0
  {
    if r.Some? && r.value.requests > 0 then r.value.period / r.value.requests else 0
  }

  /** slowerRobotsRequestRate.  The parser only makes rates with at least one request. */
  function Slower(left: Option<Rate>, right: Option<Rate>): Option<Rate> {
    if left.None? then right
    else if right.None? then left
    else if RateDelay(right) > RateDelay(left) then right
    else left
  }

  function MergeOne(merged: Group, g: Group): Group {
    Group(merged.agents + g.agents, merged.rules + g.rules,
          if g.crawlDelay > merged.crawlDelay then g.crawlDelay else merged.crawlDelay,
          Slower(merged.requestRate, g.requestRate))
  }

  function Merged(groups: seq<Group>): Group {
    if groups == [] then NO_GROUP else MergeOne(Merged(groups[..|groups| - 1]), groups[|groups| - 1])
  }

  /** mergeRobotsGroups */
  method MergeGroups(groups: seq<Group>) returns (merged: Group)
    ensures merged == Merged(groups)
  {
    merged := NO_GROUP;
    for i := 0 to |groups|
      invariant merged == Merged(groups[..i])
    {
      assert groups[..i + 1][..i] == groups[..i];
      merged := MergeOne(merged, groups[i]);
    }
    assert groups[..|groups|] == groups;
  }

  lemma {:induction false} MergedRules(groups: seq<Group>, r: Rule)
    ensures r in Merged(groups).rules <==> exists g :: g in groups && r in g.rules
  {
    if groups != [] {
      MergedRules(groups[..|groups| - 1], r);
      assert groups == groups[..|groups| - 1] + [groups[|groups| - 1]];
    }
  }

  /** EffectiveDelay of the merged group. */
  function EffectiveDelay(configured: nat, g: Group): nat {
    var delay := if g.crawlDelay > configured then g.crawlDelay else configured;
    if RateDelay(g.requestRate) > delay then RateDelay(g.requestRate) else delay
  }

  /** The effective delay is the largest of the configured delay and every chosen group's crawl delay
      and request-rate delay, whatever the order of the groups. */
  lemma {:induction false} DelayIsLargest(configured: nat, groups: seq<Group>)
    ensures var delay := EffectiveDelay(configured, Merged(groups));
            && delay >= configured
            && (forall g :: g in groups ==> g.crawlDelay <= delay && RateDelay(g.requestRate) <= delay)
            && (delay == configured ||
                exists g :: g in groups && (g.crawlDelay == delay || RateDelay(g.requestRate) == delay))
  {
    if groups != [] {
      var init, last := groups[..|groups| - 1], groups[|groups| - 1];
      DelayIsLargest(configured, init);
      assert groups == init + [last];
    }
  }

  // ---------- the decision ----------

  /** robotsRuleLength: bytes of the pattern without its stars and end anchor. */
  function RuleLength(pattern: string): nat {
    ByteLength(WithoutStars(TrimDollar(pattern)))
  }

  function WithoutStars(s: string): string {
    if s == "" then "" else (if s[0] == '*' then "" else [s[0]]) + WithoutStars(s[1..])
  }

  predicate Applies(r: Rule, path: string) {
    PatternMatches(r.pattern, path)
  }

  /** Access is allowed when no rule applies, or when some allow rule is among the longest that do. */
  ghost predicate RulesAllow(rules: set<Rule>, path: string) {
    || (forall r :: r in rules ==> !Applies(r, path))
    || (exists r :: r in rules && r.allow && Applies(r, path) &&
          forall q :: q in rules && Applies(q, path) ==> RuleLength(q.pattern) <= RuleLength(r.pattern))
  }

  ghost function RuleSet(rules: seq<Rule>): set<Rule> {
    set r | r in rules
  }

  /** The loop state of canFetch after the given rules: the longest match so far and its verdict. */
  function LongestMatch(rules: seq<Rule>, path: string): (int, bool) {
    if rules == [] then (-1, true)
    else
      var best := LongestMatch(rules[..|rules| - 1], path);
      var rule := rules[|rules| - 1];
      var length := RuleLength(rule.pattern);
      if Applies(rule, path) && (length > best.0 || (length == best.0 && rule.allow)) then (length, rule.allow)
      else best
  }

  /** Longest-match loop of canFetch over the merged group's rules. */
  method Decide(rules: seq<Rule>, path: string) returns (allowed: bool)
    ensures allowed == RulesAllow(RuleSet(rules), path)
  {
    var bestLength: int := -1;
    var bestAllow := true;
    for i := 0 to |rules|
      invariant (bestLength, bestAllow) == LongestMatch(rules[..i], path)
    {
      assert rules[..i + 1][..i] == rules[..i];
      if !Applies(rules[i], path) { continue; }
      var length := RuleLength(rules[i].pattern);
      if length > bestLength || (length == bestLength && rules[i].allow) {
        bestLength, bestAllow := length, rules[i].allow;
      }
    }
    assert rules[..|rules|] == rules;
    LongestMatchDecides(rules, path);
    if bestLength == -1 { return true; }
    return bestAllow;
  }

  /** What the loop state means. */
  lemma {:induction false} LongestMatchIs(rules: seq<Rule>, path: string)
    ensures var (length, allow) := LongestMatch(rules, path);
            && length >= -1
            && (forall r :: r in rules && Applies(r, path) ==> RuleLength(r.pattern) <= length)
            && (length >= 0 ==> exists r :: r in rules && Applies(r, path) && RuleLength(r.pattern) == length)
            && (length >= 0 ==>
                (allow <==> exists r :: r in rules && r.allow && Applies(r, path) && RuleLength(r.pattern) == length))
  {
    if rules != [] {
      hide Applies, RuleLength;
      var init, rule := rules[..|rules| - 1], rules[|rules| - 1];
      LongestMatchIs(init, path);
      assert forall r :: r in rules <==> r in init || r == rule;
    }
  }

  lemma LongestMatchDecides(rules: seq<Rule>, path: string)
    ensures RulesAllow(RuleSet(rules), path) <==>
            LongestMatch(rules, path).0 == -1 || LongestMatch(rules, path).1
  {
    hide Applies, RuleLength, LongestMatch;
    LongestMatchIs(rules, path);
    assert forall r :: r in RuleSet(rules) <==> r in rules;
  }

  /** canFetch for a parsed file. */
  method CanFetch(u: Unicode, groups: seq<Group>, userAgent: string, path: string) returns (allowed: bool)
    ensures allowed == Allowed(groups, UserAgentTokens(u, userAgent), path)
  {
    var tokens := UserAgentTokens(u, userAgent);
    var matches := MatchingGroups(groups, tokens);
    ChosenRulesAre(groups, tokens);
    if |matches| == 0 { return true; }
    var merged := MergeGroups(matches);
    allowed := Decide(merged.rules, path);
  }

  /** `g` is one of the best matching groups. */
  ghost predicate IsBest(groups: set<Group>, tokens: seq<string>, g: Group) {
    g in groups && GroupScore(g.agents, tokens) >= 0 &&
    forall h :: h in groups ==> GroupScore(h.agents, tokens) <= GroupScore(g.agents, tokens)
  }

  /** The rules that count for a user agent, said without any order. */
  ghost function ChosenRules(groups: set<Group>, tokens: seq<string>): set<Rule> {
    set g, r | g in groups && IsBest(groups, tokens, g) && r in g.rules :: r
  }

  ghost function GroupSet(groups: seq<Group>): set<Group> {
    set g | g in groups
  }

  ghost predicate Allowed(groups: seq<Group>, tokens: seq<string>, path: string) {
    RulesAllow(ChosenRules(GroupSet(groups), tokens), path)
  }

  lemma ChosenRulesAre(groups: seq<Group>, tokens: seq<string>)
    ensures RuleSet(Merged(Selected(groups, tokens)).rules) == ChosenRules(GroupSet(groups), tokens)
    ensures Selected(groups, tokens) == [] ==> ChosenRules(GroupSet(groups), tokens) == {}
  {
    var chosen := Selected(groups, tokens);
    forall g ensures g in chosen <==> IsBest(GroupSet(groups), tokens, g) {
      SelectedAreBest(groups, tokens, g);
    }
    hide Selected, IsBest, Merged;
    forall r ensures r in Merged(chosen).rules <==> r in ChosenRules(GroupSet(groups), tokens) {
      MergedRules(chosen, r);
    }
  }

  /** The same rules in other groups: as many agents and rules, in any order. */
  ghost predicate Reordered(a: Group, b: Group) {
    multiset(a.agents) == multiset(b.agents) && multiset(a.rules) == multiset(b.rules)
  }

  /** Every group of `groups` has a reordering in `groups'`. */
  ghost predicate Covered(groups: seq<Group>, groups': seq<Group>) {
    forall g :: g in groups ==> exists h :: h in groups' && Reordered(g, h)
  }

  /** The decision does not depend on the order of groups, of agents in a group, or of rules. */
  lemma DecisionIsOrderFree(groups: seq<Group>, groups': seq<Group>, tokens: seq<string>, path: string)
    requires Covered(groups, groups') && Covered(groups', groups)
    ensures Allowed(groups, tokens, path) <==> Allowed(groups', tokens, path)
  {
    hide Covered, ChosenRules;
    ChosenRulesSubset(groups, groups', tokens);
    ChosenRulesSubset(groups', groups, tokens);
  }

  lemma Twin(groups: seq<Group>, groups': seq<Group>, g: Group, tokens: seq<string>) returns (h: Group)
    requires Covered(groups, groups') && g in groups
    ensures h in groups' && Reordered(g, h) && GroupScore(h.agents, tokens) == GroupScore(g.agents, tokens)
  {
    h :| h in groups' && Reordered(g, h);
    SameScore(g.agents, h.agents, tokens);
  }

  lemma ChosenRulesSubset(groups: seq<Group>, groups': seq<Group>, tokens: seq<string>)
    requires Covered(groups, groups') && Covered(groups', groups)
    ensures ChosenRules(GroupSet(groups), tokens) <= ChosenRules(GroupSet(groups'), tokens)
  {
    hide Covered, GroupScore;
    forall r | r in ChosenRules(GroupSet(groups), tokens) ensures r in ChosenRules(GroupSet(groups'), tokens) {
      var g :| g in groups && IsBest(GroupSet(groups), tokens, g) && r in g.rules;
      var h := Twin(groups, groups', g, tokens);
      assert r in multiset(g.rules) && multiset(g.rules) == multiset(h.rules);
      assert r in h.rules && h in GroupSet(groups');
      forall h' | h' in groups' ensures GroupScore(h'.agents, tokens) <= GroupScore(h.agents, tokens) {
        var g' := Twin(groups', groups, h', tokens);
        assert g' in GroupSet(groups);
      }
      assert IsBest(GroupSet(groups'), tokens, h);
    }
  }

  lemma SameScore(a: seq<string>, b: seq<string>, tokens: seq<string>)
    requires multiset(a) == multiset(b)
    ensures GroupScore(a, tokens) == GroupScore(b, tokens)
  {
    ScoreAtMost(a, b, tokens);
    ScoreAtMost(b, a, tokens);
  }

  lemma ScoreAtMost(a: seq<string>, b: seq<string>, tokens: seq<string>)
    requires multiset(a) == multiset(b)
    ensures GroupScore(a, tokens) <= GroupScore(b, tokens)
  {
    ScoreRange(a, tokens);
    ScoreRange(b, tokens);
    if GroupScore(a, tokens) > -1 {
      ScoreIsReached(a, tokens);
      var x :| x in a && AgentScore(x, tokens) == GroupScore(a, tokens);
      assert x in multiset(b);
      ScoreIsMax(b, tokens, x);
    }
  }

  lemma {:induction false} ScoreRange(agents: seq<string>, tokens: seq<string>)
    ensures GroupScore(agents, tokens) >= -1
  {
    if agents != [] { ScoreRange(agents[..|agents| - 1], tokens); }
  }
}
