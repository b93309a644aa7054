/** The rule matcher of `internal/analyzer/analyzer.go`.

    The predicate "the lower-cased line contains the lower-cased pattern" is
    defined once, in `RuleMatches`. It is used by the two loops of the
    source that apply it: the per-line loop inside `AnalyzeFile`, which
    collects `Result` records (`Match`), and `checkRules`, which raises
    alerts during live monitoring (`CheckRules`). `CheckRulesAgrees` shows
    the two loops report the same rules for the same line. */
module Matcher {
  import opened Text
  import opened Config

  /** An abstract instant, the reading of `time.Now()`. */
  type Time = int

  /** `analyzer.Result`: the trimmed line and the rule that fired on it. */
  datatype Result = Result(line: string, ruleName: string, ruleType: string, timestamp: Time)

  /** What `checkRules` prints for one firing rule. */
  datatype Alert = Alert(ruleName: string, line: string)

  /** Case-insensitive substring test of one rule against one line. */
  predicate RuleMatches(rule: Rule, line: string): (b: bool)
    ensures b <==> exists i :: OccursAt(ToLower(line), ToLower(rule.pattern), i)
  {
    var s, sub := ToLower(line), ToLower(rule.pattern);
    ContainsIff(s, sub);
    assert Contains(s, sub) <==> exists i :: OccursAt(ToLower(line), ToLower(rule.pattern), i);
    Contains(s, sub)
  }

  /** The record built for a rule that fires on `line`. */
  function Hit(line: string, rule: Rule, at: Time): Result {
    Result(line, rule.name, rule.ruleType, at)
  }

  /** Strictly increasing, so every index appears at most once and in order. */
  ghost predicate Increasing(h: seq<nat>) {
    forall a, b :: 0 <= a < b < |h| ==> h[a] < h[b]
  }

  /** The positions of the rules that fire on `line`, in rule order. */
  function HitIndices(line: string, rules: seq<Rule>): (h: seq<nat>)
    ensures Increasing(h)
    ensures forall k :: 0 <= k < |h| ==> h[k] < |rules|
    ensures forall i :: 0 <= i < |rules| ==> (i in h <==> RuleMatches(rules[i], line))
  {
    if rules == [] then []
    else
      var n := |rules| - 1;
      var h := HitIndices(line, rules[..n]);
      assert forall i :: 0 <= i < n ==> rules[..n][i] == rules[i];
      if RuleMatches(rules[n], line) then h + [n] else h
  }

  /** The inner loop of `AnalyzeFile` on an already trimmed line: every rule
      is tried, in order, and each one that fires contributes one record. */
  function MatchRules(line: string, rules: seq<Rule>, at: Time): (r: seq<Result>)
    ensures |r| <= |rules|
    ensures forall k :: 0 <= k < |r| ==> r[k].line == line && r[k].timestamp == at
  {
    if rules == [] then []
    else
      var n := |rules| - 1;
      MatchRules(line, rules[..n], at) + (if RuleMatches(rules[n], line) then [Hit(line, rules[n], at)] else [])
  }

  /** The records of the inner loop are one per firing rule, in rule order. */
  lemma {:induction false} MatchRulesSpec(line: string, rules: seq<Rule>, at: Time)
    ensures |MatchRules(line, rules, at)| == |HitIndices(line, rules)|
    ensures forall k :: 0 <= k < |MatchRules(line, rules, at)| ==>
      MatchRules(line, rules, at)[k] == Hit(line, rules[HitIndices(line, rules)[k]], at)
  {
    if rules != [] {
      var n := |rules| - 1;
      MatchRulesSpec(line, rules[..n], at);
      var r := MatchRules(line, rules[..n], at);
      var h := HitIndices(line, rules[..n]);
      forall k | 0 <= k < |r| ensures r[k] == Hit(line, rules[h[k]], at) {
        assert rules[..n][h[k]] == rules[h[k]];
      }
    }
  }

  /** One scanned line of `AnalyzeFile`: trim it, skip it when blank,
      otherwise try every rule. */
  function Match(line: string, rules: seq<Rule>, at: Time): (r: seq<Result>)
    ensures AllSpace(line) ==> r == []
    ensures |r| <= |rules|
    ensures forall k :: 0 <= k < |r| ==> r[k].line == TrimSpace(line) && r[k].timestamp == at
  {
    var t := TrimSpace(line);
    TrimSpaceEmptyIff(line);
    if t == [] then [] else MatchRules(t, rules, at)
  }

  /** A blank line yields nothing; any other line yields one record per
      firing rule, in rule order, each carrying the trimmed line and the
      rule's name and type. */
  lemma MatchSpec(line: string, rules: seq<Rule>, at: Time)
    ensures AllSpace(line) ==> Match(line, rules, at) == []
    ensures !AllSpace(line) ==>
      var r := Match(line, rules, at);
      var t := TrimSpace(line);
      var h := HitIndices(t, rules);
      && |r| == |h|
      && forall k :: 0 <= k < |r| ==> r[k] == Hit(t, rules[h[k]], at)
  {
    TrimSpaceEmptyIff(line);
    if !AllSpace(line) {
      MatchRulesSpec(TrimSpace(line), rules, at);
    }
  }

  /** The loop of `checkRules` on an already trimmed line. */
  function AlertRules(line: string, rules: seq<Rule>): (r: seq<Alert>)
    ensures |r| <= |rules|
    ensures forall k :: 0 <= k < |r| ==> r[k].line == line
  {
    if rules == [] then []
    else
      var n := |rules| - 1;
      AlertRules(line, rules[..n]) + (if RuleMatches(rules[n], line) then [Alert(rules[n].name, line)] else [])
  }

  /** `checkRules`: trim, stop on a blank line, and raise one alert per
      firing rule. */
  function CheckRules(line: string, rules: seq<Rule>): (r: seq<Alert>)
    ensures AllSpace(line) ==> r == []
  {
    var t := TrimSpace(line);
    TrimSpaceEmptyIff(line);
    if t == [] then [] else AlertRules(t, rules)
  }

  /** The alert printed for each record. */
  function AlertsOf(rs: seq<Result>): (a: seq<Alert>)
    ensures |a| == |rs|
    ensures forall k :: 0 <= k < |rs| ==> a[k] == Alert(rs[k].ruleName, rs[k].line)
  {
    seq(|rs|, k requires 0 <= k < |rs| => Alert(rs[k].ruleName, rs[k].line))
  }

  lemma {:induction false} AlertRulesAgrees(line: string, rules: seq<Rule>, at: Time)
    ensures AlertRules(line, rules) == AlertsOf(MatchRules(line, rules, at))
  {
    if rules != [] {
      var n := |rules| - 1;
      AlertRulesAgrees(line, rules[..n], at);
      var r := MatchRules(line, rules[..n], at);
      if RuleMatches(rules[n], line) {
        assert AlertsOf(r + [Hit(line, rules[n], at)]) == AlertsOf(r) + [Alert(rules[n].name, line)];
      }
    }
  }

  /** The two copies of the matching loop agree: `checkRules` alerts on
      exactly the rules, in the same order and with the same line, that
      `AnalyzeFile` records for that line. */
  lemma CheckRulesAgrees(line: string, rules: seq<Rule>, at: Time)
    ensures CheckRules(line, rules) == AlertsOf(Match(line, rules, at))
  {
    var t := TrimSpace(line);
    if t != [] {
      AlertRulesAgrees(t, rules, at);
    }
  }

  /** A rule with an empty pattern fires on every line that is not blank. */
  lemma EmptyPatternMatchesAll(line: string, rules: seq<Rule>, i: nat, at: Time)
    requires i < |rules| && rules[i].pattern == ""
    requires !AllSpace(line)
    ensures i in HitIndices(TrimSpace(line), rules)
    ensures exists k :: 0 <= k < |Match(line, rules, at)| && Match(line, rules, at)[k].ruleName == rules[i].name
  {
    var t := TrimSpace(line);
    EmptyPatternFires(rules[i], t);
    var h := HitIndices(t, rules);
    MatchSpec(line, rules, at);
    var k :| 0 <= k < |h| && h[k] == i;
    assert Match(line, rules, at)[k] == Hit(t, rules[i], at);
  }

  lemma EmptyPatternFires(rule: Rule, line: string)
    requires rule.pattern == ""
    ensures RuleMatches(rule, line)
  {
    assert ToLower(rule.pattern) == "";
    ContainsEmpty(ToLower(line));
  }

  /** Matching ignores the case of ASCII letters in the line. */
  lemma MatchIgnoresCase(rule: Rule, line: string)
    ensures RuleMatches(rule, line) <==> RuleMatches(rule, ToLower(line))
  {
    ToLowerIdempotent(line);
  }

  /** Two rules that both fire on a trimmed line give two records, in
      rule order. */
  lemma MatchTwoFiring(line: string, a: Rule, b: Rule, at: Time)
    requires line != [] && TrimSpace(line) == line
    requires RuleMatches(a, line) && RuleMatches(b, line)
    ensures Match(line, [a, b], at) == [Hit(line, a, at), Hit(line, b, at)]
  {
    assert [a, b][..1] == [a];
    assert [a][..0] == [];
    assert MatchRules(line, [a], at) == [Hit(line, a, at)];
    assert MatchRules(line, [a, b], at) == [Hit(line, a, at), Hit(line, b, at)];
  }

  lemma ScenarioLineTrimmed(line: string)
    requires line == "fail as root"
    ensures line != [] && TrimSpace(line) == line
  {
    TrimSpaceOfTight(line);
  }

  lemma ScenarioLineLower(line: string)
    requires line == "fail as root"
    ensures ToLower(line) == line
  {
    ToLowerOfLower(line);
  }

  lemma ScenarioPatternsLower(p: string)
    requires p == "root" || p == "fail"
    ensures ToLower(p) == p
  {
    ToLowerOfLower(p);
  }

  lemma ScenarioPatternFires(line: string, pattern: string, i: nat)
    requires ToLower(line) == line && ToLower(pattern) == pattern
    requires OccursAt(line, pattern, i)
    ensures forall name, ruleType :: RuleMatches(Rule(name, pattern, ruleType), line)
  {
    ContainsIff(line, pattern);
  }

  lemma ScenarioRulesFire(line: string)
    requires line == "fail as root"
    ensures RuleMatches(Rule("root-login", "root", "auth"), line)
    ensures RuleMatches(Rule("failure", "fail", "auth"), line)
  {
    ScenarioLineLower(line);
    ScenarioPatternsLower("root");
    ScenarioPatternsLower("fail");
    assert line[8..12] == "root" && line[0..4] == "fail";
    ScenarioPatternFires(line, "root", 8);
    ScenarioPatternFires(line, "fail", 0);
  }

  /** A line tripping two rules is reported twice, once per rule, in the
      order the rules are configured. */
  lemma MatchScenarioTwoRules(line: string, at: Time)
    requires line == "fail as root"
    ensures Match(line, [Rule("root-login", "root", "auth"), Rule("failure", "fail", "auth")], at)
            == [Result(line, "root-login", "auth", at), Result(line, "failure", "auth", at)]
  {
    ScenarioLineTrimmed(line);
    ScenarioRulesFire(line);
    MatchTwoFiring(line, Rule("root-login", "root", "auth"), Rule("failure", "fail", "auth"), at);
  }

  /** The inner loop of `AnalyzeFile` as written: an index loop over the
      rules, appending a record for every rule that fires on the trimmed
      line. */
  method MatchLoop(line: string, rules: seq<Rule>, at: Time) returns (found: seq<Result>)
    ensures found == MatchRules(line, rules, at)
  {
    found := [];
    var i := 0;
    while i < |rules|
      invariant 0 <= i <= |rules|
      invariant found == MatchRules(line, rules[..i], at)
    {
      assert rules[..i + 1][..i] == rules[..i];
      if Contains(ToLower(line), ToLower(rules[i].pattern)) {
        found := found + [Result(line, rules[i].name, rules[i].ruleType, at)];
      }
      i := i + 1;
    }
    assert rules[..i] == rules;
  }
}
