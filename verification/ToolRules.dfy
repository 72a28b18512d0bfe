/** ToolPolicy rules: matching, composition of rule lists, and validation. */
module ToolRules {
  import opened Lists
  import opened Api

  /** The first rule written for exactly `tool`. */
  function FirstFor(rules: seq<ToolRule>, tool: string): Option<ToolRule> {
    if rules == [] then None
    else if rules[0].tool == tool then Some(rules[0])
    else FirstFor(rules[1..], tool)
  }

  /** The meaning of a rule list: an exact rule, and only failing that a wildcard rule. */
  function Match(rules: seq<ToolRule>, name: string): Option<ToolRule> {
    if FirstFor(rules, name).Some? then FirstFor(rules, name) else FirstFor(rules, "*")
  }

  function Orelse<T>(a: Option<T>, b: Option<T>): Option<T> {
    if a.Some? then a else b
  }

  lemma {:induction false} FirstForConcat(a: seq<ToolRule>, b: seq<ToolRule>, tool: string)
    ensures FirstFor(a + b, tool) == Orelse(FirstFor(a, tool), FirstFor(b, tool))
  {
    if a == [] {
      assert a + b == b;
    } else {
      assert (a + b)[1..] == a[1..] + b;
      FirstForConcat(a[1..], b, tool);
    }
  }

  lemma {:induction false} FirstForSound(rules: seq<ToolRule>, tool: string)
    ensures FirstFor(rules, tool).None? <==> forall r :: r in rules ==> r.tool != tool
    ensures var f := FirstFor(rules, tool); f.Some? ==> f.value in rules && f.value.tool == tool
  {
    if rules != [] {
      FirstForSound(rules[1..], tool);
      assert rules == [rules[0]] + rules[1..];
    }
  }

  /** The single pass of the source finds what the two-pass definition finds. */
  method MatchToolRule(rules: seq<ToolRule>, name: string) returns (found: Option<ToolRule>)
    ensures found == Match(rules, name)
  {
    var wildcard: Option<ToolRule> := None;
    for i := 0 to |rules|
      invariant FirstFor(rules[..i], name).None?
      invariant wildcard == FirstFor(rules[..i], "*")
    {
      assert rules == rules[..i] + rules[i..];
      assert rules[..i + 1] == rules[..i] + [rules[i]];
      FirstForConcat(rules[..i], rules[i..], name);
      FirstForConcat(rules[..i], [rules[i]], name);
      FirstForConcat(rules[..i], [rules[i]], "*");
      if rules[i].tool == name {
        return Some(rules[i]);
      } else if rules[i].tool == "*" {
        if wildcard.None? {
          wildcard := Some(rules[i]);
        }
      }
    }
    assert rules[..|rules|] == rules;
    return wildcard;
  }

  /** Composition law: exact left, exact right, wildcard left, wildcard right, in that order. */
  lemma MatchConcat(a: seq<ToolRule>, b: seq<ToolRule>, name: string)
    ensures Match(a + b, name)
         == Orelse(Orelse(FirstFor(a, name), FirstFor(b, name)), Orelse(FirstFor(a, "*"), FirstFor(b, "*")))
  {
    FirstForConcat(a, b, name);
    FirstForConcat(a, b, "*");
  }

  function RulesOf(policies: seq<ToolPolicy>): seq<ToolRule> {
    FlatMap(policies, (p: ToolPolicy) => p.spec.rules)
  }

  predicate DefaultsToDeny(policies: seq<ToolPolicy>) {
    exists p :: p in policies && p.spec.defaultAction == Deny
  }

  /** Whether a list of ToolPolicies lets an Agent declare `name`. */
  predicate Allowed(policies: seq<ToolPolicy>, name: string) {
    match Match(RulesOf(policies), name)
    case Some(rule) => rule.action != Deny
    case None => !DefaultsToDeny(policies)
  }

  lemma RulesOfSnoc(policies: seq<ToolPolicy>, p: ToolPolicy)
    ensures RulesOf(policies + [p]) == RulesOf(policies) + p.spec.rules
    ensures DefaultsToDeny(policies + [p]) <==> DefaultsToDeny(policies) || p.spec.defaultAction == Deny
  {
  }

  /** The rule of an appended policy that gets to decide `name`, if any does. */
  function Overriding(policies: seq<ToolPolicy>, p: ToolPolicy, name: string): Option<ToolRule> {
    var rules := RulesOf(policies);
    if FirstFor(rules, name).Some? then None
    else if FirstFor(p.spec.rules, name).Some? then FirstFor(p.spec.rules, name)
    else if FirstFor(rules, "*").Some? then None
    else FirstFor(p.spec.rules, "*")
  }

  /** Exactly when appending one ToolPolicy turns a denied tool into an allowed one. */
  lemma WidensExactly(policies: seq<ToolPolicy>, p: ToolPolicy, name: string)
    ensures !Allowed(policies, name) && Allowed(policies + [p], name)
       <==> !Allowed(policies, name)
            && Overriding(policies, p, name).Some? && Overriding(policies, p, name).value.action != Deny
  {
    RulesOfSnoc(policies, p);
    MatchConcat(RulesOf(policies), p.spec.rules, name);
  }

  /** A ToolPolicy narrows every list it joins exactly when none of its own matches lets a tool through. */
  lemma AlwaysNarrowsExactly(p: ToolPolicy)
    ensures (forall policies, name :: Allowed(policies + [p], name) ==> Allowed(policies, name))
       <==> forall name :: Match(p.spec.rules, name).Some? ==> Match(p.spec.rules, name).value.action == Deny
  {
    if forall name :: Match(p.spec.rules, name).Some? ==> Match(p.spec.rules, name).value.action == Deny {
      forall policies, name | Allowed(policies + [p], name)
        ensures Allowed(policies, name)
      {
        AppendOfDenials(policies, p, name);
      }
    } else {
      var name :| Match(p.spec.rules, name).Some? && Match(p.spec.rules, name).value.action != Deny;
      var closed := [ToolPolicy("closed", ToolPolicySpec([], Deny))];
      NothingMatches(closed, name);
      RulesOfSnoc(closed, p);
      assert RulesOf(closed) + p.spec.rules == p.spec.rules;
      assert Allowed(closed + [p], name) && !Allowed(closed, name);
    }
  }

  lemma NothingMatches(policies: seq<ToolPolicy>, name: string)
    requires policies == [ToolPolicy("closed", ToolPolicySpec([], Deny))]
    ensures RulesOf(policies) == [] && !Allowed(policies, name)
  {
    FlatMapNone(policies, (q: ToolPolicy) => q.spec.rules);
    assert policies[0] in policies;
  }

  lemma AppendOfDenials(policies: seq<ToolPolicy>, p: ToolPolicy, name: string)
    requires forall n :: Match(p.spec.rules, n).Some? ==> Match(p.spec.rules, n).value.action == Deny
    ensures Allowed(policies + [p], name) ==> Allowed(policies, name)
  {
    WidensExactly(policies, p, name);
    var o := Overriding(policies, p, name);
    if o.Some? {
      assert o == Match(p.spec.rules, name);
    }
  }

  /** Appending a policy whose rules all deny never permits a denied tool. */
  lemma AllDenyNarrows(policies: seq<ToolPolicy>, p: ToolPolicy, name: string)
    requires forall r :: r in p.spec.rules ==> r.action == Deny
    ensures Allowed(policies + [p], name) ==> Allowed(policies, name)
  {
    forall n | Match(p.spec.rules, n).Some?
      ensures Match(p.spec.rules, n).value.action == Deny
    {
      FirstForSound(p.spec.rules, n);
      FirstForSound(p.spec.rules, "*");
    }
    AppendOfDenials(policies, p, name);
  }

  /** An exact rule keeps deciding its tool whatever is appended later. */
  lemma ExactRuleSurvives(policies: seq<ToolPolicy>, later: seq<ToolPolicy>, name: string)
    requires FirstFor(RulesOf(policies), name).Some?
    ensures Match(RulesOf(policies + later), name) == Match(RulesOf(policies), name)
    ensures Allowed(policies + later, name) == Allowed(policies, name)
  {
    SurvivesConcat(policies, later, name);
  }

  lemma {:induction false} SurvivesConcat(policies: seq<ToolPolicy>, later: seq<ToolPolicy>, name: string)
    requires FirstFor(RulesOf(policies), name).Some?
    ensures FirstFor(RulesOf(policies + later), name) == FirstFor(RulesOf(policies), name)
  {
    if later == [] {
      assert policies + later == policies;
    } else {
      var n := |later| - 1;
      SurvivesConcat(policies, later[..n], name);
      assert policies + later == (policies + later[..n]) + [later[n]];
      RulesOfSnoc(policies + later[..n], later[n]);
      FirstForConcat(RulesOf(policies + later[..n]), later[n].spec.rules, name);
    }
  }

  /** The comment on EffectivePolicy promises narrowing; a later exact allow breaks it for ToolPolicies. */
  lemma ToolPolicyCanWiden()
    ensures exists policies, p, name :: !Allowed(policies, name) && Allowed(policies + [p], name)
  {
    var closed := [ToolPolicy("closed", ToolPolicySpec([], Deny))];
    var opener := ToolPolicy("opener", ToolPolicySpec([ToolRule("search", Allow, None)], Allow));
    NothingMatches(closed, "search");
    RulesOfSnoc(closed, opener);
    assert !Allowed(closed, "search") && Allowed(closed + [opener], "search");
  }

  /** No specific tool is given two different actions. */
  ghost predicate Consistent(rules: seq<ToolRule>) {
    forall a, b :: a in rules && b in rules && a.tool == b.tool && a.tool != "*" ==> a.action == b.action
  }

  method ValidateToolPolicy(spec: ToolPolicySpec) returns (ok: bool)
    ensures ok <==> Consistent(spec.rules)
  {
    var rules := spec.rules;
    var seen: map<string, ToolAction> := map[];
    for i := 0 to |rules|
      invariant forall r :: r in rules[..i] && r.tool != "*" ==> r.tool in seen && seen[r.tool] == r.action
      invariant forall t :: t in seen ==> exists r :: r in rules[..i] && r.tool == t && r.action == seen[t]
    {
      var rule := rules[i];
      assert rules[..i + 1] == rules[..i] + [rule];
      if rule.tool == "*" {
        continue;
      }
      if rule.tool in seen && seen[rule.tool] != rule.action {
        ghost var r :| r in rules[..i] && r.tool == rule.tool && r.action == seen[rule.tool];
        assert r in rules && rule in rules;
        return false;
      }
      seen := seen[rule.tool := rule.action];
    }
    assert rules[..|rules|] == rules;
    return true;
  }

  /** For accepted lists the order of rules is irrelevant to every tool that has a rule of its own. */
  lemma OrderIrrelevant(rules: seq<ToolRule>, shuffled: seq<ToolRule>, name: string)
    requires Consistent(rules) && multiset(rules) == multiset(shuffled)
    requires name != "*" && FirstFor(rules, name).Some?
    ensures Match(shuffled, name).Some?
    ensures Match(shuffled, name).value.action == Match(rules, name).value.action
  {
    FirstForSound(rules, name);
    FirstForSound(shuffled, name);
    var r := FirstFor(rules, name).value;
    assert r in multiset(rules);
    assert r in shuffled;
    var s := FirstFor(shuffled, name).value;
    assert s in multiset(shuffled);
    assert s in rules;
  }
}
