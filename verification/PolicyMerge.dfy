/** What a set of Policies and ToolPolicies means, and what breaches it. */
module PolicyMerge {
  import opened Lists
  import opened Api
  import opened ToolRules

  // --- access rules ---

  /** Deny wins; a non-empty allow list is exhaustive; "*" matches anything; no rule permits everything. */
  predicate PermitsName(rule: Option<AccessRule>, name: string) {
    rule.None? ||
    var r := rule.value;
    && name !in r.deny && "*" !in r.deny
    && (r.allow == [] || name in r.allow || "*" in r.allow)
  }

  method Permits(rule: Option<AccessRule>, name: string) returns (ok: bool)
    ensures ok == PermitsName(rule, name)
    ensures rule.None? ==> ok
    ensures rule.Some? ==>
              (ok <==>
               && (forall i :: 0 <= i < |rule.value.deny| ==> rule.value.deny[i] != name && rule.value.deny[i] != "*")
               && (|rule.value.allow| == 0 ||
                   exists i :: 0 <= i < |rule.value.allow| && (rule.value.allow[i] == name || rule.value.allow[i] == "*")))
  {
    if rule.None? {
      return true;
    }
    var r := rule.value;
    for i := 0 to |r.deny|
      invariant name !in r.deny[..i] && "*" !in r.deny[..i]
    {
      if r.deny[i] == name || r.deny[i] == "*" {
        return false;
      }
    }
    if |r.allow| == 0 {
      return true;
    }
    for i := 0 to |r.allow|
      invariant name !in r.allow[..i] && "*" !in r.allow[..i]
    {
      if r.allow[i] == name || r.allow[i] == "*" {
        return true;
      }
    }
    return false;
  }

  /** A rule that lists nothing constrains nothing, and so does no rule. */
  lemma NothingListed(name: string)
    ensures PermitsName(None, name) && PermitsName(Some(AccessRule([], [])), name)
  {
  }

  /** One more denied entry takes away exactly that name, or everything if it is the wildcard. */
  lemma DenyTakesAway(r: AccessRule, d: string, name: string)
    ensures PermitsName(Some(r.(deny := r.deny + [d])), name) <==> PermitsName(Some(r), name) && d != name && d != "*"
  {
  }

  /** The first allowed entry leaves exactly that name; each further one adds exactly its own, or everything not denied. */
  lemma AllowAdds(r: AccessRule, a: string, name: string)
    ensures var denied := !PermitsName(Some(r.(allow := [])), name);
      PermitsName(Some(r.(allow := r.allow + [a])), name) <==>
      !denied && (a == name || a == "*" || (r.allow != [] && PermitsName(Some(r), name)))
  {
  }

  ghost function Elements(s: seq<string>): set<string> {
    set x | x in s
  }

  ghost function Narrowed(a: seq<string>, b: seq<string>): seq<string> {
    if a == [] || (b != [] && "*" in a) then b
    else if b == [] || "*" in b then a
    else Keep(a, Elements(b))
  }

  ghost function Merged(into: Option<AccessRule>, add: Option<AccessRule>): Option<AccessRule> {
    if add.None? then into
    else if into.None? then add
    else
      var a, b := into.value, add.value;
      var allow := Narrowed(a.allow, b.allow);
      var deny := Dedupe(a.deny + b.deny);
      if a.allow != [] && b.allow != [] && allow == [] then Some(AccessRule([], Dedupe(deny + ["*"])))
      else Some(AccessRule(allow, deny))
  }

  method ContainsWildcard(list: seq<string>) returns (found: bool)
    ensures found <==> "*" in list
  {
    for i := 0 to |list|
      invariant "*" !in list[..i]
    {
      if list[i] == "*" {
        return true;
      }
    }
    return false;
  }

  method IntersectOrKeep(a: seq<string>, b: seq<string>) returns (out: seq<string>)
    ensures out == Narrowed(a, b)
  {
    if |a| == 0 {
      return b;
    }
    if |b| == 0 {
      return a;
    }
    var wild := ContainsWildcard(a);
    if wild {
      return b;
    }
    wild := ContainsWildcard(b);
    if wild {
      return a;
    }
    var inB: set<string> := {};
    for i := 0 to |b|
      invariant inB == Elements(b[..i])
    {
      assert b[..i + 1] == b[..i] + [b[i]];
      inB := inB + {b[i]};
    }
    assert b[..|b|] == b;
    out := [];
    for i := 0 to |a|
      invariant out == Keep(a[..i], inB)
    {
      KeepPrefix(a, i, inB);
      if a[i] in inB {
        out := out + [a[i]];
      }
    }
    assert a[..|a|] == a;
  }

  method Union(a: seq<string>, b: seq<string>) returns (out: seq<string>)
    ensures out == Dedupe(a + b)
  {
    var all := a + b;
    var seen: set<string> := {};
    out := [];
    for i := 0 to |all|
      invariant out == Dedupe(all[..i])
      invariant seen == Elements(all[..i])
    {
      DedupePrefix(all, i);
      assert all[..i + 1] == all[..i] + [all[i]];
      if all[i] !in seen {
        seen := seen + {all[i]};
        out := out + [all[i]];
      }
    }
    assert all[..|all|] == all;
  }

  method MergeAccessRule(into: Option<AccessRule>, add: Option<AccessRule>) returns (out: Option<AccessRule>)
    ensures out == Merged(into, add)
  {
    if add.None? {
      return into;
    }
    if into.None? {
      return add;
    }
    var allow := IntersectOrKeep(into.value.allow, add.value.allow);
    var deny := Union(into.value.deny, add.value.deny);
    if |into.value.allow| > 0 && |add.value.allow| > 0 && |allow| == 0 {
      allow := [];
      deny := Union(deny, ["*"]);
    }
    return Some(AccessRule(allow, deny));
  }

  /** One merge denotes conjunction, deny-all collapse and wildcards included. */
  lemma MergedDenotes(into: Option<AccessRule>, add: Option<AccessRule>, name: string)
    ensures PermitsName(Merged(into, add), name) <==> PermitsName(into, name) && PermitsName(add, name)
  {
    if into.Some? && add.Some? {
      var a, b := into.value, add.value;
      var deny := Dedupe(a.deny + b.deny);
      assert forall n :: n in deny <==> n in a.deny || n in b.deny;
      assert forall n :: n in Elements(b.allow) <==> n in b.allow;
      var allow := Narrowed(a.allow, b.allow);
      if a.allow != [] && b.allow != [] && allow == [] {
        assert "*" in deny + ["*"];
        assert name in a.allow && name in b.allow ==> name in allow;
      } else if a.allow != [] && b.allow != [] && "*" !in a.allow && "*" !in b.allow {
        assert allow == Keep(a.allow, Elements(b.allow));
      }
    }
  }

  // --- the fold over policies ---

  datatype Aspect = Models | Mcp | Tools

  function RuleOf(p: Policy, aspect: Aspect): Option<AccessRule> {
    match aspect
    case Models => p.spec.models
    case Mcp => p.spec.mcp
    case Tools => p.spec.tools
  }

  datatype EffectivePolicy = EffectivePolicy(
    sources: seq<string>,
    models: Option<AccessRule>,
    mcp: Option<AccessRule>,
    tools: Option<AccessRule>,
    toolRules: seq<ToolRule>,
    defaultToolAction: ToolAction)

  ghost function MergedRule(policies: seq<Policy>, aspect: Aspect): Option<AccessRule> {
    if policies == [] then None
    else Merged(MergedRule(policies[..|policies| - 1], aspect), RuleOf(policies[|policies| - 1], aspect))
  }

  ghost function PolicyNames(policies: seq<Policy>): seq<string> {
    seq(|policies|, i requires 0 <= i < |policies| => "Policy/" + policies[i].name)
  }

  ghost function ToolPolicyNames(toolPolicies: seq<ToolPolicy>): seq<string> {
    seq(|toolPolicies|, i requires 0 <= i < |toolPolicies| => "ToolPolicy/" + toolPolicies[i].name)
  }

  /** The effective policy; none when nothing is referenced. */
  ghost function Effective(policies: seq<Policy>, toolPolicies: seq<ToolPolicy>): Option<EffectivePolicy> {
    if policies == [] && toolPolicies == [] then None
    else Some(EffectivePolicy(
                PolicyNames(policies) + ToolPolicyNames(toolPolicies),
                MergedRule(policies, Models), MergedRule(policies, Mcp), MergedRule(policies, Tools),
                RulesOf(toolPolicies),
                if DefaultsToDeny(toolPolicies) then Deny else Allow))
  }

  method MergePolicies(policies: seq<Policy>, toolPolicies: seq<ToolPolicy>) returns (eff: Option<EffectivePolicy>)
    ensures eff == Effective(policies, toolPolicies)
  {
    if |policies| == 0 && |toolPolicies| == 0 {
      return None;
    }
    var sources, models, mcp, tools := MergeRules(policies);
    var more, toolRules, defaultToolAction := JoinRules(toolPolicies);
    return Some(EffectivePolicy(sources + more, models, mcp, tools, toolRules, defaultToolAction));
  }

  /** The loop over Policies. */
  method MergeRules(policies: seq<Policy>)
      returns (sources: seq<string>, models: Option<AccessRule>, mcp: Option<AccessRule>, tools: Option<AccessRule>)
    ensures sources == PolicyNames(policies)
    ensures models == MergedRule(policies, Models) && mcp == MergedRule(policies, Mcp) && tools == MergedRule(policies, Tools)
  {
    sources, models, mcp, tools := [], None, None, None;
    for i := 0 to |policies|
      invariant sources == PolicyNames(policies[..i])
      invariant models == MergedRule(policies[..i], Models)
      invariant mcp == MergedRule(policies[..i], Mcp)
      invariant tools == MergedRule(policies[..i], Tools)
    {
      var p := policies[i];
      assert policies[..i + 1][..i] == policies[..i];
      sources := sources + ["Policy/" + p.name];
      models := MergeAccessRule(models, p.spec.models);
      mcp := MergeAccessRule(mcp, p.spec.mcp);
      tools := MergeAccessRule(tools, p.spec.tools);
    }
    assert policies[..|policies|] == policies;
  }

  /** The loop over ToolPolicies. */
  method JoinRules(toolPolicies: seq<ToolPolicy>)
      returns (sources: seq<string>, toolRules: seq<ToolRule>, defaultToolAction: ToolAction)
    ensures sources == ToolPolicyNames(toolPolicies) && toolRules == RulesOf(toolPolicies)
    ensures defaultToolAction == if DefaultsToDeny(toolPolicies) then Deny else Allow
  {
    sources, toolRules, defaultToolAction := [], [], Allow;
    for i := 0 to |toolPolicies|
      invariant sources == ToolPolicyNames(toolPolicies[..i])
      invariant toolRules == RulesOf(toolPolicies[..i])
      invariant defaultToolAction == if DefaultsToDeny(toolPolicies[..i]) then Deny else Allow
    {
      var tp := toolPolicies[i];
      assert toolPolicies[..i + 1] == toolPolicies[..i] + [tp];
      RulesOfSnoc(toolPolicies[..i], tp);
      sources := sources + ["ToolPolicy/" + tp.name];
      toolRules := toolRules + tp.spec.rules;
      if tp.spec.defaultAction == Deny {
        defaultToolAction := Deny;
      }
    }
    assert toolPolicies[..|toolPolicies|] == toolPolicies;
  }

  /** A denial can point at the object to edit: one source for each, Policies first, in the order they were given. */
  lemma SourcesPoint(policies: seq<Policy>, toolPolicies: seq<ToolPolicy>, i: nat)
    requires Effective(policies, toolPolicies).Some?
    ensures var sources := Effective(policies, toolPolicies).value.sources;
      && |sources| == |policies| + |toolPolicies|
      && (i < |policies| ==> sources[i] == "Policy/" + policies[i].name)
      && (i < |toolPolicies| ==> sources[|policies| + i] == "ToolPolicy/" + toolPolicies[i].name)
  {
  }

  /** The fold denotes conjunction: the merged rule permits a name exactly when every Policy's own rule does. */
  lemma {:induction false} FoldDenotes(policies: seq<Policy>, aspect: Aspect, name: string)
    ensures PermitsName(MergedRule(policies, aspect), name)
       <==> forall p :: p in policies ==> PermitsName(RuleOf(p, aspect), name)
  {
    if policies != [] {
      var n := |policies| - 1;
      FoldDenotes(policies[..n], aspect, name);
      MergedDenotes(MergedRule(policies[..n], aspect), RuleOf(policies[n], aspect), name);
      assert policies == policies[..n] + [policies[n]];
    }
  }

  /** Attaching further Policies only narrows. */
  lemma AppendNarrows(policies: seq<Policy>, more: seq<Policy>, aspect: Aspect, name: string)
    ensures PermitsName(MergedRule(policies + more, aspect), name)
       <==> PermitsName(MergedRule(policies, aspect), name) && PermitsName(MergedRule(more, aspect), name)
  {
    FoldDenotes(policies + more, aspect, name);
    FoldDenotes(policies, aspect, name);
    FoldDenotes(more, aspect, name);
  }

  /** Order and repetition of Policies do not matter. */
  lemma OrderAndRepetitionIrrelevant(ps: seq<Policy>, qs: seq<Policy>, aspect: Aspect, name: string)
    requires forall p :: p in ps <==> p in qs
    ensures PermitsName(MergedRule(ps, aspect), name) <==> PermitsName(MergedRule(qs, aspect), name)
  {
    FoldDenotes(ps, aspect, name);
    FoldDenotes(qs, aspect, name);
  }

  // --- violations ---

  datatype Violation =
    | ModelDenied(name: string)
    | McpServerDenied(name: string)
    | ToolDenied(name: string)
    | ToolRuleDenied(name: string, matched: string)
    | ToolDefaultDenied(name: string)

  /** What makes a tool breach a policy: its access rule first, then the rule list, then the default. */
  ghost function ToolBreach(e: EffectivePolicy, tool: string): Option<Violation> {
    if !PermitsName(e.tools, tool) then Some(ToolDenied(tool))
    else match Match(e.toolRules, tool)
      case Some(rule) => if rule.action == Deny then Some(ToolRuleDenied(tool, rule.tool)) else None
      case None => if e.defaultToolAction == Deny then Some(ToolDefaultDenied(tool)) else None
  }

  ghost predicate Breaches(e: EffectivePolicy, refs: AgentReferences, v: Violation) {
    match v
    case ModelDenied(m) => m == refs.model && m != "" && !PermitsName(e.models, m)
    case McpServerDenied(m) => m in refs.mcpServers && !PermitsName(e.mcp, m)
    case _ => v.name in refs.tools && ToolBreach(e, v.name) == Some(v)
  }

  /** The reported violations are exactly the breaches. */
  method Violations(policy: Option<EffectivePolicy>, refs: AgentReferences) returns (out: seq<Violation>)
    ensures policy.None? ==> out == []
    ensures policy.Some? ==> forall v :: v in out <==> Breaches(policy.value, refs, v)
  {
    if policy.None? {
      return [];
    }
    var e := policy.value;
    out := [];
    if e.models.Some? && refs.model != "" {
      var ok := Permits(e.models, refs.model);
      if !ok {
        out := out + [ModelDenied(refs.model)];
      }
    }
    for i := 0 to |refs.mcpServers|
      invariant forall v :: v in out <==> Breaches(e, refs.(mcpServers := refs.mcpServers[..i], tools := []), v)
    {
      assert refs.mcpServers[..i + 1] == refs.mcpServers[..i] + [refs.mcpServers[i]];
      var ok := Permits(e.mcp, refs.mcpServers[i]);
      if e.mcp.Some? && !ok {
        out := out + [McpServerDenied(refs.mcpServers[i])];
      }
    }
    assert refs.mcpServers[..|refs.mcpServers|] == refs.mcpServers;
    for i := 0 to |refs.tools|
      invariant forall v :: v in out <==> Breaches(e, refs.(tools := refs.tools[..i]), v)
    {
      var name := refs.tools[i];
      assert refs.tools[..i + 1] == refs.tools[..i] + [name];
      var ok := Permits(e.tools, name);
      if e.tools.Some? && !ok {
        out := out + [ToolDenied(name)];
        continue;
      }
      var rule := MatchToolRule(e.toolRules, name);
      if rule.Some? {
        if rule.value.action == Deny {
          out := out + [ToolRuleDenied(name, rule.value.tool)];
        }
      } else if e.defaultToolAction == Deny {
        out := out + [ToolDefaultDenied(name)];
      }
    }
    assert refs.tools[..|refs.tools|] == refs.tools;
  }

  /** What each report says, in terms of the lists: which name it is about, and which rule or default denied it. */
  lemma ReportSays(e: EffectivePolicy, refs: AgentReferences, v: Violation)
    requires Breaches(e, refs, v)
    ensures v.ModelDenied? ==> v.name == refs.model && !PermitsName(e.models, v.name)
    ensures v.McpServerDenied? ==> v.name in refs.mcpServers && !PermitsName(e.mcp, v.name)
    ensures v.ToolDenied? ==> v.name in refs.tools && !PermitsName(e.tools, v.name)
    ensures v.ToolRuleDenied? ==>
              && v.name in refs.tools && PermitsName(e.tools, v.name) && (v.matched == v.name || v.matched == "*")
              && exists r :: r in e.toolRules && r.tool == v.matched && r.action == Deny
    ensures v.ToolDefaultDenied? ==>
              && v.name in refs.tools && PermitsName(e.tools, v.name) && e.defaultToolAction == Deny
              && forall r :: r in e.toolRules ==> r.tool != v.name && r.tool != "*"
  {
    FirstForSound(e.toolRules, v.name);
    FirstForSound(e.toolRules, "*");
  }

  /** No breach of the merged policy means: every Policy on its own permits every reference, and the rules allow every tool. */
  ghost predicate Compliant(policies: seq<Policy>, toolPolicies: seq<ToolPolicy>, refs: AgentReferences) {
    && (forall p :: p in policies ==>
          && (refs.model != "" ==> PermitsName(p.spec.models, refs.model))
          && (forall m :: m in refs.mcpServers ==> PermitsName(p.spec.mcp, m))
          && (forall t :: t in refs.tools ==> PermitsName(p.spec.tools, t)))
    && (forall t :: t in refs.tools ==> Allowed(toolPolicies, t))
  }

  ghost predicate Clean(policies: seq<Policy>, toolPolicies: seq<ToolPolicy>, refs: AgentReferences) {
    Effective(policies, toolPolicies).Some? ==>
      forall v :: !Breaches(Effective(policies, toolPolicies).value, refs, v)
  }

  lemma NoBreachMeans(e: EffectivePolicy, refs: AgentReferences)
    ensures (forall v :: !Breaches(e, refs, v))
       <==> && (refs.model != "" ==> PermitsName(e.models, refs.model))
            && (forall m :: m in refs.mcpServers ==> PermitsName(e.mcp, m))
            && (forall t :: t in refs.tools ==> ToolBreach(e, t).None?)
  {
    if forall v :: !Breaches(e, refs, v) {
      assert !Breaches(e, refs, ModelDenied(refs.model));
      forall m | m in refs.mcpServers ensures PermitsName(e.mcp, m) {
        assert !Breaches(e, refs, McpServerDenied(m));
      }
      forall t | t in refs.tools ensures ToolBreach(e, t).None? {
        var b := ToolBreach(e, t);
        assert b.Some? ==> Breaches(e, refs, b.value);
      }
    }
  }

  lemma CleanMeansCompliant(policies: seq<Policy>, toolPolicies: seq<ToolPolicy>, refs: AgentReferences)
    ensures Clean(policies, toolPolicies, refs) <==> Compliant(policies, toolPolicies, refs)
  {
    var eff := Effective(policies, toolPolicies);
    if eff.Some? {
      NoBreachMeans(eff.value, refs);
    }
    FoldDenotes(policies, Models, refs.model);
    forall m | m in refs.mcpServers
      ensures PermitsName(MergedRule(policies, Mcp), m) <==> forall p :: p in policies ==> PermitsName(p.spec.mcp, m)
    {
      FoldDenotes(policies, Mcp, m);
    }
    forall t | t in refs.tools
      ensures PermitsName(MergedRule(policies, Tools), t) <==> forall p :: p in policies ==> PermitsName(p.spec.tools, t)
    {
      FoldDenotes(policies, Tools, t);
    }
  }
}
