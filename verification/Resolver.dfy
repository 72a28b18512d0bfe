/** The Operator's one pass over an Agent's references, filling a resolution in place. */
module Resolver {
  import opened Lists
  import opened Api
  import opened Cluster
  import R = Resolution

  method DedupeNames(names: seq<string>) returns (out: seq<string>)
    ensures out == Dedupe(names)
  {
    if |names| == 0 {
      return [];
    }
    var seen: set<string> := {};
    out := [];
    for i := 0 to |names|
      invariant out == Dedupe(names[..i])
      invariant forall n :: n in seen <==> n in names[..i]
    {
      DedupePrefix(names, i);
      assert names[..i + 1] == names[..i] + [names[i]];
      if names[i] !in seen {
        seen := seen + {names[i]};
        out := out + [names[i]];
      }
    }
    assert names[..|names|] == names;
  }

  ghost predicate Grown(before: R.Result, after: R.Result, c: Store, ns: string, t: R.Target) {
    && after.refs == before.refs + R.RefOf(c, ns)(t)
    && after.missing == before.missing + R.MissOf(c, ns)(t)
    && after.policies == before.policies + R.PolicyOf(c, ns)(t)
    && after.toolPolicies == before.toolPolicies + R.ToolPolicyOf(c, ns)(t)
    && after.skillScopes == before.skillScopes + R.ScopeOf(c, ns)(t)
    && after.credentials == before.credentials + R.CredentialOf(c, ns)(t)
    && after.gitSecret == R.LastOr(R.GitSecretOf(c, ns)(t), before.gitSecret)
    && after.declared == before.declared
    && after.peers == before.peers
  }

  /** Everything the target list alone determines, over the prefix already walked. */
  ghost predicate Walked(v: R.Result, c: Store, ns: string, ts: seq<R.Target>, noModel: seq<R.Missing>) {
    && v.refs == FlatMap(ts, R.RefOf(c, ns))
    && v.missing == noModel + FlatMap(ts, R.MissOf(c, ns))
    && v.policies == FlatMap(ts, R.PolicyOf(c, ns))
    && v.toolPolicies == FlatMap(ts, R.ToolPolicyOf(c, ns))
    && v.skillScopes == FlatMap(ts, R.ScopeOf(c, ns))
    && v.credentials == FlatMap(ts, R.CredentialOf(c, ns))
    && v.gitSecret == R.LastOr(FlatMap(ts, R.GitSecretOf(c, ns)), "")
  }

  lemma WalkedSnoc(v: R.Result, w: R.Result, c: Store, ns: string, ts: seq<R.Target>, t: R.Target, noModel: seq<R.Missing>)
    requires Walked(v, c, ns, ts, noModel) && Grown(v, w, c, ns, t)
    ensures Walked(w, c, ns, ts + [t], noModel)
  {
  }

  class Outcome {
    var refs: seq<ResolvedRef>
    var missing: seq<R.Missing>
    var policies: seq<Policy>
    var toolPolicies: seq<ToolPolicy>
    var declared: AgentReferences
    var skillScopes: seq<SkillToolScope>
    var credentials: seq<R.MountedCredential>
    var gitSecret: string
    var peers: seq<R.PeerRef>

    ghost function View(): R.Result
      reads this
    {
      R.Result(refs, missing, policies, toolPolicies, declared, skillScopes, credentials, gitSecret, peers)
    }

    constructor ()
      ensures View() == R.Result([], [], [], [], AgentReferences("", [], []), [], [], "", [])
    {
      refs, missing, policies, toolPolicies := [], [], [], [];
      declared := AgentReferences("", [], []);
      skillScopes, credentials, gitSecret, peers := [], [], "", [];
    }

    /** What a resolved object contributes beyond its hash entry. */
    method Collect(name: string, body: Body)
      modifies this
      ensures View() == match body
        case PolicyBody(p) => old(View()).(policies := old(policies) + [Policy(name, p)])
        case ToolPolicyBody(p) => old(View()).(toolPolicies := old(toolPolicies) + [ToolPolicy(name, p)])
        case SkillBody(tools, _, _, _) =>
          if tools == [] then old(View())
          else old(View()).(skillScopes := old(skillScopes) + [SkillToolScope(name, tools)])
        case CredentialBody(secret, _) => old(View()).(credentials := old(credentials) + [R.MountedCredential(name, secret)])
        case _ => old(View())
    {
      match body
      case PolicyBody(p) => policies := policies + [Policy(name, p)];
      case ToolPolicyBody(p) => toolPolicies := toolPolicies + [ToolPolicy(name, p)];
      case SkillBody(tools, _, _, _) =>
        if |tools| > 0 {
          skillScopes := skillScopes + [SkillToolScope(name, tools)];
        }
      case CredentialBody(secret, _) => credentials := credentials + [R.MountedCredential(name, secret)];
      case _ =>
    }

    /** One turn of the lookup loop: every list grows by exactly what this target contributes. */
    method Visit(c: Store, ns: string, t: R.Target)
      requires t.git ==> t.kind == CredentialKind
      modifies this
      ensures Grown(old(View()), View(), c, ns, t)
    {
      var o := Get(c, Key(t.kind, ns, t.name));
      if o.Some? {
        refs := refs + [ResolvedRef(t.kind, t.name, o.value.resourceVersion)];
        if t.git {
          gitSecret := o.value.body.secretName;
        } else {
          Collect(t.name, o.value.body);
        }
      } else {
        missing := missing + [R.MissingRef(t.kind, t.name)];
      }
    }

    method VisitNext(c: Store, ns: string, ghost walked: seq<R.Target>, t: R.Target, ghost noModel: seq<R.Missing>)
      requires Walked(View(), c, ns, walked, noModel)
      requires t.git ==> t.kind == CredentialKind
      modifies this
      ensures Walked(View(), c, ns, walked + [t], noModel)
      ensures declared == old(declared) && peers == old(peers)
    {
      ghost var before := View();
      Visit(c, ns, t);
      WalkedSnoc(before, View(), c, ns, walked, t, noModel);
    }

    method VisitAll(c: Store, ns: string, targets: seq<R.Target>)
      requires Walked(View(), c, ns, [], missing)
      requires forall t :: t in targets && t.git ==> t.kind == CredentialKind
      modifies this
      ensures Walked(View(), c, ns, targets, old(missing))
      ensures declared == old(declared) && peers == old(peers)
    {
      ghost var noModel := missing;
      for i := 0 to |targets|
        invariant Walked(View(), c, ns, targets[..i], noModel)
        invariant declared == old(declared) && peers == old(peers)
      {
        assert targets[..i + 1] == targets[..i] + [targets[i]];
        VisitNext(c, ns, targets[..i], targets[i], noModel);
      }
      assert targets[..|targets|] == targets;
    }

    /** Fills declared and peers from the expanded tool surface. */
    method Expand(c: Store, ns: string, eff: AgentSpec)
      requires peers == []
      modifies this`declared, this`peers
      requires declared.model == if eff.modelRef.Some? then eff.modelRef.value else ""
      ensures declared == R.Declared(c, ns, eff)
      ensures peers == R.Peers(c, ns, eff)
    {
      var toolNames := ExpandToolSets(c, ns, eff);
      var tools := DedupeNames(toolNames);
      var mcpNames: seq<string> := [];
      for i := 0 to |tools|
        invariant mcpNames == FlatMap(tools[..i], R.McpOf(c, ns))
        invariant peers == FlatMap(tools[..i], R.PeerOf(c, ns))
        invariant declared == old(declared)
      {
        FlatMapPrefix(tools, i, R.McpOf(c, ns));
        FlatMapPrefix(tools, i, R.PeerOf(c, ns));
        var tool := GetTool(c, ns, tools[i]);
        if tool.None? {
          continue;
        }
        if tool.value.mcpServerRef.Some? {
          mcpNames := mcpNames + [tool.value.mcpServerRef.value];
        }
        if tool.value.agentRef.Some? {
          peers := peers + [R.PeerRef(tools[i], tool.value.agentRef.value)];
        }
      }
      assert tools[..|tools|] == tools;
      var servers := DedupeNames(mcpNames);
      declared := AgentReferences(declared.model, tools, servers);
    }
  }

  ghost function Expanded(c: Store, ns: string, direct: seq<string>, sets: seq<string>): seq<string> {
    direct + FlatMap(sets, R.MembersOf(c, ns))
  }

  lemma ExpandedStep(c: Store, ns: string, direct: seq<string>, sets: seq<string>, i: nat)
    requires i < |sets|
    ensures Expanded(c, ns, direct, sets[..i + 1]) == Expanded(c, ns, direct, sets[..i]) + R.MembersOf(c, ns)(sets[i])
  {
    FlatMapPrefix(sets, i, R.MembersOf(c, ns));
  }

  method ExpandToolSets(c: Store, ns: string, eff: AgentSpec) returns (toolNames: seq<string>)
    ensures toolNames == R.Surface(c, ns, eff)
  {
    var sets := eff.toolSetRefs;
    toolNames := eff.toolRefs;
    for i := 0 to |sets|
      invariant toolNames == Expanded(c, ns, eff.toolRefs, sets[..i])
    {
      ExpandedStep(c, ns, eff.toolRefs, sets, i);
      var members := GetMembers(c, ns, sets[i]);
      if members.None? {
        continue;
      }
      toolNames := toolNames + members.value;
    }
    assert sets[..|sets|] == sets;
  }

  method AppendAll(targets: seq<R.Target>, kind: Kind, names: seq<string>) returns (out: seq<R.Target>)
    ensures out == targets + R.All(kind, names)
  {
    out := targets;
    for i := 0 to |names|
      invariant out == targets + R.All(kind, names)[..i]
    {
      out := out + [R.Target(kind, names[i], false)];
    }
  }

  method CollectTargets(spec: AgentSpec, eff: AgentSpec) returns (targets: seq<R.Target>)
    ensures targets == R.Targets(spec, eff)
  {
    targets := R.One(AgentClassKind, spec.agentClassRef);
    targets := targets + R.One(ModelKind, eff.modelRef);
    targets := targets + R.One(PromptTemplateKind, eff.promptRef);
    targets := AppendAll(targets, ToolKind, eff.toolRefs);
    targets := AppendAll(targets, ToolSetKind, eff.toolSetRefs);
    targets := AppendAll(targets, SkillKind, eff.skillRefs);
    targets := AppendAll(targets, PolicyKind, eff.policyRefs);
    targets := AppendAll(targets, ToolPolicyKind, eff.toolPolicyRefs);
    targets := AppendAll(targets, CredentialKind, spec.credentialRefs);
    targets := targets + R.GitTarget(spec);
  }

  lemma OnlyCredentialsAreGit(spec: AgentSpec, eff: AgentSpec)
    ensures forall t :: t in R.Targets(spec, eff) && t.git ==> t.kind == CredentialKind
  {
  }

  /** What the finished pass holds, given the effective spec it worked from. */
  ghost predicate Assembled(v: R.Result, c: Store, ns: string, spec: AgentSpec, eff: AgentSpec) {
    && Walked(v, c, ns, R.Targets(spec, eff), NoModelEntry(eff))
    && v.declared == R.Declared(c, ns, eff)
    && v.peers == R.Peers(c, ns, eff)
  }

  function NoModelEntry(eff: AgentSpec): seq<R.Missing> {
    if eff.modelRef.None? then [R.NoModel] else []
  }

  lemma AssembledIsResolved(v: R.Result, c: Store, ns: string, spec: AgentSpec, eff: AgentSpec)
    requires eff == R.EffectiveSpec(c, ns, spec) && Assembled(v, c, ns, spec, eff)
    ensures v == R.Resolve(c, ns, spec)
  {
  }

  lemma NothingWalked(v: R.Result, c: Store, ns: string)
    requires v == R.Result([], v.missing, [], [], v.declared, [], [], "", [])
    ensures Walked(v, c, ns, [], v.missing)
  {
  }

  lemma ExpansionCompletes(v: R.Result, w: R.Result, c: Store, ns: string, spec: AgentSpec, eff: AgentSpec)
    requires Walked(v, c, ns, R.Targets(spec, eff), NoModelEntry(eff))
    requires w == v.(declared := w.declared, peers := w.peers)
    requires w.declared == R.Declared(c, ns, eff) && w.peers == R.Peers(c, ns, eff)
    ensures Assembled(w, c, ns, spec, eff)
  {
  }

  method EffectiveFor(c: Store, ns: string, spec: AgentSpec) returns (eff: AgentSpec)
    ensures eff == R.EffectiveSpec(c, ns, spec)
  {
    var class_: Option<AgentClassSpec> := None;
    if spec.agentClassRef.Some? {
      class_ := GetClass(c, ns, spec.agentClassRef.value);
    }
    eff := R.ApplyClassDefaults(spec, class_);
  }

  method StartWith(c: Store, ns: string, eff: AgentSpec) returns (res: Outcome)
    ensures fresh(res)
    ensures Walked(res.View(), c, ns, [], res.missing)
    ensures res.missing == NoModelEntry(eff) && res.peers == []
    ensures res.declared.model == if eff.modelRef.Some? then eff.modelRef.value else ""
  {
    res := new Outcome();
    if eff.modelRef.Some? {
      res.declared := res.declared.(model := eff.modelRef.value);
    } else {
      res.missing := res.missing + [R.NoModel];
    }
    NothingWalked(res.View(), c, ns);
  }

  method ResolveWith(c: Store, ns: string, spec: AgentSpec, eff: AgentSpec) returns (res: Outcome)
    ensures fresh(res)
    ensures Assembled(res.View(), c, ns, spec, eff)
  {
    res := StartWith(c, ns, eff);
    var targets := CollectTargets(spec, eff);
    OnlyCredentialsAreGit(spec, eff);
    res.VisitAll(c, ns, targets);
    ghost var walked := res.View();
    res.Expand(c, ns, eff);
    ExpansionCompletes(walked, res.View(), c, ns, spec, eff);
  }

  /** The in-place pass computes the declarative result. */
  method ResolveRefs(c: Store, ns: string, spec: AgentSpec) returns (res: Outcome)
    ensures fresh(res)
    ensures res.View() == R.Resolve(c, ns, spec)
  {
    var eff := EffectiveFor(c, ns, spec);
    res := ResolveWith(c, ns, spec, eff);
    AssembledIsResolved(res.View(), c, ns, spec, eff);
  }
}
