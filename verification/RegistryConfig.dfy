/** The configuration the Registry serves, and its agreement with what the Operator resolved. */
module RegistryConfig {
  import opened Lists
  import opened Api
  import opened Cluster
  import R = Resolution
  import P = PolicyMerge

  datatype ToolView = ToolView(
    name: string, type_: string, description: string, endpoint: string, mcpToolName: string, inputSchema: Option<string>)

  datatype PromptView = PromptView(name: string, system: string)

  datatype ModelView = ModelView(provider: string, modelName: string, endpoint: string, secretName: string, secretKey: string)

  datatype SkillView = SkillView(name: string, description: string, content: string, allowedTools: seq<string>)

  datatype AgentConfig = AgentConfig(
    ns: string,
    name: string,
    configHash: ConfigHash,
    phase: Phase,
    spec: AgentSpec,
    prompt: Option<PromptView>,
    model: Option<ModelView>,
    tools: seq<ToolView>,
    skills: seq<SkillView>,
    policy: Option<P.EffectivePolicy>)

  // --- one tool ---

  /** The object an mcp tool points at, if it is there. */
  function Behind(c: Store, ns: string, t: ToolSpec, kind: Kind, ref: Option<string>): Option<Object> {
    if t.type_ == McpType && ref.Some? then Get(c, Key(kind, ns, ref.value)) else None
  }

  /** A peer's published endpoint wins over a server's, a server's over the tool's own address. */
  function EndpointOf(c: Store, ns: string, t: ToolSpec): string {
    var server, peer := Behind(c, ns, t, McpServerKind, t.mcpServerRef), Behind(c, ns, t, AgentKind, t.agentRef);
    if peer.Some? then peer.value.body.status.peerEndpoint
    else if server.Some? then server.value.body.endpoint
    else t.endpoint
  }

  /** A tool that does not describe itself borrows the description its peer is exposed with. */
  function DescriptionOf(c: Store, ns: string, t: ToolSpec): string {
    var peer := Behind(c, ns, t, AgentKind, t.agentRef);
    if t.description == "" && peer.Some? && peer.value.body.agent.expose.Some?
    then peer.value.body.agent.expose.value.description
    else t.description
  }

  function ViewOf(c: Store, ns: string, name: string, t: ToolSpec): ToolView {
    ToolView(name, t.type_, DescriptionOf(c, ns, t), EndpointOf(c, ns, t), t.mcpToolName, t.inputSchema)
  }

  function ToolViewOf(c: Store, ns: string): string -> seq<ToolView> {
    n => var t := GetTool(c, ns, n); if t.Some? then [ViewOf(c, ns, n, t.value)] else []
  }

  /** The view of a Tool, field by field, from the objects in the cluster. */
  ghost predicate TellsTool(c: Store, ns: string, v: ToolView) {
    GetTool(c, ns, v.name).Some? &&
    var t := GetTool(c, ns, v.name).value;
    && v.type_ == t.type_ && v.mcpToolName == t.mcpToolName && v.inputSchema == t.inputSchema
    && (t.type_ != McpType ==> v.endpoint == t.endpoint && v.description == t.description)
    && (t.type_ == McpType ==> TellsEndpoint(c, ns, t, v.endpoint) && TellsDescription(c, ns, t, v.description))
  }

  /** The peer's published endpoint if the peer is there, else the server's if that is there, else the tool's own. */
  ghost predicate TellsEndpoint(c: Store, ns: string, t: ToolSpec, endpoint: string) {
    if t.agentRef.Some? && Exists(c, AgentKind, ns, t.agentRef.value)
    then endpoint == c[Key(AgentKind, ns, t.agentRef.value)].body.status.peerEndpoint
    else if t.mcpServerRef.Some? && Exists(c, McpServerKind, ns, t.mcpServerRef.value)
    then endpoint == c[Key(McpServerKind, ns, t.mcpServerRef.value)].body.endpoint
    else endpoint == t.endpoint
  }

  /** The tool's own description; only where it has none, that of an exposed peer. */
  ghost predicate TellsDescription(c: Store, ns: string, t: ToolSpec, description: string) {
    && (t.description != "" ==> description == t.description)
    && (t.description == "" && t.agentRef.Some? && Exists(c, AgentKind, ns, t.agentRef.value) ==>
          var expose := c[Key(AgentKind, ns, t.agentRef.value)].body.agent.expose;
          description == if expose.Some? then expose.value.description else "")
    && (t.description == "" && (t.agentRef.None? || !Exists(c, AgentKind, ns, t.agentRef.value)) ==> description == "")
  }

  method ResolveTool(c: Store, ns: string, name: string) returns (view: Option<ToolView>)
    ensures view.None? <==> GetTool(c, ns, name).None?
    ensures view.Some? ==> view.value.name == name && TellsTool(c, ns, view.value)
    ensures view.Some? ==> ToolViewOf(c, ns)(name) == [view.value]
  {
    var tool := GetTool(c, ns, name);
    if tool.None? {
      return None;
    }
    var t := tool.value;
    var description, endpoint := t.description, t.endpoint;
    if t.type_ == McpType && t.mcpServerRef.Some? {
      var server := Get(c, Key(McpServerKind, ns, t.mcpServerRef.value));
      if server.Some? {
        endpoint := server.value.body.endpoint;
      }
    }
    if t.type_ == McpType && t.agentRef.Some? {
      var peer := Get(c, Key(AgentKind, ns, t.agentRef.value));
      if peer.Some? {
        endpoint := peer.value.body.status.peerEndpoint;
        if description == "" && peer.value.body.agent.expose.Some? {
          description := peer.value.body.agent.expose.value.description;
        }
      }
    }
    return Some(ToolView(name, t.type_, description, endpoint, t.mcpToolName, t.inputSchema));
  }

  // --- one skill ---

  /** Inline content, or failing that what the ConfigMap holds under the key. */
  function ContentOf(c: Store, ns: string, content: string, ref: Option<ConfigMapKey>): string {
    if content != "" || ref.None? then content
    else
      var cm := Get(c, Key(ConfigMapKind, ns, ref.value.name));
      if cm.Some? && ref.value.key in cm.value.body.data then cm.value.body.data[ref.value.key] else ""
  }

  function SkillViewOf(c: Store, ns: string): string -> seq<SkillView> {
    n => var o := Get(c, Key(SkillKind, ns, n));
      if o.None? then []
      else
        var b := o.value.body;
        [SkillView(n, b.description, ContentOf(c, ns, b.content, b.contentRef), b.allowedTools)]
  }

  // --- all tools ---

  /** What trying these names one after the other serves: each existing tool at its first occurrence. */
  function Serve(c: Store, ns: string, tried: seq<string>): seq<ToolView> {
    if tried == [] then []
    else
      var n := |tried| - 1;
      Serve(c, ns, tried[..n]) + (if tried[n] in tried[..n] then [] else ToolViewOf(c, ns)(tried[n]))
  }

  lemma {:induction false} ServeDedupes(c: Store, ns: string, tried: seq<string>)
    ensures Serve(c, ns, tried) == FlatMap(Dedupe(tried), ToolViewOf(c, ns))
  {
    if tried != [] {
      var n := |tried| - 1;
      ServeDedupes(c, ns, tried[..n]);
      FlatMapSnoc(Dedupe(tried[..n]), tried[n], ToolViewOf(c, ns));
    }
  }

  ghost predicate Seen(c: Store, ns: string, tried: seq<string>, seen: set<string>) {
    forall n :: n in seen <==> n in tried && GetTool(c, ns, n).Some?
  }

  /** A tool is marked as seen only once it has resolved, so a missing one is looked up again each time. */
  method AddTool(c: Store, ns: string, name: string, tools: seq<ToolView>, seen: set<string>, ghost tried: seq<string>)
    returns (tools': seq<ToolView>, seen': set<string>)
    requires tools == Serve(c, ns, tried) && Seen(c, ns, tried, seen)
    ensures tools' == Serve(c, ns, tried + [name]) && Seen(c, ns, tried + [name], seen')
  {
    tools', seen' := tools, seen;
    assert (tried + [name])[..|tried|] == tried;
    if name in seen {
      return;
    }
    var view := ResolveTool(c, ns, name);
    if view.None? {
      return;
    }
    tools', seen' := tools + [view.value], seen + {name};
  }

  method AddTools(c: Store, ns: string, names: seq<string>, tools: seq<ToolView>, seen: set<string>, ghost tried: seq<string>)
    returns (tools': seq<ToolView>, seen': set<string>)
    requires tools == Serve(c, ns, tried) && Seen(c, ns, tried, seen)
    ensures tools' == Serve(c, ns, tried + names) && Seen(c, ns, tried + names, seen')
  {
    tools', seen' := tools, seen;
    ghost var done := tried;
    for i := 0 to |names|
      invariant done == tried + names[..i]
      invariant tools' == Serve(c, ns, done) && Seen(c, ns, done, seen')
    {
      tools', seen' := AddTool(c, ns, names[i], tools', seen', done);
      assert done + [names[i]] == tried + names[..i + 1];
      done := done + [names[i]];
    }
    assert done == tried + names;
  }

  method AddToolSet(c: Store, ns: string, set_: string, tools: seq<ToolView>, seen: set<string>, ghost tried: seq<string>)
    returns (tools': seq<ToolView>, seen': set<string>)
    requires tools == Serve(c, ns, tried) && Seen(c, ns, tried, seen)
    ensures var now := tried + R.MembersOf(c, ns)(set_);
      tools' == Serve(c, ns, now) && Seen(c, ns, now, seen')
  {
    var members := GetMembers(c, ns, set_);
    if members.None? {
      assert tried + R.MembersOf(c, ns)(set_) == tried;
      return tools, seen;
    }
    tools', seen' := AddTools(c, ns, members.value, tools, seen, tried);
  }

  method AddToolSets(c: Store, ns: string, sets: seq<string>, tools: seq<ToolView>, seen: set<string>, ghost tried: seq<string>)
    returns (tools': seq<ToolView>)
    requires tools == Serve(c, ns, tried) && Seen(c, ns, tried, seen)
    ensures tools' == Serve(c, ns, tried + FlatMap(sets, R.MembersOf(c, ns)))
  {
    tools' := tools;
    var seen' := seen;
    ghost var done := tried;
    for i := 0 to |sets|
      invariant done == Contributed(c, ns, tried, sets[..i])
      invariant tools' == Serve(c, ns, done) && Seen(c, ns, done, seen')
    {
      ContributedStep(c, ns, tried, sets, i);
      tools', seen' := AddToolSet(c, ns, sets[i], tools', seen', done);
      done := done + R.MembersOf(c, ns)(sets[i]);
    }
    assert sets[..|sets|] == sets;
  }

  ghost function Contributed(c: Store, ns: string, tried: seq<string>, sets: seq<string>): seq<string> {
    tried + FlatMap(sets, R.MembersOf(c, ns))
  }

  lemma ContributedStep(c: Store, ns: string, tried: seq<string>, sets: seq<string>, i: nat)
    requires i < |sets|
    ensures Contributed(c, ns, tried, sets[..i + 1]) == Contributed(c, ns, tried, sets[..i]) + R.MembersOf(c, ns)(sets[i])
  {
    FlatMapPrefix(sets, i, R.MembersOf(c, ns));
  }

  method ResolveTools(c: Store, ns: string, eff: AgentSpec) returns (tools: seq<ToolView>)
    ensures tools == Serve(c, ns, R.Surface(c, ns, eff))
  {
    var seen: set<string> := {};
    tools := [];
    tools, seen := AddTools(c, ns, eff.toolRefs, tools, seen, []);
    assert [] + eff.toolRefs == eff.toolRefs;
    tools := AddToolSets(c, ns, eff.toolSetRefs, tools, seen, eff.toolRefs);
  }

  method ResolvePolicy(c: Store, ns: string, eff: AgentSpec) returns (policy: Option<P.EffectivePolicy>)
    ensures policy == P.Effective(R.PoliciesAt(c, ns, eff.policyRefs), R.ToolPoliciesAt(c, ns, eff.toolPolicyRefs))
  {
    var policies: seq<Policy> := [];
    ghost var all, f := R.All(PolicyKind, eff.policyRefs), R.PolicyOf(c, ns);
    for i := 0 to |eff.policyRefs|
      invariant policies == FlatMap(all[..i], f)
    {
      FlatMapPrefix(all, i, f);
      var o := Get(c, Key(PolicyKind, ns, eff.policyRefs[i]));
      if o.None? {
        continue;
      }
      policies := policies + [Policy(eff.policyRefs[i], o.value.body.policy)];
    }
    assert all[..|all|] == all;
    var toolPolicies := ResolveToolPolicies(c, ns, eff.toolPolicyRefs);
    policy := P.MergePolicies(policies, toolPolicies);
  }

  method ResolveToolPolicies(c: Store, ns: string, names: seq<string>) returns (toolPolicies: seq<ToolPolicy>)
    ensures toolPolicies == R.ToolPoliciesAt(c, ns, names)
  {
    toolPolicies := [];
    ghost var all, f := R.All(ToolPolicyKind, names), R.ToolPolicyOf(c, ns);
    for i := 0 to |names|
      invariant toolPolicies == FlatMap(all[..i], f)
    {
      FlatMapPrefix(all, i, f);
      var o := Get(c, Key(ToolPolicyKind, ns, names[i]));
      if o.None? {
        continue;
      }
      toolPolicies := toolPolicies + [ToolPolicy(names[i], o.value.body.toolPolicy)];
    }
    assert all[..|all|] == all;
  }

  /** The key within the Secret behind the effective Model's Credential, or "" while a step towards it is missing. */
  function ModelKey(c: Store, ns: string, eff: AgentSpec): string {
    if eff.modelRef.None? then ""
    else
      var model := Get(c, Key(ModelKind, ns, eff.modelRef.value));
      if model.None? || model.value.body.credentialRef.None? then ""
      else
        var cred := Get(c, Key(CredentialKind, ns, model.value.body.credentialRef.value));
        if cred.None? then "" else cred.value.body.secretKey
  }

  /** The view of the effective Model, with the Secret the Operator mounts for it. */
  function ModelViewOf(c: Store, ns: string, eff: AgentSpec): Option<ModelView> {
    if eff.modelRef.None? then None
    else
      var o := Get(c, Key(ModelKind, ns, eff.modelRef.value));
      if o.None? then None
      else
        var b := o.value.body;
        Some(ModelView(b.provider, b.modelName, b.endpoint, R.ModelSecret(c, ns, eff), ModelKey(c, ns, eff)))
  }

  function PromptOf(c: Store, ns: string, eff: AgentSpec): Option<PromptView> {
    if eff.promptRef.None? then None
    else
      var text := GetPrompt(c, ns, eff.promptRef.value);
      if text.None? then None else Some(PromptView(eff.promptRef.value, text.value))
  }

  /** The prompt served is the one the effective spec names, with the text it has in the cluster. */
  lemma PromptFields(c: Store, ns: string, eff: AgentSpec, prompt: string)
    requires eff.promptRef == Some(prompt)
    ensures PromptOf(c, ns, eff).Some? <==> Exists(c, PromptTemplateKind, ns, prompt)
    ensures PromptOf(c, ns, eff).Some? ==>
              PromptOf(c, ns, eff).value.name == prompt &&
              PromptOf(c, ns, eff).value.system == c[Key(PromptTemplateKind, ns, prompt)].body.system
  {
  }

  /** The view of a Model, field by field: its own fields, and the Secret and key of its Credential where that is there. */
  lemma ModelFields(c: Store, ns: string, eff: AgentSpec, model: string)
    requires eff.modelRef == Some(model)
    ensures ModelViewOf(c, ns, eff).Some? <==> Exists(c, ModelKind, ns, model)
    ensures ModelViewOf(c, ns, eff).Some? ==>
              var v, b := ModelViewOf(c, ns, eff).value, c[Key(ModelKind, ns, model)].body;
              && v.provider == b.provider && v.modelName == b.modelName && v.endpoint == b.endpoint
              && (b.credentialRef.None? || !Exists(c, CredentialKind, ns, b.credentialRef.value) ==> v.secretName == "" && v.secretKey == "")
              && (b.credentialRef.Some? && Exists(c, CredentialKind, ns, b.credentialRef.value) ==>
                    var cred := c[Key(CredentialKind, ns, b.credentialRef.value)].body;
                    v.secretName == cred.secretName && v.secretKey == cred.secretKey)
  {
  }

  /** The views of Skills, field by field: the text is the inline one, or failing that the ConfigMap's under the key. */
  lemma SkillFields(c: Store, ns: string, names: seq<string>, v: SkillView)
    ensures v in FlatMap(names, SkillViewOf(c, ns)) <==>
            v.name in names && Exists(c, SkillKind, ns, v.name) && TellsSkill(c, ns, v)
  {
    FlatMapMember(names, SkillViewOf(c, ns), v);
    if v.name in names && Exists(c, SkillKind, ns, v.name) && TellsSkill(c, ns, v) {
      assert SkillViewOf(c, ns)(v.name) == [v];
    }
  }

  ghost predicate TellsSkill(c: Store, ns: string, v: SkillView)
    requires Exists(c, SkillKind, ns, v.name)
  {
    var b := c[Key(SkillKind, ns, v.name)].body;
    && v.description == b.description && v.allowedTools == b.allowedTools
    && (b.content != "" ==> v.content == b.content)
    && (b.content == "" && b.contentRef.None? ==> v.content == "")
    && (b.content == "" && b.contentRef.Some? ==>
          var ref := b.contentRef.value;
          && (!Exists(c, ConfigMapKind, ns, ref.name) ==> v.content == "")
          && (Exists(c, ConfigMapKind, ns, ref.name) ==>
                var data := c[Key(ConfigMapKind, ns, ref.name)].body.data;
                v.content == if ref.key in data then data[ref.key] else ""))
  }

  /** What the Registry serves for Agent a, in terms of what the Operator resolved and published. */
  ghost function Served(c: Store, a: Key, spec: AgentSpec, status: Status): AgentConfig {
    var eff, r := R.EffectiveSpec(c, a.ns, spec), R.Resolve(c, a.ns, spec);
    AgentConfig(
      a.ns, a.name, status.configHash, status.phase,
      eff, PromptOf(c, a.ns, eff), ModelViewOf(c, a.ns, eff),
      FlatMap(r.declared.tools, ToolViewOf(c, a.ns)), FlatMap(eff.skillRefs, SkillViewOf(c, a.ns)),
      P.Effective(r.policies, r.toolPolicies))
  }

  /** The same, part by part, as the Registry looks them up. */
  lemma ServedInParts(c: Store, a: Key, spec: AgentSpec, status: Status, eff: AgentSpec)
    requires eff == R.EffectiveSpec(c, a.ns, spec)
    ensures Served(c, a, spec, status) == AgentConfig(
      a.ns, a.name, status.configHash, status.phase,
      eff, PromptOf(c, a.ns, eff), ModelViewOf(c, a.ns, eff),
      Serve(c, a.ns, R.Surface(c, a.ns, eff)), FlatMap(eff.skillRefs, SkillViewOf(c, a.ns)),
      P.Effective(R.PoliciesAt(c, a.ns, eff.policyRefs), R.ToolPoliciesAt(c, a.ns, eff.toolPolicyRefs)))
  {
    R.CollectedLists(c, a.ns, spec);
    ServeDedupes(c, a.ns, R.Surface(c, a.ns, eff));
  }

  /** Operator and Registry agree in every cluster state: same effective spec, same tools, same merged policy. */
  method BuildConfigFrom(c: Store, a: Key, spec: AgentSpec, status: Status) returns (cfg: AgentConfig)
    ensures cfg == Served(c, a, spec, status)
  {
    var ns := a.ns;
    var class_: Option<AgentClassSpec> := None;
    if spec.agentClassRef.Some? {
      class_ := GetClass(c, ns, spec.agentClassRef.value);
    }
    var eff := R.ApplyClassDefaults(spec, class_);
    var prompt := ResolvePrompt(c, ns, eff);
    var model := ResolveModel(c, ns, eff);
    var tools := ResolveTools(c, ns, eff);
    var skills := ResolveSkills(c, ns, eff.skillRefs);
    var policy := ResolvePolicy(c, ns, eff);
    ServedInParts(c, a, spec, status, eff);
    cfg := AgentConfig(ns, a.name, status.configHash, status.phase, eff, prompt, model, tools, skills, policy);
  }

  method ResolvePrompt(c: Store, ns: string, eff: AgentSpec) returns (prompt: Option<PromptView>)
    ensures prompt == PromptOf(c, ns, eff)
  {
    prompt := None;
    if eff.promptRef.Some? {
      var text := GetPrompt(c, ns, eff.promptRef.value);
      if text.Some? {
        prompt := Some(PromptView(eff.promptRef.value, text.value));
      }
    }
  }

  /** The Secret reported for the model is the one the Operator mounts for it. */
  method ResolveModel(c: Store, ns: string, eff: AgentSpec) returns (model: Option<ModelView>)
    ensures model == ModelViewOf(c, ns, eff)
  {
    model := None;
    if eff.modelRef.Some? {
      var o := Get(c, Key(ModelKind, ns, eff.modelRef.value));
      if o.Some? {
        var secretName, secretKey := "", "";
        if o.value.body.credentialRef.Some? {
          var cred := Get(c, Key(CredentialKind, ns, o.value.body.credentialRef.value));
          if cred.Some? {
            secretName, secretKey := cred.value.body.secretName, cred.value.body.secretKey;
          }
        }
        model := Some(ModelView(o.value.body.provider, o.value.body.modelName, o.value.body.endpoint, secretName, secretKey));
      }
    }
  }

  method ResolveSkill(c: Store, ns: string, name: string) returns (view: SkillView)
    requires Exists(c, SkillKind, ns, name)
    ensures SkillViewOf(c, ns)(name) == [view]
  {
    var b := c[Key(SkillKind, ns, name)].body;
    var content := b.content;
    if content == "" && b.contentRef.Some? {
      var cm := Get(c, Key(ConfigMapKind, ns, b.contentRef.value.name));
      if cm.Some? && b.contentRef.value.key in cm.value.body.data {
        content := cm.value.body.data[b.contentRef.value.key];
      }
    }
    return SkillView(name, b.description, content, b.allowedTools);
  }

  method ResolveSkills(c: Store, ns: string, names: seq<string>) returns (skills: seq<SkillView>)
    ensures skills == FlatMap(names, SkillViewOf(c, ns))
  {
    skills := [];
    for i := 0 to |names|
      invariant skills == FlatMap(names[..i], SkillViewOf(c, ns))
    {
      FlatMapPrefix(names, i, SkillViewOf(c, ns));
      if !Exists(c, SkillKind, ns, names[i]) {
        continue;
      }
      var skill := ResolveSkill(c, ns, names[i]);
      skills := skills + [skill];
    }
    assert names[..|names|] == names;
  }

  /** The served tools are distinct, and they are exactly the Operator's surface restricted to existing Tools, in its order. */
  lemma {:induction false} ServedToolNames(c: Store, ns: string, surface: seq<string>)
    requires Distinct(surface)
    ensures var served := FlatMap(surface, ToolViewOf(c, ns));
      && (forall v :: v in served <==> v.name in surface && TellsTool(c, ns, v))
      && (forall i, j :: 0 <= i < j < |served| ==> served[i].name != served[j].name)
  {
    if surface != [] {
      var n := |surface| - 1;
      ServedToolNames(c, ns, surface[..n]);
      assert surface == surface[..n] + [surface[n]];
      var before := FlatMap(surface[..n], ToolViewOf(c, ns));
      assert forall i :: 0 <= i < |before| ==> before[i] in before;
      forall v: ToolView | v.name == surface[n] ensures v in ToolViewOf(c, ns)(surface[n]) <==> TellsTool(c, ns, v) {
        ToldExactly(c, ns, v);
      }
    }
  }

  /** The fields determine the view. */
  lemma ToldExactly(c: Store, ns: string, v: ToolView)
    ensures v in ToolViewOf(c, ns)(v.name) <==> TellsTool(c, ns, v)
  {
    if GetTool(c, ns, v.name).Some? {
      var t := GetTool(c, ns, v.name).value;
      assert TellsEndpoint(c, ns, t, v.endpoint) && t.type_ == McpType ==> v.endpoint == EndpointOf(c, ns, t);
    }
  }

  /** What the Registry serves, in terms of the cluster: each tool of the surface that exists, once, told field by field;
      and nothing else. */
  lemma ServedTools(c: Store, a: Key, spec: AgentSpec, status: Status, v: ToolView)
    ensures var served := Served(c, a, spec, status).tools;
      && (v in served <==> v.name in R.Surface(c, a.ns, R.EffectiveSpec(c, a.ns, spec)) && TellsTool(c, a.ns, v))
      && forall i, j :: 0 <= i < j < |served| ==> served[i].name != served[j].name
  {
    ServedToolNames(c, a.ns, Dedupe(R.Surface(c, a.ns, R.EffectiveSpec(c, a.ns, spec))));
  }
}
