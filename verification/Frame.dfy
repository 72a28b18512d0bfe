/** Index completeness: an Agent the mapper does not wake has the same resolution before and after the change. */
module Frame {
  import opened Lists
  import opened Api
  import opened Cluster
  import opened Resolution
  import opened FieldIndex

  /** Handling the event for key e puts Agent a on the queue. */
  ghost predicate Wakes(c: Store, e: Key, a: Key) {
    if e.kind == AgentKind then a == e
    else WatchOf(e.kind).Some? && Reached(c, WatchOf(e.kind).value, e.ns, e.name, a)
  }

  function Listed(ref: Option<string>): seq<string> {
    if ref.None? then [] else [ref.value]
  }

  /** The names of a kind that an Agent's targets can mention. */
  function Mentioned(spec: AgentSpec, eff: AgentSpec, kind: Kind): seq<string> {
    match kind
    case AgentClassKind => Listed(spec.agentClassRef)
    case ModelKind => Listed(eff.modelRef)
    case PromptTemplateKind => Listed(eff.promptRef)
    case ToolKind => eff.toolRefs
    case ToolSetKind => eff.toolSetRefs
    case SkillKind => eff.skillRefs
    case PolicyKind => eff.policyRefs
    case ToolPolicyKind => eff.toolPolicyRefs
    case CredentialKind =>
      spec.credentialRefs + (if spec.workspace.Some? then Listed(spec.workspace.value.credentialRef) else [])
    case AgentKind => []
    case McpServerKind => []
    case ConfigMapKind => []
  }

  lemma LeadingIsMentioned(spec: AgentSpec, eff: AgentSpec, t: Target)
    requires t in Leading(spec, eff)
    ensures t.name in Mentioned(spec, eff, t.kind)
  {
    var class_, model, prompt := One(AgentClassKind, spec.agentClassRef), One(ModelKind, eff.modelRef), One(PromptTemplateKind, eff.promptRef);
    var tools, sets := All(ToolKind, eff.toolRefs), All(ToolSetKind, eff.toolSetRefs);
    InFive(class_, model, prompt, tools, sets, t);
  }

  lemma InFive<T>(a: seq<T>, b: seq<T>, c: seq<T>, d: seq<T>, e: seq<T>, x: T)
    requires x in a + b + c + d + e
    ensures x in a || x in b || x in c || x in d || x in e
  {
  }

  lemma TargetIsMentioned(spec: AgentSpec, eff: AgentSpec, t: Target)
    requires t in Targets(spec, eff)
    ensures t.name in Mentioned(spec, eff, t.kind)
  {
    var skills, policies := All(SkillKind, eff.skillRefs), All(PolicyKind, eff.policyRefs);
    var toolPolicies, creds := All(ToolPolicyKind, eff.toolPolicyRefs), All(CredentialKind, spec.credentialRefs);
    if t in GitTarget(spec) {
    } else if t in Leading(spec, eff) {
      LeadingIsMentioned(spec, eff, t);
    } else {
      InFive(Leading(spec, eff), skills, policies, toolPolicies, creds, t);
    }
  }

  lemma ToolRefsAreTargets(spec: AgentSpec, eff: AgentSpec, name: string)
    ensures name in eff.toolRefs ==> Target(ToolKind, name, false) in Targets(spec, eff)
    ensures name in eff.toolSetRefs ==> Target(ToolSetKind, name, false) in Targets(spec, eff)
  {
  }

  /** What the class contributes to the effective spec, as its index lists it. */
  function ClassFieldOf(kind: Kind): Option<ClassField> {
    match kind
    case ModelKind => Some(DefaultModel)
    case PromptTemplateKind => Some(DefaultPrompt)
    case ToolKind => Some(DefaultTools)
    case SkillKind => Some(DefaultSkills)
    case PolicyKind => Some(DefaultPolicies)
    case ToolPolicyKind => Some(DefaultToolPolicies)
    case _ => None
  }

  /** A mentioned name comes from the Agent itself or from its class. */
  lemma MentionedOrigin(c: Store, ns: string, spec: AgentSpec, kind: Kind, name: string)
    requires name != "" && name in Mentioned(spec, EffectiveSpec(c, ns, spec), kind)
    ensures WatchOf(kind).Some?
    ensures var w := WatchOf(kind).value;
      || name in AgentValues(spec, w.direct[0])
      || (&& ClassOf(c, ns, spec).Some? && w.classFields != [] && ClassFieldOf(kind) == Some(w.classFields[0])
          && name in ClassValues(ClassOf(c, ns, spec).value, w.classFields[0]))
  {
  }

  lemma MentionedIsIndexed(c: Store, a: Key, spec: AgentSpec, kind: Kind, name: string)
    requires ProperNames(c) && a.kind == AgentKind && GetAgent(c, a) == Some(spec)
    requires name != "" && name in Mentioned(spec, EffectiveSpec(c, a.ns, spec), kind)
    ensures Wakes(c, Key(kind, a.ns, name), a)
  {
    MentionedOrigin(c, a.ns, spec, kind, name);
    var w := WatchOf(kind).value;
    if name in AgentValues(spec, w.direct[0]) {
      assert Names(spec, w, name);
    } else {
      var class_ := spec.agentClassRef.value;
      assert Key(AgentClassKind, a.ns, class_) in c;
      assert class_ in AgentValues(spec, ByClass);
      assert InheritsBy(c, a.ns, spec, w.classFields[0], name);
    }
  }

  /** Every target of an Agent is found again by the mapper, class defaults included. */
  lemma TargetIsIndexed(c: Store, a: Key, t: Target)
    requires ProperNames(c) && a.kind == AgentKind && GetAgent(c, a).Some? && t.name != ""
    requires var spec := GetAgent(c, a).value; t in Targets(spec, EffectiveSpec(c, a.ns, spec))
    ensures Wakes(c, Key(t.kind, a.ns, t.name), a)
  {
    var spec := GetAgent(c, a).value;
    TargetIsMentioned(spec, EffectiveSpec(c, a.ns, spec), t);
    MentionedIsIndexed(c, a, spec, t.kind, t.name);
  }

  /** Every tool of the expanded surface is found again by the mapper, ToolSet members included. */
  lemma SurfaceIsIndexed(c: Store, a: Key, tool: string)
    requires ProperNames(c) && a.kind == AgentKind && GetAgent(c, a).Some? && tool != ""
    requires var spec := GetAgent(c, a).value; tool in Surface(c, a.ns, EffectiveSpec(c, a.ns, spec))
    ensures Wakes(c, Key(ToolKind, a.ns, tool), a)
  {
    var spec := GetAgent(c, a).value;
    var eff := EffectiveSpec(c, a.ns, spec);
    if tool in eff.toolRefs {
      ToolRefsAreTargets(spec, eff, tool);
      TargetIsIndexed(c, a, Target(ToolKind, tool, false));
    } else {
      FlatMapMember(eff.toolSetRefs, MembersOf(c, a.ns), tool);
      var s :| s in eff.toolSetRefs && tool in MembersOf(c, a.ns)(s);
      assert Key(ToolSetKind, a.ns, s) in c;
      assert Includes(c, a.ns, spec, WatchOf(ToolKind).value, tool);
    }
  }

  // --- precision: no Agent is woken for nothing ---

  /** The Agent's own spec names it, in the field for objects of this kind. */
  ghost predicate SpecNames(spec: AgentSpec, kind: Kind, name: string) {
    match kind
    case AgentClassKind => spec.agentClassRef == Some(name)
    case ModelKind => spec.modelRef == Some(name)
    case PromptTemplateKind => spec.promptRef == Some(name)
    case ToolKind => name in spec.toolRefs
    case ToolSetKind => name in spec.toolSetRefs
    case SkillKind => name in spec.skillRefs
    case PolicyKind => name in spec.policyRefs
    case ToolPolicyKind => name in spec.toolPolicyRefs
    case CredentialKind =>
      name in spec.credentialRefs || (spec.workspace.Some? && spec.workspace.value.credentialRef == Some(name))
    case _ => false
  }

  /** A class hands it down, in the default for objects of this kind. */
  ghost predicate ClassNames(class_: AgentClassSpec, kind: Kind, name: string) {
    match kind
    case ModelKind => class_.defaultModelRef == Some(name)
    case PromptTemplateKind => class_.defaultPromptRef == Some(name)
    case ToolKind => name in class_.defaultToolRefs
    case SkillKind => name in class_.defaultSkillRefs
    case PolicyKind => name in class_.defaultPolicyRefs
    case ToolPolicyKind => name in class_.defaultToolPolicyRefs
    case _ => false
  }

  ghost predicate ViaClass(c: Store, ns: string, spec: AgentSpec, kind: Kind, name: string) {
    spec.agentClassRef.Some? && GetClass(c, ns, spec.agentClassRef.value).Some? &&
    ClassNames(GetClass(c, ns, spec.agentClassRef.value).value, kind, name)
  }

  ghost predicate ViaToolSet(c: Store, ns: string, spec: AgentSpec, kind: Kind, name: string) {
    kind == ToolKind && exists s :: s in spec.toolSetRefs && GetMembers(c, ns, s).Some? && name in GetMembers(c, ns, s).value
  }

  lemma DirectExactly(spec: AgentSpec, kind: Kind, name: string)
    requires name != "" && WatchOf(kind).Some?
    ensures Names(spec, WatchOf(kind).value, name) <==> SpecNames(spec, kind, name)
  {
    var w := WatchOf(kind).value;
    assert |w.direct| == 1 && w.direct == [w.direct[0]];
    assert name in AgentValues(spec, w.direct[0]) <==> SpecNames(spec, kind, name);
  }

  lemma ClassExactly(c: Store, ns: string, spec: AgentSpec, kind: Kind, name: string)
    requires name != "" && WatchOf(kind).Some? && ProperNames(c)
    ensures Inherits(c, ns, spec, WatchOf(kind).value, name) <==> ViaClass(c, ns, spec, kind, name)
  {
    var w := WatchOf(kind).value;
    if ViaClass(c, ns, spec, kind, name) {
      var class_ := spec.agentClassRef.value;
      assert Key(AgentClassKind, ns, class_) in c;
      assert class_ in AgentValues(spec, ByClass) && name in ClassValues(GetClass(c, ns, class_).value, w.classFields[0]);
      assert InheritsBy(c, ns, spec, w.classFields[0], name);
    }
    if Inherits(c, ns, spec, w, name) {
      var f :| f in w.classFields && InheritsBy(c, ns, spec, f, name);
      assert f == w.classFields[0];
    }
  }

  lemma ToolSetExactly(c: Store, ns: string, spec: AgentSpec, kind: Kind, name: string)
    requires name != "" && WatchOf(kind).Some? && ProperNames(c)
    ensures Includes(c, ns, spec, WatchOf(kind).value, name) <==> ViaToolSet(c, ns, spec, kind, name)
  {
    if ViaToolSet(c, ns, spec, kind, name) {
      var s :| s in spec.toolSetRefs && GetMembers(c, ns, s).Some? && name in GetMembers(c, ns, s).value;
      assert Key(ToolSetKind, ns, s) in c;
      assert s in AgentValues(spec, ByToolSets) && name in RefNamesOf(GetMembers(c, ns, s).value);
    }
  }

  /** Exactly the Agents an event wakes, from the specs in the cluster: of the same namespace, and naming the changed object
      themselves, through their class or through a ToolSet, in the field that is for it. */
  lemma WokenExactly(c: Store, e: Key, a: Key)
    requires ProperNames(c) && e.name != "" && WatchOf(e.kind).Some?
    ensures Wakes(c, e, a) <==>
            && a.kind == AgentKind && a.ns == e.ns && GetAgent(c, a).Some?
            && var spec := GetAgent(c, a).value;
              || SpecNames(spec, e.kind, e.name)
              || ViaClass(c, e.ns, spec, e.kind, e.name)
              || ViaToolSet(c, e.ns, spec, e.kind, e.name)
  {
    if GetAgent(c, a).Some? {
      var spec := GetAgent(c, a).value;
      DirectExactly(spec, e.kind, e.name);
      ClassExactly(c, e.ns, spec, e.kind, e.name);
      ToolSetExactly(c, e.ns, spec, e.kind, e.name);
    }
  }

  /** Two stores look the same to every read that resolving this Agent performs. */
  ghost predicate SameReads(c: Store, d: Store, ns: string, spec: AgentSpec) {
    && ClassOf(c, ns, spec) == ClassOf(d, ns, spec)
    && (forall t :: t in Targets(spec, EffectiveSpec(d, ns, spec)) ==> Find(c, ns, t) == Find(d, ns, t))
    && (forall n :: n in Surface(d, ns, EffectiveSpec(d, ns, spec)) ==> GetTool(c, ns, n) == GetTool(d, ns, n))
  }

  lemma SameReadsSameSurface(c: Store, d: Store, ns: string, spec: AgentSpec)
    requires SameReads(c, d, ns, spec)
    ensures EffectiveSpec(c, ns, spec) == EffectiveSpec(d, ns, spec)
    ensures Surface(c, ns, EffectiveSpec(c, ns, spec)) == Surface(d, ns, EffectiveSpec(d, ns, spec))
  {
    var eff := EffectiveSpec(d, ns, spec);
    forall s | s in eff.toolSetRefs ensures MembersOf(c, ns)(s) == MembersOf(d, ns)(s) {
      ToolRefsAreTargets(spec, eff, s);
      assert Find(c, ns, Target(ToolSetKind, s, false)) == Find(d, ns, Target(ToolSetKind, s, false));
    }
    FlatMapAgree(eff.toolSetRefs, MembersOf(c, ns), MembersOf(d, ns));
  }

  lemma SameReadsSameTargets(c: Store, d: Store, ns: string, ts: seq<Target>)
    requires forall t :: t in ts ==> Find(c, ns, t) == Find(d, ns, t)
    ensures FlatMap(ts, RefOf(c, ns)) == FlatMap(ts, RefOf(d, ns))
    ensures FlatMap(ts, MissOf(c, ns)) == FlatMap(ts, MissOf(d, ns))
    ensures FlatMap(ts, PolicyOf(c, ns)) == FlatMap(ts, PolicyOf(d, ns))
    ensures FlatMap(ts, ToolPolicyOf(c, ns)) == FlatMap(ts, ToolPolicyOf(d, ns))
    ensures FlatMap(ts, ScopeOf(c, ns)) == FlatMap(ts, ScopeOf(d, ns))
    ensures FlatMap(ts, CredentialOf(c, ns)) == FlatMap(ts, CredentialOf(d, ns))
    ensures FlatMap(ts, GitSecretOf(c, ns)) == FlatMap(ts, GitSecretOf(d, ns))
  {
    FlatMapAgree(ts, RefOf(c, ns), RefOf(d, ns));
    FlatMapAgree(ts, MissOf(c, ns), MissOf(d, ns));
    FlatMapAgree(ts, PolicyOf(c, ns), PolicyOf(d, ns));
    FlatMapAgree(ts, ToolPolicyOf(c, ns), ToolPolicyOf(d, ns));
    FlatMapAgree(ts, ScopeOf(c, ns), ScopeOf(d, ns));
    FlatMapAgree(ts, CredentialOf(c, ns), CredentialOf(d, ns));
    FlatMapAgree(ts, GitSecretOf(c, ns), GitSecretOf(d, ns));
  }

  lemma SameReadsSameTools(c: Store, d: Store, ns: string, tools: seq<string>)
    requires forall n :: n in tools ==> GetTool(c, ns, n) == GetTool(d, ns, n)
    ensures FlatMap(tools, McpOf(c, ns)) == FlatMap(tools, McpOf(d, ns))
    ensures FlatMap(tools, PeerOf(c, ns)) == FlatMap(tools, PeerOf(d, ns))
  {
  }

  lemma SameReadsSameResult(c: Store, d: Store, ns: string, spec: AgentSpec)
    requires SameReads(c, d, ns, spec)
    ensures Resolve(c, ns, spec) == Resolve(d, ns, spec)
  {
    SameReadsSameSurface(c, d, ns, spec);
    var eff := EffectiveSpec(d, ns, spec);
    SameReadsSameTargets(c, d, ns, Targets(spec, eff));
    SameReadsSameTools(c, d, ns, Dedupe(Surface(d, ns, eff)));
  }

  /** No resolution reads an Agent, so none moves when one is written. */
  lemma AgentsAreNotRead(c: Store, d: Store, k: Key, ns: string, spec: AgentSpec)
    requires AgreeOff(c, d, k) && k.kind == AgentKind
    ensures Resolve(c, ns, spec) == Resolve(d, ns, spec)
  {
    var eff := EffectiveSpec(d, ns, spec);
    forall t | t in Targets(spec, eff) ensures Find(c, ns, t) == Find(d, ns, t) {
      TargetIsMentioned(spec, eff, t);
    }
    SameReadsSameResult(c, d, ns, spec);
  }

  /** Frame theorem: after any create, update or delete at k, an Agent the mapper leaves asleep resolves as before. */
  lemma UnwokenIsUnchanged(c: Store, d: Store, k: Key, a: Key)
    requires AgreeOff(c, d, k) && ProperNames(c) && ProperNames(d)
    requires a.kind == AgentKind && GetAgent(c, a).Some? && GetAgent(d, a) == GetAgent(c, a)
    requires !Wakes(d, k, a)
    ensures Resolve(c, a.ns, GetAgent(c, a).value) == Resolve(d, a.ns, GetAgent(c, a).value)
  {
    var ns, spec := a.ns, GetAgent(c, a).value;
    if k.name == "" {
      assert k !in c && k !in d;
      assert c == d;
    } else {
      forall t | t in Targets(spec, EffectiveSpec(d, ns, spec)) ensures Find(c, ns, t) == Find(d, ns, t) {
        if Key(t.kind, ns, t.name) == k {
          TargetIsIndexed(d, a, t);
        }
      }
      forall n | n in Surface(d, ns, EffectiveSpec(d, ns, spec)) ensures GetTool(c, ns, n) == GetTool(d, ns, n) {
        if Key(ToolKind, ns, n) == k {
          SurfaceIsIndexed(d, a, n);
        }
      }
      if spec.agentClassRef.Some? {
        var t := Target(AgentClassKind, spec.agentClassRef.value, false);
        assert t in Leading(spec, EffectiveSpec(d, ns, spec));
        assert Find(c, ns, t) == Find(d, ns, t);
      }
      SameReadsSameResult(c, d, ns, spec);
    }
  }

  /** A change either leaves the image of another event alone at this Agent, or wakes the Agent itself. */
  lemma WakeIsStable(c: Store, d: Store, k: Key, e: Key, a: Key)
    requires AgreeOff(c, d, k) && ProperNames(c) && ProperNames(d)
    requires Wakes(c, e, a) && a != k
    ensures Wakes(d, e, a) || Wakes(d, k, a)
  {
  }
}
