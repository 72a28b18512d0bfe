/** What resolving an Agent's references means, field by field. */
module Resolution {
  import opened Lists
  import opened Api
  import opened Cluster

  // --- the effective spec ---

  /** Agent-level values win; class defaults only fill gaps. */
  function ApplyClassDefaults(spec: AgentSpec, class_: Option<AgentClassSpec>): AgentSpec {
    if class_.None? then spec
    else
      var d := class_.value;
      spec.(modelRef := if spec.modelRef.None? then d.defaultModelRef else spec.modelRef,
            promptRef := if spec.promptRef.None? then d.defaultPromptRef else spec.promptRef,
            policyRefs := if spec.policyRefs == [] then d.defaultPolicyRefs else spec.policyRefs,
            toolPolicyRefs := if spec.toolPolicyRefs == [] then d.defaultToolPolicyRefs else spec.toolPolicyRefs,
            toolRefs := if spec.toolRefs == [] then d.defaultToolRefs else spec.toolRefs,
            skillRefs := if spec.skillRefs == [] then d.defaultSkillRefs else spec.skillRefs)
  }

  function ClassOf(c: Store, ns: string, spec: AgentSpec): Option<AgentClassSpec> {
    if spec.agentClassRef.None? then None else GetClass(c, ns, spec.agentClassRef.value)
  }

  function EffectiveSpec(c: Store, ns: string, spec: AgentSpec): AgentSpec {
    ApplyClassDefaults(spec, ClassOf(c, ns, spec))
  }

  /** Agent-level values always win: what the Agent sets survives every class, what it leaves unset is the class's, and
      nothing else moves. */
  lemma ClassFillsGaps(spec: AgentSpec, class_: Option<AgentClassSpec>)
    ensures var e := ApplyClassDefaults(spec, class_);
      && (class_.None? ==> e == spec)
      && (spec.modelRef.Some? ==> e.modelRef == spec.modelRef)
      && (spec.promptRef.Some? ==> e.promptRef == spec.promptRef)
      && (spec.toolRefs != [] ==> e.toolRefs == spec.toolRefs)
      && (spec.skillRefs != [] ==> e.skillRefs == spec.skillRefs)
      && (spec.policyRefs != [] ==> e.policyRefs == spec.policyRefs)
      && (spec.toolPolicyRefs != [] ==> e.toolPolicyRefs == spec.toolPolicyRefs)
    ensures forall d: AgentClassSpec :: class_ == Some(d) ==>
              var e := ApplyClassDefaults(spec, class_);
              && (spec.modelRef.None? ==> e.modelRef == d.defaultModelRef)
              && (spec.promptRef.None? ==> e.promptRef == d.defaultPromptRef)
              && (spec.toolRefs == [] ==> e.toolRefs == d.defaultToolRefs)
              && (spec.skillRefs == [] ==> e.skillRefs == d.defaultSkillRefs)
              && (spec.policyRefs == [] ==> e.policyRefs == d.defaultPolicyRefs)
              && (spec.toolPolicyRefs == [] ==> e.toolPolicyRefs == d.defaultToolPolicyRefs)
    ensures var e := ApplyClassDefaults(spec, class_);
      && e.agentClassRef == spec.agentClassRef && e.toolSetRefs == spec.toolSetRefs && e.credentialRefs == spec.credentialRefs
      && e.runtime == spec.runtime && e.workspace == spec.workspace && e.expose == spec.expose
  {
  }

  /** Applying the same class again changes nothing. */
  lemma ClassAppliesOnce(spec: AgentSpec, class_: Option<AgentClassSpec>)
    ensures ApplyClassDefaults(ApplyClassDefaults(spec, class_), class_) == ApplyClassDefaults(spec, class_)
  {
  }

  /** The policies a class hands down bind every Agent of that class. */
  ghost predicate ClassPoliciesBind(spec: AgentSpec) {
    forall class_: AgentClassSpec, name ::
      name in class_.defaultPolicyRefs ==> name in ApplyClassDefaults(spec, Some(class_)).policyRefs
  }

  /** An Agent with a single Policy of its own escapes those of its class: defaults fill gaps, they are not merged. */
  lemma ClassPoliciesBindExactly(spec: AgentSpec)
    ensures ClassPoliciesBind(spec) <==> spec.policyRefs == []
  {
    if spec.policyRefs != [] {
      var name := FreshName(spec.policyRefs);
      var class_ := AgentClassSpec(None, None, [name], [], [], []);
      assert name in class_.defaultPolicyRefs && name !in ApplyClassDefaults(spec, Some(class_)).policyRefs;
    }
  }

  lemma {:induction false} FreshName(names: seq<string>) returns (name: string)
    ensures forall n :: n in names ==> |n| < |name|
  {
    if names == [] {
      name := "";
    } else {
      var k := |names| - 1;
      var shorter := FreshName(names[..k]);
      name := shorter + names[k] + "x";
      assert names == names[..k] + [names[k]];
    }
  }

  // --- targets ---

  datatype Target = Target(kind: Kind, name: string, git: bool)

  function One(kind: Kind, ref: Option<string>): seq<Target> {
    if ref.None? then [] else [Target(kind, ref.value, false)]
  }

  function All(kind: Kind, names: seq<string>): (ts: seq<Target>)
    ensures |ts| == |names| && forall i :: 0 <= i < |ts| ==> ts[i] == Target(kind, names[i], false)
  {
    seq(|names|, i requires 0 <= i < |names| => Target(kind, names[i], false))
  }

  function GitTarget(spec: AgentSpec): seq<Target> {
    if spec.workspace.Some? && spec.workspace.value.repository != "" && spec.workspace.value.credentialRef.Some?
    then [Target(CredentialKind, spec.workspace.value.credentialRef.value, true)]
    else []
  }

  function Leading(spec: AgentSpec, eff: AgentSpec): seq<Target> {
    One(AgentClassKind, spec.agentClassRef)
    + One(ModelKind, eff.modelRef)
    + One(PromptTemplateKind, eff.promptRef)
    + All(ToolKind, eff.toolRefs)
    + All(ToolSetKind, eff.toolSetRefs)
  }

  /** The order of this list is the order the config hash is computed over. */
  function Targets(spec: AgentSpec, eff: AgentSpec): seq<Target> {
    Leading(spec, eff)
    + All(SkillKind, eff.skillRefs)
    + All(PolicyKind, eff.policyRefs)
    + All(ToolPolicyKind, eff.toolPolicyRefs)
    + All(CredentialKind, spec.credentialRefs)
    + GitTarget(spec)
  }

  /** The place of a kind in the hash order. */
  function Rank(t: Target): nat {
    match t.kind
    case AgentClassKind => 0
    case ModelKind => 1
    case PromptTemplateKind => 2
    case ToolKind => 3
    case ToolSetKind => 4
    case SkillKind => 5
    case PolicyKind => 6
    case ToolPolicyKind => 7
    case CredentialKind => if t.git then 9 else 8
    case _ => 10
  }

  ghost predicate Ranked(ts: seq<Target>) {
    forall i, j :: 0 <= i < j < |ts| ==> Rank(ts[i]) <= Rank(ts[j])
  }

  lemma RankedConcat(a: seq<Target>, b: seq<Target>, r: nat)
    requires Ranked(a) && (forall i :: 0 <= i < |a| ==> Rank(a[i]) <= r) && forall i :: 0 <= i < |b| ==> Rank(b[i]) == r
    ensures Ranked(a + b) && forall i :: 0 <= i < |a + b| ==> Rank((a + b)[i]) <= r
  {
  }

  lemma LeadingIsRanked(spec: AgentSpec, eff: AgentSpec)
    ensures Ranked(Leading(spec, eff)) && forall i :: 0 <= i < |Leading(spec, eff)| ==> Rank(Leading(spec, eff)[i]) <= 4
  {
    var class_, model, prompt := One(AgentClassKind, spec.agentClassRef), One(ModelKind, eff.modelRef), One(PromptTemplateKind, eff.promptRef);
    RankedConcat(class_, model, 1);
    RankedConcat(class_ + model, prompt, 2);
    RankedConcat(class_ + model + prompt, All(ToolKind, eff.toolRefs), 3);
    RankedConcat(class_ + model + prompt + All(ToolKind, eff.toolRefs), All(ToolSetKind, eff.toolSetRefs), 4);
  }

  lemma FiveRanked(a: seq<Target>, b: seq<Target>, c: seq<Target>, d: seq<Target>, e: seq<Target>, f: seq<Target>)
    requires Ranked(a) && forall i :: 0 <= i < |a| ==> Rank(a[i]) <= 4
    requires forall i :: 0 <= i < |b| ==> Rank(b[i]) == 5
    requires forall i :: 0 <= i < |c| ==> Rank(c[i]) == 6
    requires forall i :: 0 <= i < |d| ==> Rank(d[i]) == 7
    requires forall i :: 0 <= i < |e| ==> Rank(e[i]) == 8
    requires forall i :: 0 <= i < |f| ==> Rank(f[i]) == 9
    ensures Ranked(a + b + c + d + e + f)
  {
    RankedConcat(a, b, 5);
    RankedConcat(a + b, c, 6);
    RankedConcat(a + b + c, d, 7);
    RankedConcat(a + b + c + d, e, 8);
    RankedConcat(a + b + c + d + e, f, 9);
  }

  /** Targets of one kind stand together, in the order of the hash, credentials and the git credential last. */
  lemma TargetsAreRanked(spec: AgentSpec, eff: AgentSpec)
    ensures Ranked(Targets(spec, eff))
  {
    LeadingIsRanked(spec, eff);
    FiveRanked(Leading(spec, eff), All(SkillKind, eff.skillRefs), All(PolicyKind, eff.policyRefs),
               All(ToolPolicyKind, eff.toolPolicyRefs), All(CredentialKind, spec.credentialRefs), GitTarget(spec));
  }

  // --- what one target contributes ---

  datatype Missing = NoModel | MissingRef(kind: Kind, name: string)

  datatype MountedCredential = MountedCredential(name: string, secret: string)

  datatype PeerRef = PeerRef(tool: string, agent: string)

  function Find(c: Store, ns: string, t: Target): Option<Object> {
    Get(c, Key(t.kind, ns, t.name))
  }

  function RefOf(c: Store, ns: string): Target -> seq<ResolvedRef> {
    t => var o := Find(c, ns, t); if o.Some? then [ResolvedRef(t.kind, t.name, o.value.resourceVersion)] else []
  }

  function MissOf(c: Store, ns: string): Target -> seq<Missing> {
    t => if Find(c, ns, t).Some? then [] else [MissingRef(t.kind, t.name)]
  }

  function PolicyOf(c: Store, ns: string): Target -> seq<Policy> {
    t => var o := Find(c, ns, t);
      if !t.git && o.Some? && o.value.body.PolicyBody? then [Policy(t.name, o.value.body.policy)] else []
  }

  function ToolPolicyOf(c: Store, ns: string): Target -> seq<ToolPolicy> {
    t => var o := Find(c, ns, t);
      if !t.git && o.Some? && o.value.body.ToolPolicyBody? then [ToolPolicy(t.name, o.value.body.toolPolicy)] else []
  }

  function ScopeOf(c: Store, ns: string): Target -> seq<SkillToolScope> {
    t => var o := Find(c, ns, t);
      if !t.git && o.Some? && o.value.body.SkillBody? && o.value.body.allowedTools != []
      then [SkillToolScope(t.name, o.value.body.allowedTools)] else []
  }

  function CredentialOf(c: Store, ns: string): Target -> seq<MountedCredential> {
    t => var o := Find(c, ns, t);
      if !t.git && o.Some? && o.value.body.CredentialBody? then [MountedCredential(t.name, o.value.body.secretName)] else []
  }

  function GitSecretOf(c: Store, ns: string): Target -> seq<string> {
    t => var o := Find(c, ns, t);
      if t.git && o.Some? && o.value.body.CredentialBody? then [o.value.body.secretName] else []
  }

  // --- the tool surface ---

  function MembersOf(c: Store, ns: string): string -> seq<string> {
    s => var m := GetMembers(c, ns, s); if m.Some? then m.value else []
  }

  function McpOf(c: Store, ns: string): string -> seq<string> {
    n => var t := GetTool(c, ns, n); if t.Some? && t.value.mcpServerRef.Some? then [t.value.mcpServerRef.value] else []
  }

  function PeerOf(c: Store, ns: string): string -> seq<PeerRef> {
    n => var t := GetTool(c, ns, n); if t.Some? && t.value.agentRef.Some? then [PeerRef(n, t.value.agentRef.value)] else []
  }

  /** Direct tools, then everything the ToolSets contribute, repetitions included. */
  function Surface(c: Store, ns: string, eff: AgentSpec): seq<string> {
    eff.toolRefs + FlatMap(eff.toolSetRefs, MembersOf(c, ns))
  }

  /** Exactly the direct tools and the members of the ToolSets that exist. */
  lemma SurfaceExactly(c: Store, ns: string, eff: AgentSpec, tool: string)
    ensures tool in Surface(c, ns, eff) <==>
            || tool in eff.toolRefs
            || exists s :: s in eff.toolSetRefs && GetMembers(c, ns, s).Some? && tool in GetMembers(c, ns, s).value
  {
    FlatMapMember(eff.toolSetRefs, MembersOf(c, ns), tool);
    if s :| s in eff.toolSetRefs && GetMembers(c, ns, s).Some? && tool in GetMembers(c, ns, s).value {
      assert tool in MembersOf(c, ns)(s);
    }
  }

  /** Direct tools first; each further ToolSet appends its members in their order, or nothing while it is missing. */
  lemma SurfaceGrows(c: Store, ns: string, eff: AgentSpec, sets: seq<string>, next: string)
    requires eff.toolSetRefs == sets + [next]
    ensures Surface(c, ns, eff.(toolSetRefs := [])) == eff.toolRefs
    ensures Surface(c, ns, eff) == Surface(c, ns, eff.(toolSetRefs := sets))
              + (if GetMembers(c, ns, next).Some? then GetMembers(c, ns, next).value else [])
  {
    FlatMapSnoc(sets, next, MembersOf(c, ns));
  }

  // --- the whole result ---

  datatype Result = Result(
    refs: seq<ResolvedRef>,
    missing: seq<Missing>,
    policies: seq<Policy>,
    toolPolicies: seq<ToolPolicy>,
    declared: AgentReferences,
    skillScopes: seq<SkillToolScope>,
    credentials: seq<MountedCredential>,
    gitSecret: string,
    peers: seq<PeerRef>)

  /** Everything the Agent points at once ToolSets are expanded and each Tool's MCPServer is included. */
  function Declared(c: Store, ns: string, eff: AgentSpec): AgentReferences {
    var tools := Dedupe(Surface(c, ns, eff));
    AgentReferences(if eff.modelRef.Some? then eff.modelRef.value else "", tools, Dedupe(FlatMap(tools, McpOf(c, ns))))
  }

  function Peers(c: Store, ns: string, eff: AgentSpec): seq<PeerRef> {
    FlatMap(Dedupe(Surface(c, ns, eff)), PeerOf(c, ns))
  }

  function LastOr(s: seq<string>, d: string): string {
    if s == [] then d else s[|s| - 1]
  }

  function Resolve(c: Store, ns: string, spec: AgentSpec): Result {
    var eff := EffectiveSpec(c, ns, spec);
    var ts := Targets(spec, eff);
    Result(
      FlatMap(ts, RefOf(c, ns)),
      (if eff.modelRef.None? then [NoModel] else []) + FlatMap(ts, MissOf(c, ns)),
      FlatMap(ts, PolicyOf(c, ns)),
      FlatMap(ts, ToolPolicyOf(c, ns)),
      Declared(c, ns, eff),
      FlatMap(ts, ScopeOf(c, ns)),
      FlatMap(ts, CredentialOf(c, ns)),
      LastOr(FlatMap(ts, GitSecretOf(c, ns)), ""),
      Peers(c, ns, eff))
  }

  // --- the model's credential ---

  /** The Secret behind the effective Model's Credential, or "" while any step towards it is missing. */
  function ModelSecret(c: Store, ns: string, eff: AgentSpec): string {
    if eff.modelRef.None? then ""
    else
      var model := Get(c, Key(ModelKind, ns, eff.modelRef.value));
      if model.None? || model.value.body.credentialRef.None? then ""
      else
        var cred := Get(c, Key(CredentialKind, ns, model.value.body.credentialRef.value));
        if cred.None? then "" else cred.value.body.secretName
  }

  /** Each step of the walk from the Agent to its model's Secret, and what a missing step gives. */
  lemma ModelSecretSteps(c: Store, ns: string, eff: AgentSpec, model: string, cred: string)
    ensures eff.modelRef.None? ==> ModelSecret(c, ns, eff) == ""
    ensures eff.modelRef == Some(model) && !Exists(c, ModelKind, ns, model) ==> ModelSecret(c, ns, eff) == ""
    ensures eff.modelRef == Some(model) && Exists(c, ModelKind, ns, model) ==>
              var ref := c[Key(ModelKind, ns, model)].body.credentialRef;
              && (ref.None? ==> ModelSecret(c, ns, eff) == "")
              && (ref == Some(cred) && !Exists(c, CredentialKind, ns, cred) ==> ModelSecret(c, ns, eff) == "")
              && (ref == Some(cred) && Exists(c, CredentialKind, ns, cred) ==>
                    ModelSecret(c, ns, eff) == c[Key(CredentialKind, ns, cred)].body.secretName)
  {
  }

  // --- resolution partitions its targets ---

  /** True of a target that resolved, and of its entry in refs. */
  ghost predicate Resolved(c: Store, ns: string, t: Target) {
    Find(c, ns, t).Some?
  }

  /** Interleaves refs and missing back into the target list: every target lands in exactly one of them, in order. */
  ghost predicate Partition(c: Store, ns: string, ts: seq<Target>, refs: seq<ResolvedRef>, missing: seq<Missing>)
    decreases |ts|
  {
    if ts == [] then refs == [] && missing == []
    else
      var t, n := ts[|ts| - 1], |ts| - 1;
      if Resolved(c, ns, t) then
        && refs != [] && refs[|refs| - 1] == ResolvedRef(t.kind, t.name, Find(c, ns, t).value.resourceVersion)
        && Partition(c, ns, ts[..n], refs[..|refs| - 1], missing)
      else
        && missing != [] && missing[|missing| - 1] == MissingRef(t.kind, t.name)
        && Partition(c, ns, ts[..n], refs, missing[..|missing| - 1])
  }

  lemma {:induction false} TargetsPartition(c: Store, ns: string, ts: seq<Target>)
    ensures Partition(c, ns, ts, FlatMap(ts, RefOf(c, ns)), FlatMap(ts, MissOf(c, ns)))
  {
    if ts != [] {
      var n := |ts| - 1;
      TargetsPartition(c, ns, ts[..n]);
      var refs, missing := FlatMap(ts[..n], RefOf(c, ns)), FlatMap(ts[..n], MissOf(c, ns));
      var r, m := RefOf(c, ns)(ts[n]), MissOf(c, ns)(ts[n]);
      assert FlatMap(ts, RefOf(c, ns)) == refs + r;
      assert FlatMap(ts, MissOf(c, ns)) == missing + m;
      if Resolved(c, ns, ts[n]) {
        assert (refs + r)[..|refs + r| - 1] == refs;
        assert missing + m == missing;
      } else {
        assert (missing + m)[..|missing + m| - 1] == missing;
        assert refs + r == refs;
      }
    }
  }

  lemma {:induction false} PartitionCounts(
      c: Store, ns: string, ts: seq<Target>, refs: seq<ResolvedRef>, missing: seq<Missing>)
    requires Partition(c, ns, ts, refs, missing)
    ensures |refs| + |missing| == |ts|
    ensures missing == [] <==> forall t :: t in ts ==> Resolved(c, ns, t)
  {
    if ts != [] {
      var n := |ts| - 1;
      assert ts == ts[..n] + [ts[n]];
      if Resolved(c, ns, ts[n]) {
        PartitionCounts(c, ns, ts[..n], refs[..|refs| - 1], missing);
      } else {
        PartitionCounts(c, ns, ts[..n], refs, missing[..|missing| - 1]);
      }
    }
  }

  /** Refs plus missing account for every target, with one more entry when there is no effective model. */
  lemma ResolutionPartitions(c: Store, ns: string, spec: AgentSpec)
    ensures var eff, r := EffectiveSpec(c, ns, spec), Resolve(c, ns, spec);
      && |r.refs| + |r.missing| == |Targets(spec, eff)| + (if eff.modelRef.None? then 1 else 0)
      && Partition(c, ns, Targets(spec, eff), r.refs, if eff.modelRef.None? then r.missing[1..] else r.missing)
      && (r.missing == [] <==> eff.modelRef.Some? && forall t :: t in Targets(spec, eff) ==> Resolved(c, ns, t))
  {
    var eff := EffectiveSpec(c, ns, spec);
    var ts := Targets(spec, eff);
    var refs, m := FlatMap(ts, RefOf(c, ns)), FlatMap(ts, MissOf(c, ns));
    TargetsPartition(c, ns, ts);
    NoModelAside(c, ns, ts, refs, m, if eff.modelRef.None? then [NoModel] else []);
  }

  lemma NoModelAside(c: Store, ns: string, ts: seq<Target>, refs: seq<ResolvedRef>, m: seq<Missing>, noModel: seq<Missing>)
    requires Partition(c, ns, ts, refs, m) && |noModel| <= 1
    ensures |refs| + |noModel + m| == |ts| + |noModel|
    ensures Partition(c, ns, ts, refs, (noModel + m)[|noModel|..])
    ensures noModel + m == [] <==> noModel == [] && forall t :: t in ts ==> Resolved(c, ns, t)
  {
    PartitionCounts(c, ns, ts, refs, m);
    assert (noModel + m)[|noModel|..] == m;
  }

  /** The targets before any credential. */
  function Uncredentialed(spec: AgentSpec, eff: AgentSpec): seq<Target> {
    Leading(spec, eff) + All(SkillKind, eff.skillRefs) + All(PolicyKind, eff.policyRefs) + All(ToolPolicyKind, eff.toolPolicyRefs)
  }

  /** The hashed list: what comes before credentials, then the Agent's own, then the one for git. */
  lemma RefsInParts(c: Store, ns: string, spec: AgentSpec, eff: AgentSpec)
    ensures FlatMap(Targets(spec, eff), RefOf(c, ns)) ==
      FlatMap(Uncredentialed(spec, eff), RefOf(c, ns))
      + FlatMap(All(CredentialKind, spec.credentialRefs), RefOf(c, ns)) + FlatMap(GitTarget(spec), RefOf(c, ns))
  {
    var base, own := Uncredentialed(spec, eff), All(CredentialKind, spec.credentialRefs);
    FlatMapConcat(base, own, RefOf(c, ns));
    FlatMapConcat(base + own, GitTarget(spec), RefOf(c, ns));
  }

  /** The hashed list once the credentials are replaced. */
  lemma RefsWith(c: Store, ns: string, spec: AgentSpec, more: seq<string>, workspace: Option<WorkspaceSpec>)
    ensures var wider := spec.(credentialRefs := more, workspace := workspace);
      Resolve(c, ns, wider).refs ==
      FlatMap(Uncredentialed(spec, EffectiveSpec(c, ns, spec)), RefOf(c, ns))
      + FlatMap(All(CredentialKind, more), RefOf(c, ns)) + FlatMap(GitTarget(wider), RefOf(c, ns))
  {
    var wider := spec.(credentialRefs := more, workspace := workspace);
    var eff := EffectiveSpec(c, ns, spec);
    var effWider := eff.(credentialRefs := more, workspace := workspace);
    assert EffectiveSpec(c, ns, wider) == effWider;
    assert Uncredentialed(wider, effWider) == Uncredentialed(spec, eff);
    RefsInParts(c, ns, wider, effWider);
  }

  lemma RefsWithout(c: Store, ns: string, spec: AgentSpec)
    requires spec.credentialRefs == []
    ensures Resolve(c, ns, spec).refs ==
      FlatMap(Uncredentialed(spec, EffectiveSpec(c, ns, spec)), RefOf(c, ns)) + FlatMap(GitTarget(spec), RefOf(c, ns))
  {
    PartsWithout(c, ns, spec, EffectiveSpec(c, ns, spec));
  }

  lemma PartsWithout(c: Store, ns: string, spec: AgentSpec, eff: AgentSpec)
    requires spec.credentialRefs == []
    ensures FlatMap(Targets(spec, eff), RefOf(c, ns)) ==
      FlatMap(Uncredentialed(spec, eff), RefOf(c, ns)) + FlatMap(GitTarget(spec), RefOf(c, ns))
  {
    assert All(CredentialKind, spec.credentialRefs) == [];
    assert Targets(spec, eff) == Uncredentialed(spec, eff) + GitTarget(spec);
    FlatMapConcat(Uncredentialed(spec, eff), GitTarget(spec), RefOf(c, ns));
  }

  /** An Agent without credentials keeps its hash input as a prefix once it declares some, for itself or for git. */
  lemma CredentialsExtendRefs(c: Store, ns: string, spec: AgentSpec, more: seq<string>, workspace: Option<WorkspaceSpec>)
    requires spec.credentialRefs == [] && GitTarget(spec) == []
    ensures Resolve(c, ns, spec).refs <= Resolve(c, ns, spec.(credentialRefs := more, workspace := workspace)).refs
  {
    RefsWithout(c, ns, spec);
    RefsWith(c, ns, spec, more, workspace);
  }

  /** With a git credential already there, the prefix survives exactly when that one is missing, nothing added exists, or
      the first added one that exists is the git credential itself. */
  lemma ExtendedRefsExactly(c: Store, ns: string, spec: AgentSpec, more: seq<string>)
    requires spec.credentialRefs == []
    ensures var git, added := FlatMap(GitTarget(spec), RefOf(c, ns)), FlatMap(All(CredentialKind, more), RefOf(c, ns));
      Resolve(c, ns, spec).refs <= Resolve(c, ns, spec.(credentialRefs := more)).refs <==>
      git == [] || added == [] || added[0] == git[0]
  {
    RefsWithout(c, ns, spec);
    RefsWith(c, ns, spec, more, spec.workspace);
    assert spec.(credentialRefs := more, workspace := spec.workspace) == spec.(credentialRefs := more);
    AtMostOneGit(c, ns, spec);
    InsertedPrefix(
      FlatMap(Uncredentialed(spec, EffectiveSpec(c, ns, spec)), RefOf(c, ns)),
      FlatMap(All(CredentialKind, more), RefOf(c, ns)), FlatMap(GitTarget(spec), RefOf(c, ns)));
  }

  lemma AtMostOneGit(c: Store, ns: string, spec: AgentSpec)
    ensures |FlatMap(GitTarget(spec), RefOf(c, ns))| <= 1
  {
    if GitTarget(spec) != [] {
      FlatMapSnoc([], GitTarget(spec)[0], RefOf(c, ns));
      assert GitTarget(spec) == [] + [GitTarget(spec)[0]];
    }
  }

  lemma InsertedPrefix<T>(base: seq<T>, added: seq<T>, last: seq<T>)
    requires |last| <= 1
    ensures base + last <= base + added + last <==> last == [] || added == [] || added[0] == last[0]
  {
    var s, t := base + last, base + added + last;
    if last != [] {
      assert s[|base|] == last[0];
      assert t[|base|] == (added + last)[0];
    }
  }

  /** Nothing a direct target stands for has appeared, vanished or moved to another version. */
  ghost predicate SameVersions(c: Store, d: Store, ns: string, ts: seq<Target>) {
    forall t :: t in ts ==> RefOf(c, ns)(t) == RefOf(d, ns)(t)
  }

  /** Over one target list, the hashed list moves exactly when a target does. */
  lemma SameTargetsMoveExactly(c: Store, d: Store, ns: string, ts: seq<Target>)
    ensures FlatMap(ts, RefOf(c, ns)) == FlatMap(ts, RefOf(d, ns)) <==> SameVersions(c, d, ns, ts)
  {
    var f, g := RefOf(c, ns), RefOf(d, ns);
    if SameVersions(c, d, ns, ts) {
      FlatMapAgree(ts, f, g);
    }
    if FlatMap(ts, f) == FlatMap(ts, g) {
      forall t | t in ts ensures f(t) == g(t) {
        if f(t) != [] {
          SharedRef(c, d, ns, ts, t, f(t)[0]);
        } else if g(t) != [] {
          SharedRef(d, c, ns, ts, t, g(t)[0]);
        }
      }
    }
  }

  /** A resourceVersion names one state of an object. */
  ghost predicate VersionsMeanObjects(c: Store, d: Store) {
    forall k :: k in c && k in d && c[k].resourceVersion == d[k].resourceVersion ==> c[k] == d[k]
  }

  lemma SameRefSameObject(c: Store, d: Store, ns: string, t: Target)
    requires VersionsMeanObjects(c, d) && RefOf(c, ns)(t) == RefOf(d, ns)(t)
    ensures Find(c, ns, t) == Find(d, ns, t)
  {
  }

  function ClassTarget(spec: AgentSpec): Target
    requires spec.agentClassRef.Some?
  {
    Target(AgentClassKind, spec.agentClassRef.value, false)
  }

  lemma ClassIsTarget(spec: AgentSpec, eff: AgentSpec)
    requires spec.agentClassRef.Some?
    ensures ClassTarget(spec) in Targets(spec, eff)
  {
    assert ClassTarget(spec) in Leading(spec, eff);
  }

  /** A class that resolved in one of two states with equal hashed lists resolved the same in the other. */
  lemma ClassShows(c: Store, d: Store, ns: string, spec: AgentSpec, ts: seq<Target>, us: seq<Target>)
    requires spec.agentClassRef.Some? && ClassTarget(spec) in ts
    requires FlatMap(ts, RefOf(c, ns)) == FlatMap(us, RefOf(d, ns)) && Find(c, ns, ClassTarget(spec)).Some?
    ensures RefOf(c, ns)(ClassTarget(spec)) == RefOf(d, ns)(ClassTarget(spec))
  {
    var t := ClassTarget(spec);
    var r := RefOf(c, ns)(t)[0];
    FlatMapMember(ts, RefOf(c, ns), r);
    FlatMapMember(us, RefOf(d, ns), r);
    var u :| u in us && r in RefOf(d, ns)(u);
    assert Find(d, ns, u) == Find(d, ns, t);
  }

  lemma SameClass(c: Store, d: Store, ns: string, spec: AgentSpec, ts: seq<Target>, us: seq<Target>)
    requires VersionsMeanObjects(c, d) && FlatMap(ts, RefOf(c, ns)) == FlatMap(us, RefOf(d, ns))
    requires spec.agentClassRef.Some? ==> ClassTarget(spec) in ts && ClassTarget(spec) in us
    ensures EffectiveSpec(c, ns, spec) == EffectiveSpec(d, ns, spec)
  {
    if spec.agentClassRef.Some? {
      var t := ClassTarget(spec);
      if Find(c, ns, t).Some? {
        ClassShows(c, d, ns, spec, ts, us);
        SameRefSameObject(c, d, ns, t);
      } else if Find(d, ns, t).Some? {
        ClassShows(d, c, ns, spec, us, ts);
        SameRefSameObject(d, c, ns, t);
      }
    }
  }

  lemma SameVersionsSameClass(c: Store, d: Store, ns: string, spec: AgentSpec, ts: seq<Target>)
    requires VersionsMeanObjects(c, d) && SameVersions(c, d, ns, ts)
    requires spec.agentClassRef.Some? ==> ClassTarget(spec) in ts
    ensures EffectiveSpec(c, ns, spec) == EffectiveSpec(d, ns, spec)
  {
    if spec.agentClassRef.Some? {
      SameRefSameObject(c, d, ns, ClassTarget(spec));
    }
  }

  /** Two resolutions hash the same list if and only if every direct target, as the first one saw them, is there in both
      with the same version: a changed class shows, whatever else it changes. */
  lemma HashInputMovesExactly(c: Store, d: Store, ns: string, spec: AgentSpec)
    requires VersionsMeanObjects(c, d)
    ensures Resolve(c, ns, spec).refs == Resolve(d, ns, spec).refs <==>
            SameVersions(c, d, ns, Targets(spec, EffectiveSpec(c, ns, spec)))
  {
    HashOverTargets(c, d, ns, spec, EffectiveSpec(c, ns, spec), EffectiveSpec(d, ns, spec));
  }

  lemma HashOverTargets(c: Store, d: Store, ns: string, spec: AgentSpec, eff: AgentSpec, effD: AgentSpec)
    requires VersionsMeanObjects(c, d) && eff == EffectiveSpec(c, ns, spec) && effD == EffectiveSpec(d, ns, spec)
    ensures FlatMap(Targets(spec, eff), RefOf(c, ns)) == FlatMap(Targets(spec, effD), RefOf(d, ns)) <==>
            SameVersions(c, d, ns, Targets(spec, eff))
  {
    var ts, us := Targets(spec, eff), Targets(spec, effD);
    if spec.agentClassRef.Some? {
      ClassIsTarget(spec, eff);
      ClassIsTarget(spec, effD);
    }
    SameTargetsMoveExactly(c, d, ns, ts);
    if FlatMap(ts, RefOf(c, ns)) == FlatMap(us, RefOf(d, ns)) {
      SameClass(c, d, ns, spec, ts, us);
    } else if SameVersions(c, d, ns, ts) {
      SameVersionsSameClass(c, d, ns, spec, ts);
    }
  }

  lemma SharedRef(c: Store, d: Store, ns: string, ts: seq<Target>, t: Target, r: ResolvedRef)
    requires t in ts && RefOf(c, ns)(t) == [r] && FlatMap(ts, RefOf(c, ns)) == FlatMap(ts, RefOf(d, ns))
    ensures RefOf(d, ns)(t) == [r]
  {
    FlatMapMember(ts, RefOf(c, ns), r);
    FlatMapMember(ts, RefOf(d, ns), r);
    var u :| u in ts && r in RefOf(d, ns)(u);
    assert Find(d, ns, u) == Find(d, ns, t);
  }

  // --- collected objects, read off the reference lists that name them ---

  /** Collecting over all targets is collecting over the one reference list of the matching kind. */
  lemma CollectedFromOwnList<T>(spec: AgentSpec, eff: AgentSpec, kind: Kind, names: seq<string>, f: Target -> seq<T>)
    requires forall t: Target :: t.kind != kind || t.git ==> f(t) == []
    requires OwnList(spec, eff, kind) == Some(names)
    ensures FlatMap(Targets(spec, eff), f) == FlatMap(All(kind, names), f)
  {
    var before, after := Around(spec, eff, kind, names);
    Isolate(before, All(kind, names), after, kind, f);
  }

  function PoliciesAt(c: Store, ns: string, names: seq<string>): seq<Policy> {
    FlatMap(All(PolicyKind, names), PolicyOf(c, ns))
  }

  function ToolPoliciesAt(c: Store, ns: string, names: seq<string>): seq<ToolPolicy> {
    FlatMap(All(ToolPolicyKind, names), ToolPolicyOf(c, ns))
  }

  function ScopesAt(c: Store, ns: string, names: seq<string>): seq<SkillToolScope> {
    FlatMap(All(SkillKind, names), ScopeOf(c, ns))
  }

  function CredentialsAt(c: Store, ns: string, names: seq<string>): seq<MountedCredential> {
    FlatMap(All(CredentialKind, names), CredentialOf(c, ns))
  }

  /** The collected objects of a resolution are those its reference lists name and the cluster holds, in list order. */
  lemma CollectedLists(c: Store, ns: string, spec: AgentSpec)
    ensures var r, eff := Resolve(c, ns, spec), EffectiveSpec(c, ns, spec);
      && r.policies == PoliciesAt(c, ns, eff.policyRefs)
      && r.toolPolicies == ToolPoliciesAt(c, ns, eff.toolPolicyRefs)
      && r.skillScopes == ScopesAt(c, ns, eff.skillRefs)
      && r.credentials == CredentialsAt(c, ns, spec.credentialRefs)
  {
    var eff := EffectiveSpec(c, ns, spec);
    PoliciesFromTargets(c, ns, spec, eff);
    ToolPoliciesFromTargets(c, ns, spec, eff);
    ScopesFromTargets(c, ns, spec, eff);
    CredentialsFromTargets(c, ns, spec, eff);
  }

  lemma PoliciesFromTargets(c: Store, ns: string, spec: AgentSpec, eff: AgentSpec)
    ensures FlatMap(Targets(spec, eff), PolicyOf(c, ns)) == PoliciesAt(c, ns, eff.policyRefs)
  {
    var f := PolicyOf(c, ns);
    assert forall t: Target :: t.kind != PolicyKind || t.git ==> f(t) == [];
    CollectedFromOwnList(spec, eff, PolicyKind, eff.policyRefs, f);
  }

  lemma ToolPoliciesFromTargets(c: Store, ns: string, spec: AgentSpec, eff: AgentSpec)
    ensures FlatMap(Targets(spec, eff), ToolPolicyOf(c, ns)) == ToolPoliciesAt(c, ns, eff.toolPolicyRefs)
  {
    var f := ToolPolicyOf(c, ns);
    assert forall t: Target :: t.kind != ToolPolicyKind || t.git ==> f(t) == [];
    CollectedFromOwnList(spec, eff, ToolPolicyKind, eff.toolPolicyRefs, f);
  }

  lemma ScopesFromTargets(c: Store, ns: string, spec: AgentSpec, eff: AgentSpec)
    ensures FlatMap(Targets(spec, eff), ScopeOf(c, ns)) == ScopesAt(c, ns, eff.skillRefs)
  {
    var f := ScopeOf(c, ns);
    assert forall t: Target :: t.kind != SkillKind || t.git ==> f(t) == [];
    CollectedFromOwnList(spec, eff, SkillKind, eff.skillRefs, f);
  }

  lemma CredentialsFromTargets(c: Store, ns: string, spec: AgentSpec, eff: AgentSpec)
    ensures FlatMap(Targets(spec, eff), CredentialOf(c, ns)) == CredentialsAt(c, ns, spec.credentialRefs)
  {
    var f := CredentialOf(c, ns);
    assert forall t: Target :: t.kind != CredentialKind || t.git ==> f(t) == [];
    CollectedFromOwnList(spec, eff, CredentialKind, spec.credentialRefs, f);
  }

  lemma {:induction false} PolicyAtMember(c: Store, ns: string, names: seq<string>, p: Policy)
    ensures p in PoliciesAt(c, ns, names) <==>
            p.name in names && Exists(c, PolicyKind, ns, p.name) && c[Key(PolicyKind, ns, p.name)].body.policy == p.spec
  {
    var all := All(PolicyKind, names);
    FlatMapMember(all, PolicyOf(c, ns), p);
    if p.name in names {
      var i :| 0 <= i < |names| && names[i] == p.name;
      assert all[i] in all;
    }
  }

  lemma {:induction false} ScopeAtMember(c: Store, ns: string, names: seq<string>, s: SkillToolScope)
    ensures s in ScopesAt(c, ns, names) <==>
            && s.skill in names && Exists(c, SkillKind, ns, s.skill)
            && s.allowedTools != [] && c[Key(SkillKind, ns, s.skill)].body.allowedTools == s.allowedTools
  {
    var all := All(SkillKind, names);
    FlatMapMember(all, ScopeOf(c, ns), s);
    if s.skill in names {
      var i :| 0 <= i < |names| && names[i] == s.skill;
      assert all[i] in all;
    }
  }

  lemma {:induction false} ToolPolicyAtMember(c: Store, ns: string, names: seq<string>, p: ToolPolicy)
    ensures p in ToolPoliciesAt(c, ns, names) <==>
            p.name in names && Exists(c, ToolPolicyKind, ns, p.name) && c[Key(ToolPolicyKind, ns, p.name)].body.toolPolicy == p.spec
  {
    var all := All(ToolPolicyKind, names);
    FlatMapMember(all, ToolPolicyOf(c, ns), p);
    if p.name in names {
      var i :| 0 <= i < |names| && names[i] == p.name;
      assert all[i] in all;
    }
  }

  function OwnList(spec: AgentSpec, eff: AgentSpec, kind: Kind): Option<seq<string>> {
    match kind
    case SkillKind => Some(eff.skillRefs)
    case PolicyKind => Some(eff.policyRefs)
    case ToolPolicyKind => Some(eff.toolPolicyRefs)
    case CredentialKind => Some(spec.credentialRefs)
    case _ => None
  }

  lemma Regroup<T>(a: seq<T>, b: seq<T>, c: seq<T>, d: seq<T>, e: seq<T>, f: seq<T>)
    ensures a + b + c + d + e + f == a + b + (c + d + e + f)
    ensures a + b + c + d + e + f == (a + b) + c + (d + e + f)
    ensures a + b + c + d + e + f == (a + b + c) + d + (e + f)
  {
  }

  lemma Around(spec: AgentSpec, eff: AgentSpec, kind: Kind, names: seq<string>)
    returns (before: seq<Target>, after: seq<Target>)
    requires OwnList(spec, eff, kind) == Some(names)
    ensures Targets(spec, eff) == before + All(kind, names) + after
    ensures forall t :: t in before || t in after ==> t.kind != kind || t.git
  {
    var lead, git := Leading(spec, eff), GitTarget(spec);
    var skills, policies := All(SkillKind, eff.skillRefs), All(PolicyKind, eff.policyRefs);
    var toolPolicies, creds := All(ToolPolicyKind, eff.toolPolicyRefs), All(CredentialKind, spec.credentialRefs);
    Regroup(lead, skills, policies, toolPolicies, creds, git);
    match kind
    case SkillKind =>
      before, after := lead, policies + toolPolicies + creds + git;
    case PolicyKind =>
      before, after := lead + skills, toolPolicies + creds + git;
    case ToolPolicyKind =>
      before, after := lead + skills + policies, creds + git;
    case CredentialKind =>
      before, after := lead + skills + policies + toolPolicies, git;
  }

  lemma Isolate<T>(before: seq<Target>, part: seq<Target>, after: seq<Target>, kind: Kind, f: Target -> seq<T>)
    requires forall t: Target :: t.kind != kind || t.git ==> f(t) == []
    requires forall t :: t in before || t in after ==> t.kind != kind || t.git
    ensures FlatMap(before + part + after, f) == FlatMap(part, f)
  {
    FlatMapConcat(before + part, after, f);
    FlatMapConcat(before, part, f);
    FlatMapNone(before, f);
    FlatMapNone(after, f);
  }
}
