/**
 Changes the config hash does not see. The Registry serves more than the hashed references: the Tools a ToolSet brings
 in, the endpoints of MCP servers and peers, the ConfigMaps behind Skills, and the Secret behind the Model's Credential.
 A change there moves what is served and wakes no watcher, because only a change of the Agent itself is broadcast.
 */
module SilentChanges {
  import opened Lists
  import opened Api
  import opened Cluster
  import opened Resolution
  import RC = RegistryConfig
  import P = PolicyMerge
  import Ready
  import V = Validation
  import F = Frame
  import W = Watch
  import WP = WatchProperties

  // --- what the hash covers ---

  /** Every direct target is the same object in both states. */
  ghost predicate SameTargets(c: Store, d: Store, ns: string, ts: seq<Target>) {
    forall t :: t in ts ==> Find(c, ns, t) == Find(d, ns, t)
  }

  /** Equal hashes mean equal targets, and with them the same class and effective spec. */
  lemma SameHashSameTargets(c: Store, d: Store, ns: string, spec: AgentSpec)
    requires VersionsMeanObjects(c, d) && Resolve(c, ns, spec).refs == Resolve(d, ns, spec).refs
    ensures EffectiveSpec(c, ns, spec) == EffectiveSpec(d, ns, spec)
    ensures SameTargets(c, d, ns, Targets(spec, EffectiveSpec(c, ns, spec)))
  {
    HashInputMovesExactly(c, d, ns, spec);
    TargetsBySame(c, d, ns, spec, Targets(spec, EffectiveSpec(c, ns, spec)), EffectiveSpec(c, ns, spec));
  }

  lemma TargetsBySame(c: Store, d: Store, ns: string, spec: AgentSpec, ts: seq<Target>, eff: AgentSpec)
    requires VersionsMeanObjects(c, d) && SameVersions(c, d, ns, ts) && ts == Targets(spec, eff)
    ensures SameTargets(c, d, ns, ts) && EffectiveSpec(c, ns, spec) == EffectiveSpec(d, ns, spec)
  {
    forall t | t in ts ensures Find(c, ns, t) == Find(d, ns, t) {
      SameRefSameObject(c, d, ns, t);
    }
    if spec.agentClassRef.Some? {
      ClassIsTarget(spec, eff);
    }
    SameVersionsSameClass(c, d, ns, spec, ts);
  }

  // --- what is served beyond it ---

  /** A tool is served alike: there or not there in both states, and the same once its server or peer is looked up. */
  ghost predicate SameTool(c: Store, d: Store, ns: string, tool: string) {
    var t, u := GetTool(c, ns, tool), GetTool(d, ns, tool);
    && t.Some? == u.Some?
    && (t.Some? ==>
          && t.value.type_ == u.value.type_ && t.value.mcpToolName == u.value.mcpToolName
          && t.value.inputSchema == u.value.inputSchema
          && RC.EndpointOf(c, ns, t.value) == RC.EndpointOf(d, ns, u.value)
          && RC.DescriptionOf(c, ns, t.value) == RC.DescriptionOf(d, ns, u.value))
  }

  /** A Skill that is there has the same content, wherever it is kept. */
  ghost predicate SameContent(c: Store, d: Store, ns: string, skill: string) {
    Exists(c, SkillKind, ns, skill) ==>
      var b := c[Key(SkillKind, ns, skill)].body;
      RC.ContentOf(c, ns, b.content, b.contentRef) == RC.ContentOf(d, ns, b.content, b.contentRef)
  }

  /** Everything served that no hashed reference stands for. */
  ghost predicate SameIndirectly(c: Store, d: Store, ns: string, eff: AgentSpec) {
    && (forall tool :: tool in Surface(c, ns, eff) ==> SameTool(c, d, ns, tool))
    && (forall skill :: skill in eff.skillRefs ==> SameContent(c, d, ns, skill))
    && ModelSecret(c, ns, eff) == ModelSecret(d, ns, eff) && RC.ModelKey(c, ns, eff) == RC.ModelKey(d, ns, eff)
  }

  /** For a Tool the Agent names itself, which is hashed, this leaves only what it points at. */
  lemma DirectToolExactly(c: Store, d: Store, ns: string, tool: string)
    requires GetTool(c, ns, tool) == GetTool(d, ns, tool) && GetTool(c, ns, tool).Some?
    ensures var t := GetTool(c, ns, tool).value;
      SameTool(c, d, ns, tool) <==>
      RC.EndpointOf(c, ns, t) == RC.EndpointOf(d, ns, t) && RC.DescriptionOf(c, ns, t) == RC.DescriptionOf(d, ns, t)
  {
  }

  lemma SameSurface(c: Store, d: Store, ns: string, spec: AgentSpec, eff: AgentSpec)
    requires SameTargets(c, d, ns, Targets(spec, eff))
    ensures Surface(c, ns, eff) == Surface(d, ns, eff)
  {
    forall s | s in eff.toolSetRefs ensures MembersOf(c, ns)(s) == MembersOf(d, ns)(s) {
      F.ToolRefsAreTargets(spec, eff, s);
      assert Find(c, ns, Target(ToolSetKind, s, false)) == Find(d, ns, Target(ToolSetKind, s, false));
    }
    FlatMapAgree(eff.toolSetRefs, MembersOf(c, ns), MembersOf(d, ns));
  }

  /** Concatenations of at most one named entry each are equal exactly when each entry is. */
  lemma SameEntriesExactly<T(!new)>(names: seq<string>, f: string -> seq<T>, g: string -> seq<T>, nameOf: T -> string)
    requires forall n :: |f(n)| <= 1 && |g(n)| <= 1
    requires forall n, x :: x in f(n) || x in g(n) ==> nameOf(x) == n
    ensures FlatMap(names, f) == FlatMap(names, g) <==> forall n :: n in names ==> f(n) == g(n)
  {
    if forall n :: n in names ==> f(n) == g(n) {
      FlatMapAgree(names, f, g);
    }
    if FlatMap(names, f) == FlatMap(names, g) {
      forall n | n in names ensures f(n) == g(n) {
        if f(n) != [] {
          SharedEntry(names, f, g, nameOf, n, f(n)[0]);
        } else if g(n) != [] {
          SharedEntry(names, g, f, nameOf, n, g(n)[0]);
        }
      }
    }
  }

  lemma SharedEntry<T(!new)>(names: seq<string>, f: string -> seq<T>, g: string -> seq<T>, nameOf: T -> string, n: string, x: T)
    requires forall m, y :: y in f(m) || y in g(m) ==> nameOf(y) == m
    requires n in names && x in f(n) && FlatMap(names, f) == FlatMap(names, g)
    ensures x in g(n)
  {
    FlatMapMember(names, f, x);
    FlatMapMember(names, g, x);
    var m :| m in names && x in g(m);
    assert nameOf(x) == m == n;
  }

  /** Over one list of names, the served tools are the same exactly when each of them is served alike. */
  lemma SameToolsExactly(c: Store, d: Store, ns: string, names: seq<string>)
    ensures FlatMap(names, RC.ToolViewOf(c, ns)) == FlatMap(names, RC.ToolViewOf(d, ns)) <==>
            forall n :: n in names ==> SameTool(c, d, ns, n)
  {
    var f, g := RC.ToolViewOf(c, ns), RC.ToolViewOf(d, ns);
    SameEntriesExactly(names, f, g, (v: RC.ToolView) => v.name);
    forall n ensures f(n) == g(n) <==> SameTool(c, d, ns, n) {
      SameViewExactly(c, d, ns, n);
    }
  }

  lemma SameViewExactly(c: Store, d: Store, ns: string, n: string)
    ensures RC.ToolViewOf(c, ns)(n) == RC.ToolViewOf(d, ns)(n) <==> SameTool(c, d, ns, n)
  {
    var t, u := GetTool(c, ns, n), GetTool(d, ns, n);
    if t.Some? && u.Some? {
      assert RC.ToolViewOf(c, ns)(n)[0] == RC.ViewOf(c, ns, n, t.value);
      assert RC.ToolViewOf(d, ns)(n)[0] == RC.ViewOf(d, ns, n, u.value);
    }
  }

  lemma ReferencedAreTargets(spec: AgentSpec, eff: AgentSpec)
    ensures eff.modelRef.Some? ==> Target(ModelKind, eff.modelRef.value, false) in Targets(spec, eff)
    ensures eff.promptRef.Some? ==> Target(PromptTemplateKind, eff.promptRef.value, false) in Targets(spec, eff)
    ensures forall n :: n in eff.skillRefs ==> Target(SkillKind, n, false) in Targets(spec, eff)
  {
    if eff.modelRef.Some? {
      assert Target(ModelKind, eff.modelRef.value, false) in Leading(spec, eff);
    }
    if eff.promptRef.Some? {
      assert Target(PromptTemplateKind, eff.promptRef.value, false) in Leading(spec, eff);
    }
    forall n | n in eff.skillRefs ensures Target(SkillKind, n, false) in Targets(spec, eff) {
      var i :| 0 <= i < |eff.skillRefs| && eff.skillRefs[i] == n;
      assert All(SkillKind, eff.skillRefs)[i] == Target(SkillKind, n, false);
    }
  }

  lemma SameModelExactly(c: Store, d: Store, ns: string, spec: AgentSpec, eff: AgentSpec)
    requires SameTargets(c, d, ns, Targets(spec, eff))
    ensures RC.ModelViewOf(c, ns, eff) == RC.ModelViewOf(d, ns, eff) <==>
            ModelSecret(c, ns, eff) == ModelSecret(d, ns, eff) && RC.ModelKey(c, ns, eff) == RC.ModelKey(d, ns, eff)
    ensures RC.PromptOf(c, ns, eff) == RC.PromptOf(d, ns, eff)
  {
    ReferencedAreTargets(spec, eff);
    if eff.modelRef.Some? {
      var t := Target(ModelKind, eff.modelRef.value, false);
      assert Find(c, ns, t) == Find(d, ns, t);
    }
    if eff.promptRef.Some? {
      var t := Target(PromptTemplateKind, eff.promptRef.value, false);
      assert Find(c, ns, t) == Find(d, ns, t);
    }
  }

  lemma SameSkillsExactly(c: Store, d: Store, ns: string, spec: AgentSpec, eff: AgentSpec)
    requires SameTargets(c, d, ns, Targets(spec, eff))
    ensures FlatMap(eff.skillRefs, RC.SkillViewOf(c, ns)) == FlatMap(eff.skillRefs, RC.SkillViewOf(d, ns)) <==>
            forall skill :: skill in eff.skillRefs ==> SameContent(c, d, ns, skill)
  {
    ReferencedAreTargets(spec, eff);
    var f, g := RC.SkillViewOf(c, ns), RC.SkillViewOf(d, ns);
    SameEntriesExactly(eff.skillRefs, f, g, (v: RC.SkillView) => v.name);
    forall n | n in eff.skillRefs ensures f(n) == g(n) <==> SameContent(c, d, ns, n) {
      assert Find(c, ns, Target(SkillKind, n, false)) == Find(d, ns, Target(SkillKind, n, false));
      SameSkillExactly(c, d, ns, n);
    }
  }

  lemma SameSkillExactly(c: Store, d: Store, ns: string, n: string)
    requires Get(c, Key(SkillKind, ns, n)) == Get(d, Key(SkillKind, ns, n))
    ensures RC.SkillViewOf(c, ns)(n) == RC.SkillViewOf(d, ns)(n) <==> SameContent(c, d, ns, n)
  {
    if Exists(c, SkillKind, ns, n) {
      assert RC.SkillViewOf(c, ns)(n) == RC.SkillViewOf(d, ns)(n) ==> RC.SkillViewOf(c, ns)(n)[0] == RC.SkillViewOf(d, ns)(n)[0];
    }
  }

  /** The parts of a served configuration. */
  lemma ServedParts(c: Store, a: Key, spec: AgentSpec, status: Status, eff: AgentSpec)
    requires eff == EffectiveSpec(c, a.ns, spec)
    ensures var s, ts, ns := RC.Served(c, a, spec, status), Targets(spec, eff), a.ns;
      && s.ns == ns && s.name == a.name && s.configHash == status.configHash && s.phase == status.phase
      && s.spec == eff && s.prompt == RC.PromptOf(c, ns, eff) && s.model == RC.ModelViewOf(c, ns, eff)
      && s.tools == FlatMap(Dedupe(Surface(c, ns, eff)), RC.ToolViewOf(c, ns))
      && s.skills == FlatMap(eff.skillRefs, RC.SkillViewOf(c, ns))
      && s.policy == P.Effective(FlatMap(ts, PolicyOf(c, ns)), FlatMap(ts, ToolPolicyOf(c, ns)))
  {
  }

  lemma ServedMovesExactly(c: Store, d: Store, a: Key, spec: AgentSpec, status: Status, eff: AgentSpec)
    requires eff == EffectiveSpec(c, a.ns, spec) == EffectiveSpec(d, a.ns, spec)
    requires SameTargets(c, d, a.ns, Targets(spec, eff))
    ensures RC.Served(c, a, spec, status) == RC.Served(d, a, spec, status) <==> SameIndirectly(c, d, a.ns, eff)
  {
    ServedParts(c, a, spec, status, eff);
    ServedParts(d, a, spec, status, eff);
    SameSurface(c, d, a.ns, spec, eff);
    SameToolsExactly(c, d, a.ns, Dedupe(Surface(c, a.ns, eff)));
    SameModelExactly(c, d, a.ns, spec, eff);
    SameSkillsExactly(c, d, a.ns, spec, eff);
    F.SameReadsSameTargets(c, d, a.ns, Targets(spec, eff));
  }

  /** Exactly when an unchanged hash means an unchanged configuration. */
  lemma SameHashSameConfigExactly(c: Store, d: Store, a: Key, spec: AgentSpec, status: Status)
    requires VersionsMeanObjects(c, d) && Resolve(c, a.ns, spec).refs == Resolve(d, a.ns, spec).refs
    ensures RC.Served(c, a, spec, status) == RC.Served(d, a, spec, status) <==>
            SameIndirectly(c, d, a.ns, EffectiveSpec(c, a.ns, spec))
  {
    SameHashSameTargets(c, d, a.ns, spec);
    ServedMovesExactly(c, d, a, spec, status, EffectiveSpec(c, a.ns, spec));
  }

  // --- watchers ---

  /** A frame as the Registry builds it: the Agent's version and its configuration, both read from one cluster state. */
  ghost predicate Carries(f: W.Frame, c: Store, a: Key, encode: RC.AgentConfig -> string) {
    && GetAgent(c, a).Some? && f.rv == c[a].resourceVersion
    && f.payload == encode(RC.Served(c, a, GetAgent(c, a).value, GetStatus(c, a)))
  }

  /** The configuration a watcher was handed last. */
  function Held(out: seq<W.Item>): Option<W.Frame> {
    if out == [] then None
    else
      var n := |out| - 1;
      if out[n].Event? then Some(out[n].frame) else Held(out[..n])
  }

  lemma {:induction false} HeldIsLastVersion(out: seq<W.Item>)
    ensures Held(out).None? <==> WP.Versions(out) == []
    ensures Held(out).Some? ==> Held(out).value.rv == WP.Versions(out)[|WP.Versions(out)| - 1]
  {
    if out != [] {
      var n := |out| - 1;
      HeldIsLastVersion(out[..n]);
      assert out == out[..n] + [out[n]];
      WP.VersionsSnoc(out[..n], out[n]);
    }
  }

  lemma HashOfReady(c: Store, a: Key, spec: AgentSpec, status: Status)
    requires status == Ready.Verdict(c, a, spec, status) && status.phase == Cluster.Ready
    ensures status.configHash == HashOf(Resolve(c, a.ns, spec).refs)
  {
  }

  /** A Ready Agent at one version in two settled states has the same hashed references in both. */
  lemma ReadyKeepsRefs(c: Store, d: Store, a: Key, spec: AgentSpec, status: Status)
    requires status == Ready.Verdict(c, a, spec, status) == Ready.Verdict(d, a, spec, status) && status.phase == Cluster.Ready
    ensures Resolve(c, a.ns, spec).refs == Resolve(d, a.ns, spec).refs
  {
    HashOfReady(c, a, spec, status);
    HashOfReady(d, a, spec, status);
  }

  lemma FrameIsCurrentExactly(f: W.Frame, c: Store, d: Store, a: Key, encode: RC.AgentConfig -> string)
    requires VersionsMeanObjects(c, d) && Carries(f, c, a, encode) && a in d && d[a].resourceVersion == f.rv
    requires Ready.Settled(c, a) && Ready.Settled(d, a) && GetStatus(c, a).phase == Cluster.Ready
    requires forall x, y :: encode(x) == encode(y) ==> x == y
    ensures Carries(f, d, a, encode) <==> SameIndirectly(c, d, a.ns, EffectiveSpec(c, a.ns, GetAgent(c, a).value))
  {
    assert c[a] == d[a];
    ReadyKeepsRefs(c, d, a, GetAgent(c, a).value, GetStatus(c, a));
    SameHashSameConfigExactly(c, d, a, GetAgent(c, a).value, GetStatus(c, a));
  }

  /** On every run: a watcher whose floor is the present version of a Ready Agent, handed a frame built in state c, holds
      the configuration of the present state d if and only if nothing moved that the hash does not cover. */
  lemma UpToDateIsCurrentExactly(
      actions: seq<W.Action>, id: nat, f: W.Frame, c: Store, d: Store, a: Key, encode: RC.AgentConfig -> string)
    requires WP.AllDecimal(actions) && id in W.Run(W.Initially, actions).watchers
    requires var w := W.Run(W.Initially, actions).watchers[id];
      Held(w.out) == Some(f) && a in d && w.floor == d[a].resourceVersion
    requires VersionsMeanObjects(c, d) && Carries(f, c, a, encode)
    requires Ready.Settled(c, a) && Ready.Settled(d, a) && GetStatus(c, a).phase == Cluster.Ready
    requires forall x, y :: encode(x) == encode(y) ==> x == y
    ensures Carries(f, d, a, encode) <==> SameIndirectly(c, d, a.ns, EffectiveSpec(c, a.ns, GetAgent(c, a).value))
  {
    FloorIsHeld(actions, id, f);
    FrameIsCurrentExactly(f, c, d, a, encode);
  }

  lemma FloorIsHeld(actions: seq<W.Action>, id: nat, f: W.Frame)
    requires WP.AllDecimal(actions) && id in W.Run(W.Initially, actions).watchers
    requires Held(W.Run(W.Initially, actions).watchers[id].out) == Some(f)
    ensures W.Run(W.Initially, actions).watchers[id].floor == f.rv
  {
    WP.RunKeepsAllGood(W.Initially, actions);
    HeldIsLastVersion(W.Run(W.Initially, actions).watchers[id].out);
  }

  // --- silent changes ---

  lemma SameTargetsSameRefs(c: Store, d: Store, ns: string, spec: AgentSpec, eff: AgentSpec)
    requires eff == EffectiveSpec(c, ns, spec) == EffectiveSpec(d, ns, spec) && SameTargets(c, d, ns, Targets(spec, eff))
    ensures Resolve(c, ns, spec).refs == Resolve(d, ns, spec).refs
  {
    FlatMapAgree(Targets(spec, eff), RefOf(c, ns), RefOf(d, ns));
  }

  /** No hashed reference moves, and what is served does, whatever the status. */
  ghost predicate Silent(c: Store, d: Store, a: Key, spec: AgentSpec) {
    && Resolve(c, a.ns, spec).refs == Resolve(d, a.ns, spec).refs
    && forall status :: RC.Served(c, a, spec, status) != RC.Served(d, a, spec, status)
  }

  lemma SilentWhen(c: Store, d: Store, a: Key, spec: AgentSpec, eff: AgentSpec)
    requires eff == EffectiveSpec(c, a.ns, spec) == EffectiveSpec(d, a.ns, spec) && SameTargets(c, d, a.ns, Targets(spec, eff))
    requires !SameIndirectly(c, d, a.ns, eff)
    ensures Silent(c, d, a, spec)
  {
    SameTargetsSameRefs(c, d, a.ns, spec, eff);
    forall status ensures RC.Served(c, a, spec, status) != RC.Served(d, a, spec, status) {
      ServedMovesExactly(c, d, a, spec, status, eff);
    }
  }

  /** No reference is hashed to objects of these kinds. */
  predicate Unhashed(kind: Kind) {
    kind == McpServerKind || kind == AgentKind || kind == ConfigMapKind
  }

  lemma UnhashedKeepsTargets(c: Store, d: Store, ns: string, spec: AgentSpec, k: Key, o: Object)
    requires d == c[k := o] && Unhashed(k.kind)
    ensures EffectiveSpec(c, ns, spec) == EffectiveSpec(d, ns, spec)
    ensures SameTargets(c, d, ns, Targets(spec, EffectiveSpec(c, ns, spec)))
  {
    var eff := EffectiveSpec(c, ns, spec);
    forall t | t in Targets(spec, eff) ensures Find(c, ns, t) == Find(d, ns, t) {
      F.TargetIsMentioned(spec, eff, t);
    }
  }

  /** The MCP server behind a tool of the surface, named directly or not, gets another endpoint. */
  lemma ServerChangesSilently(c: Store, d: Store, a: Key, spec: AgentSpec, tool: string, server: string, o: Object)
    requires d == c[Key(McpServerKind, a.ns, server) := o] && o.body.McpServerBody?
    requires tool in Surface(c, a.ns, EffectiveSpec(c, a.ns, spec)) && GetTool(c, a.ns, tool).Some?
    requires var t := GetTool(c, a.ns, tool).value;
      t.type_ == McpType && t.mcpServerRef == Some(server) && t.agentRef.None? && o.body.endpoint != RC.EndpointOf(c, a.ns, t)
    ensures Silent(c, d, a, spec)
  {
    UnhashedKeepsTargets(c, d, a.ns, spec, Key(McpServerKind, a.ns, server), o);
    assert GetTool(d, a.ns, tool) == GetTool(c, a.ns, tool);
    assert !SameTool(c, d, a.ns, tool);
    SilentWhen(c, d, a, spec, EffectiveSpec(c, a.ns, spec));
  }

  /** The peer behind a tool publishes another endpoint. */
  lemma PeerChangesSilently(c: Store, d: Store, a: Key, spec: AgentSpec, tool: string, peer: string, o: Object)
    requires d == c[Key(AgentKind, a.ns, peer) := o] && o.body.AgentBody?
    requires tool in Surface(c, a.ns, EffectiveSpec(c, a.ns, spec)) && GetTool(c, a.ns, tool).Some?
    requires var t := GetTool(c, a.ns, tool).value;
      t.type_ == McpType && t.agentRef == Some(peer) && o.body.status.peerEndpoint != RC.EndpointOf(c, a.ns, t)
    ensures Silent(c, d, a, spec)
  {
    UnhashedKeepsTargets(c, d, a.ns, spec, Key(AgentKind, a.ns, peer), o);
    assert GetTool(d, a.ns, tool) == GetTool(c, a.ns, tool);
    assert !SameTool(c, d, a.ns, tool);
    SilentWhen(c, d, a, spec, EffectiveSpec(c, a.ns, spec));
  }

  /** The ConfigMap behind a Skill without inline content gets other text. */
  lemma SkillTextChangesSilently(c: Store, d: Store, a: Key, spec: AgentSpec, skill: string, ref: ConfigMapKey, o: Object)
    requires d == c[Key(ConfigMapKind, a.ns, ref.name) := o] && o.body.ConfigMapBody? && ref.key in o.body.data
    requires skill in EffectiveSpec(c, a.ns, spec).skillRefs && Exists(c, SkillKind, a.ns, skill)
    requires var b := c[Key(SkillKind, a.ns, skill)].body;
      b.content == "" && b.contentRef == Some(ref) && o.body.data[ref.key] != RC.ContentOf(c, a.ns, b.content, b.contentRef)
    ensures Silent(c, d, a, spec)
  {
    UnhashedKeepsTargets(c, d, a.ns, spec, Key(ConfigMapKind, a.ns, ref.name), o);
    assert !SameContent(c, d, a.ns, skill);
    SilentWhen(c, d, a, spec, EffectiveSpec(c, a.ns, spec));
  }

  /** A Tool is hashed only where it is named directly. */
  lemma ToolChangeKeepsTargets(c: Store, d: Store, ns: string, spec: AgentSpec, tool: string, o: Object)
    requires d == c[Key(ToolKind, ns, tool) := o] && tool !in EffectiveSpec(c, ns, spec).toolRefs
    ensures EffectiveSpec(c, ns, spec) == EffectiveSpec(d, ns, spec)
    ensures SameTargets(c, d, ns, Targets(spec, EffectiveSpec(c, ns, spec)))
  {
    var eff := EffectiveSpec(c, ns, spec);
    forall t | t in Targets(spec, eff) ensures Find(c, ns, t) == Find(d, ns, t) {
      if t.kind == ToolKind {
        F.TargetIsMentioned(spec, eff, t);
      }
    }
  }

  /** Whatever becomes of what is served for a Tool that only a ToolSet brings in, no hashed reference moves. */
  lemma ToolSetMemberChangesSilently(c: Store, d: Store, a: Key, spec: AgentSpec, tool: string, o: Object)
    requires d == c[Key(ToolKind, a.ns, tool) := o]
    requires var eff := EffectiveSpec(c, a.ns, spec); tool in Surface(c, a.ns, eff) && tool !in eff.toolRefs
    requires !SameTool(c, d, a.ns, tool)
    ensures Silent(c, d, a, spec)
  {
    ToolChangeKeepsTargets(c, d, a.ns, spec, tool, o);
    SilentWhen(c, d, a, spec, EffectiveSpec(c, a.ns, spec));
  }

  lemma CredentialChangeKeepsTargets(c: Store, d: Store, ns: string, spec: AgentSpec, cred: string, o: Object)
    requires d == c[Key(CredentialKind, ns, cred) := o]
    requires cred !in spec.credentialRefs && (spec.workspace.Some? ==> spec.workspace.value.credentialRef != Some(cred))
    ensures EffectiveSpec(c, ns, spec) == EffectiveSpec(d, ns, spec)
    ensures SameTargets(c, d, ns, Targets(spec, EffectiveSpec(c, ns, spec)))
  {
    var eff := EffectiveSpec(c, ns, spec);
    forall t | t in Targets(spec, eff) ensures Find(c, ns, t) == Find(d, ns, t) {
      if t.kind == CredentialKind {
        F.TargetIsMentioned(spec, eff, t);
      }
    }
  }

  /** A Credential that only the Model names gets another Secret, or another key within it. */
  lemma ModelCredentialChangesSilently(c: Store, d: Store, a: Key, spec: AgentSpec, model: string, cred: string, o: Object)
    requires d == c[Key(CredentialKind, a.ns, cred) := o] && o.body.CredentialBody?
    requires cred !in spec.credentialRefs && (spec.workspace.Some? ==> spec.workspace.value.credentialRef != Some(cred))
    requires EffectiveSpec(c, a.ns, spec).modelRef == Some(model)
    requires Exists(c, ModelKind, a.ns, model) && c[Key(ModelKind, a.ns, model)].body.credentialRef == Some(cred)
    requires var eff := EffectiveSpec(c, a.ns, spec);
      o.body.secretName != ModelSecret(c, a.ns, eff) || o.body.secretKey != RC.ModelKey(c, a.ns, eff)
    ensures Silent(c, d, a, spec)
  {
    var eff := EffectiveSpec(c, a.ns, spec);
    CredentialChangeKeepsTargets(c, d, a.ns, spec, cred, o);
    ChangedSecret(c, d, a.ns, eff, model, cred, o);
    SilentWhen(c, d, a, spec, eff);
  }

  lemma ChangedSecret(c: Store, d: Store, ns: string, eff: AgentSpec, model: string, cred: string, o: Object)
    requires d == c[Key(CredentialKind, ns, cred) := o] && o.body.CredentialBody? && eff.modelRef == Some(model)
    requires Exists(c, ModelKind, ns, model) && c[Key(ModelKind, ns, model)].body.credentialRef == Some(cred)
    ensures ModelSecret(d, ns, eff) == o.body.secretName && RC.ModelKey(d, ns, eff) == o.body.secretKey
  {
    assert Get(d, Key(ModelKind, ns, model)) == Get(c, Key(ModelKind, ns, model));
  }

  // --- Degraded Agents ---

  /** The same targets are there in both states, whatever their versions. */
  ghost predicate SamePresence(c: Store, d: Store, ns: string, ts: seq<Target>) {
    forall t :: t in ts ==> Find(c, ns, t).Some? == Find(d, ns, t).Some?
  }

  /** As long as something is missing in both states, the status says the same of both. */
  lemma SamePresenceSameVerdict(c: Store, d: Store, a: Key, spec: AgentSpec, before: Status)
    requires EffectiveSpec(c, a.ns, spec) == EffectiveSpec(d, a.ns, spec)
    requires SamePresence(c, d, a.ns, Targets(spec, EffectiveSpec(c, a.ns, spec)))
    requires Resolve(c, a.ns, spec).missing != []
    ensures Ready.Verdict(c, a, spec, before) == Ready.Verdict(d, a, spec, before)
    ensures Ready.Verdict(c, a, spec, before).phase == Degraded
  {
    SamePresenceSameCounts(c, d, a.ns, spec);
  }

  lemma SamePresenceSameCounts(c: Store, d: Store, ns: string, spec: AgentSpec)
    requires EffectiveSpec(c, ns, spec) == EffectiveSpec(d, ns, spec)
    requires SamePresence(c, d, ns, Targets(spec, EffectiveSpec(c, ns, spec)))
    ensures Resolve(c, ns, spec).missing == Resolve(d, ns, spec).missing
    ensures |Resolve(c, ns, spec).refs| == |Resolve(d, ns, spec).refs|
  {
    var eff := EffectiveSpec(c, ns, spec);
    FlatMapAgree(Targets(spec, eff), MissOf(c, ns), MissOf(d, ns));
    ResolutionPartitions(c, ns, spec);
    ResolutionPartitions(d, ns, spec);
  }

  /** The text of an existing prompt is replaced. */
  ghost predicate Reworded(c: Store, d: Store, ns: string, prompt: string, o: Object) {
    && d == c[Key(PromptTemplateKind, ns, prompt) := o] && o.body.PromptTemplateBody?
    && GetPrompt(c, ns, prompt).Some? && GetPrompt(c, ns, prompt) != Some(o.body.system)
  }

  lemma RewordedKeepsPresence(c: Store, d: Store, ns: string, spec: AgentSpec, prompt: string, o: Object)
    requires Reworded(c, d, ns, prompt, o)
    ensures EffectiveSpec(c, ns, spec) == EffectiveSpec(d, ns, spec)
    ensures SamePresence(c, d, ns, Targets(spec, EffectiveSpec(c, ns, spec)))
    ensures GetPrompt(d, ns, prompt) == Some(o.body.system)
  {
  }

  lemma NewPromptIsServed(c: Store, d: Store, a: Key, spec: AgentSpec, status: Status, eff: AgentSpec)
    requires eff == EffectiveSpec(c, a.ns, spec) == EffectiveSpec(d, a.ns, spec)
    requires RC.PromptOf(c, a.ns, eff) != RC.PromptOf(d, a.ns, eff)
    ensures RC.Served(c, a, spec, status) != RC.Served(d, a, spec, status)
  {
    ServedParts(c, a, spec, status, eff);
    ServedParts(d, a, spec, status, eff);
  }

  /** An Agent that misses some other reference gets a new prompt text: even a change of a direct reference is silent now,
      since its settled status, and with it its version, stays as it is. */
  lemma PromptOfDegradedChangesSilently(
      c: Store, d: Store, a: Key, spec: AgentSpec, status: Status, eff: AgentSpec, prompt: string, o: Object)
    requires Reworded(c, d, a.ns, prompt, o)
    requires a.kind == AgentKind && a in c && c[a].body == AgentBody(spec, status)
    requires status == Ready.Verdict(c, a, spec, status) && Resolve(c, a.ns, spec).missing != []
    requires eff == EffectiveSpec(c, a.ns, spec) && eff.promptRef == Some(prompt)
    ensures a in d && d[a] == c[a] && status == Ready.Verdict(d, a, spec, status) && status.phase == Degraded
    ensures RC.Served(c, a, spec, status) != RC.Served(d, a, spec, status)
  {
    RewordedKeepsPresence(c, d, a.ns, spec, prompt, o);
    SamePresenceSameVerdict(c, d, a, spec, status);
    NewPromptIsServed(c, d, a, spec, status, eff);
  }

  // --- one pair of clusters ---

  /** With a server the Agent did not use before, what the Operator checks against Policies changes as well. */
  lemma NewServerChangesDeclared(c: Store, d: Store, ns: string, eff: AgentSpec, tool: string, server: string)
    requires tool in Surface(d, ns, eff) && GetTool(d, ns, tool).Some? && GetTool(d, ns, tool).value.mcpServerRef == Some(server)
    requires forall n :: n in Surface(c, ns, eff) ==> server !in McpOf(c, ns)(n)
    ensures Declared(c, ns, eff) != Declared(d, ns, eff)
  {
    var before, after := Dedupe(Surface(c, ns, eff)), Dedupe(Surface(d, ns, eff));
    FlatMapMember(before, McpOf(c, ns), server);
    FlatMapMember(after, McpOf(d, ns), server);
    assert server in McpOf(d, ns)(tool);
    assert server in Declared(d, ns, eff).mcpServers;
  }

  const SetSpec := AgentSpec(None, None, None, [], ["set"], [], [], [], [], None, None, None)

  function McpTool(endpoint: string, server: Option<string>): ToolSpec {
    ToolSpec(McpType, "", endpoint, "", None, server, None)
  }

  /** A ToolSet with one Tool. */
  function ClusterWith(ns: string, tool: ToolSpec, version: string): Store {
    map[Key(ToolSetKind, ns, "set") := Object("1", ToolSetBody(["tool"])), Key(ToolKind, ns, "tool") := Object(version, ToolBody(tool))]
  }

  lemma SetSurface(c: Store, ns: string, tool: ToolSpec, version: string)
    requires c == ClusterWith(ns, tool, version)
    ensures EffectiveSpec(c, ns, SetSpec) == SetSpec && Surface(c, ns, SetSpec) == ["tool"]
    ensures GetTool(c, ns, "tool") == Some(tool)
    ensures tool.type_ == McpType && tool.agentRef.None? ==> RC.EndpointOf(c, ns, tool) == tool.endpoint
  {
    FlatMapSnoc([], "set", MembersOf(c, ns));
    assert [] + ["set"] == ["set"];
    assert MembersOf(c, ns)("set") == ["tool"];
  }

  lemma DeclaredIs(c: Store, ns: string, spec: AgentSpec)
    ensures Resolve(c, ns, spec).declared == Declared(c, ns, EffectiveSpec(c, ns, spec))
  {
  }

  lemma DeclaredMoves(c: Store, d: Store, ns: string, tool: ToolSpec, server: string)
    requires c == ClusterWith(ns, tool, "1") && tool.mcpServerRef.None?
    requires d == ClusterWith(ns, McpTool("new", Some(server)), "2")
    ensures Resolve(c, ns, SetSpec).declared != Resolve(d, ns, SetSpec).declared
  {
    SetSurface(c, ns, tool, "1");
    SetSurface(d, ns, McpTool("new", Some(server)), "2");
    DeclaredIs(c, ns, SetSpec);
    DeclaredIs(d, ns, SetSpec);
    NewServerChangesDeclared(c, d, ns, SetSpec, "tool", server);
  }

  /** The Tool behind a ToolSet gets an address and an MCP server: what the Operator checks and what the Registry serves
      differ, the hash does not. */
  lemma HashMissesToolSetMembers(c: Store, d: Store, a: Key, server: string)
    requires c == ClusterWith(a.ns, McpTool("old", None), "1") && d == ClusterWith(a.ns, McpTool("new", Some(server)), "2")
    ensures Silent(c, d, a, SetSpec) && Resolve(c, a.ns, SetSpec).declared != Resolve(d, a.ns, SetSpec).declared
  {
    var o := Object("2", ToolBody(McpTool("new", Some(server))));
    SetSurface(c, a.ns, McpTool("old", None), "1");
    SetSurface(d, a.ns, McpTool("new", Some(server)), "2");
    assert d == c[Key(ToolKind, a.ns, "tool") := o];
    assert !SameTool(c, d, a.ns, "tool");
    ToolSetMemberChangesSilently(c, d, a, SetSpec, "tool", o);
    DeclaredMoves(c, d, a.ns, McpTool("old", None), server);
  }
}
