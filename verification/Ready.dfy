/** The phase decision of a reconcile, and what Ready is worth. */
module Ready {
  import opened Lists
  import opened Api
  import opened Cluster
  import R = Resolution
  import Resolver
  import P = PolicyMerge
  import ToolRules
  import V = Validation

  // --- coherence of Skills and peers ---

  datatype SkillViolation = SkillViolation(skill: string, tool: string)

  ghost predicate Incoherent(scopes: seq<SkillToolScope>, available: seq<string>, v: SkillViolation) {
    exists s :: s in scopes && s.skill == v.skill && v.tool in s.allowedTools && v.tool !in available
  }

  /** Exactly the allowed tools that the Agent cannot reach. */
  method SkillToolViolations(scopes: seq<SkillToolScope>, available: seq<string>) returns (out: seq<SkillViolation>)
    ensures forall v :: v in out <==> Incoherent(scopes, available, v)
  {
    out := [];
    var known: set<string> := set t | t in available;
    for i := 0 to |scopes|
      invariant forall v :: v in out <==> Incoherent(scopes[..i], available, v)
    {
      ghost var before := out;
      var tools := scopes[i].allowedTools;
      for j := 0 to |tools|
        invariant forall v :: v in out <==>
                  v in before || (v.skill == scopes[i].skill && v.tool in tools[..j] && v.tool !in available)
      {
        assert tools[..j + 1] == tools[..j] + [tools[j]];
        if tools[j] !in known {
          out := out + [SkillViolation(scopes[i].skill, tools[j])];
        }
      }
      assert tools[..|tools|] == tools;
      assert forall s :: s in scopes[..i + 1] <==> s in scopes[..i] || s == scopes[i];
    }
    assert scopes[..|scopes|] == scopes;
  }

  datatype PeerViolation = PointsAtItself(tool: string) | NoSuchPeer(tool: string, agent: string) | NotExposed(tool: string, agent: string)

  /** A peer edge that cannot resolve to a working endpoint, and why. */
  function PeerFault(c: Store, ns: string, self: string, p: R.PeerRef): Option<PeerViolation> {
    if p.agent == self then Some(PointsAtItself(p.tool))
    else
      var target := GetAgent(c, Key(AgentKind, ns, p.agent));
      if target.None? then Some(NoSuchPeer(p.tool, p.agent))
      else if target.value.expose.None? then Some(NotExposed(p.tool, p.agent))
      else None
  }

  function FaultOf(c: Store, ns: string, self: string): R.PeerRef -> seq<PeerViolation> {
    p => var f := PeerFault(c, ns, self, p); if f.Some? then [f.value] else []
  }

  /** One report for each faulty edge, in the order of the edges. */
  method PeerViolations(c: Store, ns: string, self: string, peers: seq<R.PeerRef>) returns (out: seq<PeerViolation>)
    ensures out == FlatMap(peers, FaultOf(c, ns, self))
  {
    out := [];
    for i := 0 to |peers|
      invariant out == FlatMap(peers[..i], FaultOf(c, ns, self))
    {
      var p := peers[i];
      FlatMapPrefix(peers, i, FaultOf(c, ns, self));
      if p.agent == self {
        out := out + [PointsAtItself(p.tool)];
        continue;
      }
      var target := GetAgent(c, Key(AgentKind, ns, p.agent));
      if target.None? {
        out := out + [NoSuchPeer(p.tool, p.agent)];
        continue;
      }
      if target.value.expose.None? {
        out := out + [NotExposed(p.tool, p.agent)];
      }
    }
    assert peers[..|peers|] == peers;
  }

  lemma NoFaults(c: Store, ns: string, self: string, peers: seq<R.PeerRef>)
    ensures FlatMap(peers, FaultOf(c, ns, self)) == [] <==> forall p :: p in peers ==> PeerFault(c, ns, self, p).None?
  {
  }

  // --- reconcile ---

  class AgentStatus {
    var phase: Phase
    var resolvedConfigHash: ConfigHash
    var resolvedRefs: nat
    var peerEndpoint: string

    ghost function View(): Status
      reads this
    {
      Status(phase, resolvedConfigHash, resolvedRefs, peerEndpoint)
    }

    constructor ()
      ensures View() == Status(Pending, NoHash, 0, "")
    {
      phase, resolvedConfigHash, resolvedRefs, peerEndpoint := Pending, NoHash, 0, "";
    }
  }

  /** Nothing is missing and nothing is in breach, read off a resolution. */
  ghost predicate Passes(c: Store, a: Key, r: R.Result) {
    && r.missing == []
    && P.Clean(r.policies, r.toolPolicies, r.declared)
    && (forall v :: !Incoherent(r.skillScopes, r.declared.tools, v))
    && (forall p :: p in r.peers ==> PeerFault(c, a.ns, a.name, p).None?)
  }

  /** What a reconcile of the Agent writes over an earlier status; an invalid spec keeps the earlier count. */
  ghost function Verdict(c: Store, a: Key, spec: AgentSpec, before: Status): Status {
    var r := R.Resolve(c, a.ns, spec);
    var ready := V.ValidSpec(spec) && Passes(c, a, r);
    before.(phase := if ready then Ready else Degraded,
            configHash := if ready then HashOf(r.refs) else NoHash,
            resolvedRefs := if V.ValidSpec(spec) then |r.refs| else before.resolvedRefs)
  }

  /** Reconciling the Agent once more would write nothing new. */
  ghost predicate Settled(c: Store, a: Key) {
    GetAgent(c, a).Some? && GetStatus(c, a) == Verdict(c, a, GetAgent(c, a).value, GetStatus(c, a))
  }

  /** One reconcile with reliable reads: writes Ready with the hash of the refs, or Degraded with none. */
  method Reconcile(c: Store, a: Key, status: AgentStatus)
    requires a.kind == AgentKind
    modifies status
    ensures GetAgent(c, a).None? ==> unchanged(status)
    ensures GetAgent(c, a).Some? ==> status.View() == Verdict(c, a, GetAgent(c, a).value, old(status.View()))
    ensures GetAgent(c, a).Some? && ProperNames(c) ==>
              && (status.phase == Ready <==> ReadyCondition(c, a, GetAgent(c, a).value))
              && (status.phase == Ready <==> status.resolvedConfigHash != NoHash)
  {
    var agent := GetAgent(c, a);
    if agent.None? {
      return;
    }
    var spec := agent.value;
    if ProperNames(c) {
      ReadyIsExact(c, a, spec);
    }
    var valid := V.Validate(spec);
    if !valid {
      status.phase, status.resolvedConfigHash := Degraded, NoHash;
      return;
    }
    var res := Resolver.ResolveRefs(c, a.ns, spec);
    status.resolvedRefs := |res.refs|;
    if |res.missing| > 0 {
      status.phase, status.resolvedConfigHash := Degraded, NoHash;
      return;
    }
    var violated := AnyViolation(c, a, res.policies, res.toolPolicies, res.declared, res.skillScopes, res.peers, res.View());
    if violated {
      status.phase, status.resolvedConfigHash := Degraded, NoHash;
      return;
    }
    status.phase, status.resolvedConfigHash := Ready, HashOf(res.refs);
  }

  method AnyViolation(
    c: Store, a: Key, policies: seq<Policy>, toolPolicies: seq<ToolPolicy>, declared: AgentReferences,
    scopes: seq<SkillToolScope>, peers: seq<R.PeerRef>, ghost r: R.Result) returns (violated: bool)
    requires r.missing == [] && r.policies == policies && r.toolPolicies == toolPolicies
    requires r.declared == declared && r.skillScopes == scopes && r.peers == peers
    ensures violated <==> !Passes(c, a, r)
  {
    var policy := P.MergePolicies(policies, toolPolicies);
    var breaches := P.Violations(policy, declared);
    var skills := SkillToolViolations(scopes, declared.tools);
    var faults := PeerViolations(c, a.ns, a.name, peers);
    violated := |breaches| + |skills| + |faults| > 0;
    assert |breaches| > 0 ==> breaches[0] in breaches;
    assert |skills| > 0 ==> skills[0] in skills;
    NoFaults(c, a.ns, a.name, peers);
  }

  // --- Ready is exact ---

  /** This Policy on its own permits the model, every tool of the surface and the MCP server behind each existing tool. */
  ghost predicate PermitsAll(c: Store, ns: string, eff: AgentSpec, p: PolicySpec)
    requires eff.modelRef.Some?
  {
    && P.PermitsName(p.models, eff.modelRef.value)
    && (forall tool :: tool in R.Surface(c, ns, eff) ==> P.PermitsName(p.tools, tool))
    && (forall tool :: tool in R.Surface(c, ns, eff) ==>
          var t := GetTool(c, ns, tool);
          t.Some? && t.value.mcpServerRef.Some? ==> P.PermitsName(p.mcp, t.value.mcpServerRef.value))
  }

  ghost predicate PoliciesPermit(c: Store, ns: string, eff: AgentSpec)
    requires eff.modelRef.Some?
  {
    forall name :: name in eff.policyRefs && Exists(c, PolicyKind, ns, name) ==>
      PermitsAll(c, ns, eff, c[Key(PolicyKind, ns, name)].body.policy)
  }

  ghost predicate RulesAllow(c: Store, ns: string, eff: AgentSpec) {
    forall tool :: tool in R.Surface(c, ns, eff) ==> ToolRules.Allowed(R.ToolPoliciesAt(c, ns, eff.toolPolicyRefs), tool)
  }

  ghost predicate SkillsCoherent(c: Store, ns: string, eff: AgentSpec) {
    forall name, tool ::
      (name in eff.skillRefs && Exists(c, SkillKind, ns, name) && tool in c[Key(SkillKind, ns, name)].body.allowedTools)
      ==> tool in R.Surface(c, ns, eff)
  }

  /** Every peer consulted through a tool is another Agent that exists and is exposed. */
  ghost predicate PeersAnswer(c: Store, a: Key, eff: AgentSpec) {
    forall tool :: tool in R.Surface(c, a.ns, eff) ==>
      var t := GetTool(c, a.ns, tool);
      t.Some? && t.value.agentRef.Some? ==>
        var peer := GetAgent(c, Key(AgentKind, a.ns, t.value.agentRef.value));
        t.value.agentRef.value != a.name && peer.Some? && peer.value.expose.Some?
  }

  /** What Ready promises, in terms of the cluster alone. */
  ghost predicate ReadyCondition(c: Store, a: Key, spec: AgentSpec) {
    var eff := R.EffectiveSpec(c, a.ns, spec);
    && V.ValidSpec(spec)
    && ModelAndTargetsResolve(c, a.ns, spec, eff)
    && PoliciesPermit(c, a.ns, eff)
    && RulesAllow(c, a.ns, eff)
    && SkillsCoherent(c, a.ns, eff)
    && PeersAnswer(c, a, eff)
  }

  lemma ServerMember(c: Store, ns: string, eff: AgentSpec, m: string)
    ensures m in R.Declared(c, ns, eff).mcpServers <==>
            exists tool :: tool in R.Surface(c, ns, eff) && m in R.McpOf(c, ns)(tool)
  {
    FlatMapMember(R.Declared(c, ns, eff).tools, R.McpOf(c, ns), m);
  }

  lemma PeerMember(c: Store, ns: string, eff: AgentSpec, p: R.PeerRef)
    ensures p in R.Peers(c, ns, eff) <==> exists tool :: tool in R.Surface(c, ns, eff) && p in R.PeerOf(c, ns)(tool)
  {
    FlatMapMember(Dedupe(R.Surface(c, ns, eff)), R.PeerOf(c, ns), p);
  }

  ghost predicate PermitsDeclared(p: PolicySpec, refs: AgentReferences) {
    && P.PermitsName(p.models, refs.model)
    && (forall m :: m in refs.mcpServers ==> P.PermitsName(p.mcp, m))
    && (forall t :: t in refs.tools ==> P.PermitsName(p.tools, t))
  }

  lemma PermitsSame(c: Store, ns: string, eff: AgentSpec, p: PolicySpec)
    requires eff.modelRef.Some?
    ensures PermitsDeclared(p, R.Declared(c, ns, eff)) <==> PermitsAll(c, ns, eff, p)
  {
    var declared := R.Declared(c, ns, eff);
    if PermitsDeclared(p, declared) {
      forall tool | tool in R.Surface(c, ns, eff) && GetTool(c, ns, tool).Some? && GetTool(c, ns, tool).value.mcpServerRef.Some?
        ensures P.PermitsName(p.mcp, GetTool(c, ns, tool).value.mcpServerRef.value)
      {
        var m := GetTool(c, ns, tool).value.mcpServerRef.value;
        ServerMember(c, ns, eff, m);
        assert m in R.McpOf(c, ns)(tool);
      }
    }
    if PermitsAll(c, ns, eff, p) {
      forall m | m in declared.mcpServers ensures P.PermitsName(p.mcp, m) {
        ServerMember(c, ns, eff, m);
      }
    }
  }

  /** The merged verdict on an Agent's references is the verdict of each Policy and of the joined rules. */
  lemma PolicyPart(c: Store, ns: string, eff: AgentSpec)
    requires eff.modelRef.Some? && eff.modelRef.value != ""
    ensures P.Clean(R.PoliciesAt(c, ns, eff.policyRefs), R.ToolPoliciesAt(c, ns, eff.toolPolicyRefs), R.Declared(c, ns, eff))
       <==> PoliciesPermit(c, ns, eff) && RulesAllow(c, ns, eff)
  {
    var policies, toolPolicies := R.PoliciesAt(c, ns, eff.policyRefs), R.ToolPoliciesAt(c, ns, eff.toolPolicyRefs);
    var declared := R.Declared(c, ns, eff);
    P.CleanMeansCompliant(policies, toolPolicies, declared);
    assert P.Compliant(policies, toolPolicies, declared) <==>
        EachPermits(policies, declared) && RulesAllow(c, ns, eff);
    EachPolicy(c, ns, eff);
  }

  ghost predicate EachPermits(policies: seq<Policy>, declared: AgentReferences) {
    forall p :: p in policies ==> PermitsDeclared(p.spec, declared)
  }

  lemma EachPolicy(c: Store, ns: string, eff: AgentSpec)
    requires eff.modelRef.Some?
    ensures EachPermits(R.PoliciesAt(c, ns, eff.policyRefs), R.Declared(c, ns, eff)) <==> PoliciesPermit(c, ns, eff)
  {
    if EachPermits(R.PoliciesAt(c, ns, eff.policyRefs), R.Declared(c, ns, eff)) {
      forall name | name in eff.policyRefs && Exists(c, PolicyKind, ns, name)
        ensures PermitsAll(c, ns, eff, c[Key(PolicyKind, ns, name)].body.policy)
      {
        NamedPolicyPermits(c, ns, eff, name);
      }
    }
    if PoliciesPermit(c, ns, eff) {
      CollectedPoliciesPermit(c, ns, eff);
    }
  }

  lemma NamedPolicyPermits(c: Store, ns: string, eff: AgentSpec, name: string)
    requires eff.modelRef.Some? && name in eff.policyRefs && Exists(c, PolicyKind, ns, name)
    requires EachPermits(R.PoliciesAt(c, ns, eff.policyRefs), R.Declared(c, ns, eff))
    ensures PermitsAll(c, ns, eff, c[Key(PolicyKind, ns, name)].body.policy)
  {
    var p := Policy(name, c[Key(PolicyKind, ns, name)].body.policy);
    R.PolicyAtMember(c, ns, eff.policyRefs, p);
    PermitsSame(c, ns, eff, p.spec);
  }

  lemma CollectedPoliciesPermit(c: Store, ns: string, eff: AgentSpec)
    requires eff.modelRef.Some? && PoliciesPermit(c, ns, eff)
    ensures EachPermits(R.PoliciesAt(c, ns, eff.policyRefs), R.Declared(c, ns, eff))
  {
    forall p | p in R.PoliciesAt(c, ns, eff.policyRefs) ensures PermitsDeclared(p.spec, R.Declared(c, ns, eff)) {
      R.PolicyAtMember(c, ns, eff.policyRefs, p);
      PermitsSame(c, ns, eff, p.spec);
    }
  }

  lemma SkillPart(c: Store, ns: string, eff: AgentSpec)
    ensures (forall v :: !Incoherent(R.ScopesAt(c, ns, eff.skillRefs), R.Declared(c, ns, eff).tools, v))
       <==> SkillsCoherent(c, ns, eff)
  {
    var scopes, tools := R.ScopesAt(c, ns, eff.skillRefs), R.Declared(c, ns, eff).tools;
    if forall v :: !Incoherent(scopes, tools, v) {
      forall name, tool | name in eff.skillRefs && Exists(c, SkillKind, ns, name)
        && tool in c[Key(SkillKind, ns, name)].body.allowedTools
        ensures tool in R.Surface(c, ns, eff)
      {
        var s := SkillToolScope(name, c[Key(SkillKind, ns, name)].body.allowedTools);
        R.ScopeAtMember(c, ns, eff.skillRefs, s);
        assert !Incoherent(scopes, tools, SkillViolation(name, tool));
      }
    } else {
      var v :| Incoherent(scopes, tools, v);
      var s :| s in scopes && s.skill == v.skill && v.tool in s.allowedTools && v.tool !in tools;
      R.ScopeAtMember(c, ns, eff.skillRefs, s);
    }
  }

  /** The peer edge of a tool that has one. */
  lemma EdgeOf(c: Store, ns: string, eff: AgentSpec, tool: string)
    requires tool in R.Surface(c, ns, eff) && GetTool(c, ns, tool).Some? && GetTool(c, ns, tool).value.agentRef.Some?
    ensures R.PeerRef(tool, GetTool(c, ns, tool).value.agentRef.value) in R.Peers(c, ns, eff)
  {
    var p := R.PeerRef(tool, GetTool(c, ns, tool).value.agentRef.value);
    PeerMember(c, ns, eff, p);
    assert p in R.PeerOf(c, ns)(tool);
  }

  lemma FaultlessTools(c: Store, a: Key, eff: AgentSpec)
    requires forall p :: p in R.Peers(c, a.ns, eff) ==> PeerFault(c, a.ns, a.name, p).None?
    ensures PeersAnswer(c, a, eff)
  {
    forall tool | tool in R.Surface(c, a.ns, eff) && GetTool(c, a.ns, tool).Some? && GetTool(c, a.ns, tool).value.agentRef.Some?
      ensures PeerFault(c, a.ns, a.name, R.PeerRef(tool, GetTool(c, a.ns, tool).value.agentRef.value)).None?
    {
      EdgeOf(c, a.ns, eff, tool);
    }
  }

  lemma PeerPart(c: Store, a: Key, eff: AgentSpec)
    ensures (forall p :: p in R.Peers(c, a.ns, eff) ==> PeerFault(c, a.ns, a.name, p).None?) <==> PeersAnswer(c, a, eff)
  {
    if PeersAnswer(c, a, eff) {
      forall p | p in R.Peers(c, a.ns, eff) ensures PeerFault(c, a.ns, a.name, p).None? {
        PeerMember(c, a.ns, eff, p);
      }
    } else if forall p :: p in R.Peers(c, a.ns, eff) ==> PeerFault(c, a.ns, a.name, p).None? {
      FaultlessTools(c, a, eff);
    }
  }

  ghost predicate ModelAndTargetsResolve(c: Store, ns: string, spec: AgentSpec, eff: AgentSpec) {
    eff.modelRef.Some? && forall t :: t in R.Targets(spec, eff) ==> R.Resolved(c, ns, t)
  }

  lemma ModelIsNamed(c: Store, ns: string, spec: AgentSpec, eff: AgentSpec)
    requires ProperNames(c) && ModelAndTargetsResolve(c, ns, spec, eff)
    ensures eff.modelRef.value != ""
  {
    var t := R.Target(ModelKind, eff.modelRef.value, false);
    assert t in R.Leading(spec, eff);
    assert R.Resolved(c, ns, t);
  }

  /** The fields the decision reads, each as a statement about the cluster. */
  ghost predicate Fields(c: Store, ns: string, eff: AgentSpec, r: R.Result) {
    && r.policies == R.PoliciesAt(c, ns, eff.policyRefs)
    && r.toolPolicies == R.ToolPoliciesAt(c, ns, eff.toolPolicyRefs)
    && r.skillScopes == R.ScopesAt(c, ns, eff.skillRefs)
    && r.declared == R.Declared(c, ns, eff)
    && r.peers == R.Peers(c, ns, eff)
  }

  lemma ResolvedFields(c: Store, ns: string, spec: AgentSpec)
    ensures Fields(c, ns, R.EffectiveSpec(c, ns, spec), R.Resolve(c, ns, spec))
  {
    R.CollectedLists(c, ns, spec);
  }

  lemma NothingMissing(c: Store, ns: string, spec: AgentSpec)
    ensures R.Resolve(c, ns, spec).missing == [] <==> ModelAndTargetsResolve(c, ns, spec, R.EffectiveSpec(c, ns, spec))
  {
    R.ResolutionPartitions(c, ns, spec);
  }

  lemma NothingBreached(c: Store, a: Key, eff: AgentSpec, r: R.Result)
    requires Fields(c, a.ns, eff, r) && r.missing == [] && eff.modelRef.Some? && eff.modelRef.value != ""
    ensures Passes(c, a, r) <==>
            PoliciesPermit(c, a.ns, eff) && RulesAllow(c, a.ns, eff) && SkillsCoherent(c, a.ns, eff) && PeersAnswer(c, a, eff)
  {
    PolicyPart(c, a.ns, eff);
    SkillPart(c, a.ns, eff);
    PeerPart(c, a, eff);
  }

  lemma PassesExactly(c: Store, a: Key, spec: AgentSpec, eff: AgentSpec, r: R.Result)
    requires ProperNames(c) && eff == R.EffectiveSpec(c, a.ns, spec) && r == R.Resolve(c, a.ns, spec)
    ensures Passes(c, a, r) <==>
            && ModelAndTargetsResolve(c, a.ns, spec, eff)
            && PoliciesPermit(c, a.ns, eff) && RulesAllow(c, a.ns, eff)
            && SkillsCoherent(c, a.ns, eff) && PeersAnswer(c, a, eff)
  {
    NothingMissing(c, a.ns, spec);
    if ModelAndTargetsResolve(c, a.ns, spec, eff) {
      ModelIsNamed(c, a.ns, spec, eff);
      ResolvedFields(c, a.ns, spec);
      NothingBreached(c, a, eff, r);
    }
  }

  /** Ready is exact: the decision taken on a resolution holds if and only if the condition on the cluster does. */
  lemma ReadyIsExact(c: Store, a: Key, spec: AgentSpec)
    requires ProperNames(c)
    ensures V.ValidSpec(spec) && Passes(c, a, R.Resolve(c, a.ns, spec)) <==> ReadyCondition(c, a, spec)
  {
    PassesExactly(c, a, spec, R.EffectiveSpec(c, a.ns, spec), R.Resolve(c, a.ns, spec));
  }

  /** What the published status tells a reader: Ready exactly on the condition and with the hash of every target; the count
      of the targets that are there; and nothing about counts while the spec is invalid. */
  lemma VerdictSays(c: Store, a: Key, spec: AgentSpec, before: Status)
    requires ProperNames(c)
    ensures var v, r := Verdict(c, a, spec, before), R.Resolve(c, a.ns, spec);
      var targets := R.Targets(spec, R.EffectiveSpec(c, a.ns, spec));
      && (v.phase == Ready <==> ReadyCondition(c, a, spec)) && (v.phase != Ready ==> v.phase == Degraded)
      && (v.phase == Ready ==> v.configHash == HashOf(r.refs) && v.resolvedRefs == |targets|)
      && (v.phase != Ready ==> v.configHash == NoHash)
      && (!V.ValidSpec(spec) ==> v.resolvedRefs == before.resolvedRefs)
      && (V.ValidSpec(spec) && R.EffectiveSpec(c, a.ns, spec).modelRef.Some? ==> v.resolvedRefs + |r.missing| == |targets|)
      && v.peerEndpoint == before.peerEndpoint
  {
    ReadyIsExact(c, a, spec);
    R.ResolutionPartitions(c, a.ns, spec);
  }

  // --- what a class can enforce ---

  /** In every cluster, what the merged policy of the Agent permits, each existing default Policy of its class permits. */
  ghost predicate ClassBinds(spec: AgentSpec) {
    forall c: Store, ns: string, q: string, aspect: P.Aspect, name: string ::
      ClassPolicy(c, ns, spec, q) && P.PermitsName(P.MergedRule(R.Resolve(c, ns, spec).policies, aspect), name) ==>
        P.PermitsName(P.RuleOf(PolicyNamed(c, ns, q), aspect), name)
  }

  /** q is an existing Policy that the Agent's existing class lists as a default. */
  ghost predicate ClassPolicy(c: Store, ns: string, spec: AgentSpec, q: string) {
    R.ClassOf(c, ns, spec).Some? && q in R.ClassOf(c, ns, spec).value.defaultPolicyRefs && Exists(c, PolicyKind, ns, q)
  }

  ghost function PolicyNamed(c: Store, ns: string, q: string): Policy
    requires Exists(c, PolicyKind, ns, q)
  {
    Policy(q, c[Key(PolicyKind, ns, q)].body.policy)
  }

  /** A class binds an Agent's verdicts, whatever the cluster, if and only if the Agent has no class or no Policy of its own. */
  lemma ClassBindsExactly(spec: AgentSpec)
    ensures ClassBinds(spec) <==> spec.agentClassRef.None? || spec.policyRefs == []
  {
    if spec.agentClassRef.Some? && spec.policyRefs != [] {
      EscapesClass(spec);
    } else {
      forall c: Store, ns: string, q: string, aspect: P.Aspect, name: string |
        ClassPolicy(c, ns, spec, q) && P.PermitsName(P.MergedRule(R.Resolve(c, ns, spec).policies, aspect), name)
        ensures P.PermitsName(P.RuleOf(PolicyNamed(c, ns, q), aspect), name)
      {
        DefaultBinds(c, ns, spec, q, aspect, name);
      }
    }
  }

  lemma DefaultBinds(c: Store, ns: string, spec: AgentSpec, q: string, aspect: P.Aspect, name: string)
    requires spec.policyRefs == [] && ClassPolicy(c, ns, spec, q)
    requires P.PermitsName(P.MergedRule(R.Resolve(c, ns, spec).policies, aspect), name)
    ensures P.PermitsName(P.RuleOf(PolicyNamed(c, ns, q), aspect), name)
  {
    var refs := R.EffectiveSpec(c, ns, spec).policyRefs;
    R.CollectedLists(c, ns, spec);
    R.PolicyAtMember(c, ns, refs, PolicyNamed(c, ns, q));
    P.FoldDenotes(R.PoliciesAt(c, ns, refs), aspect, name);
  }

  const DenyAll := PolicySpec(Some(AccessRule([], ["*"])), Some(AccessRule([], ["*"])), Some(AccessRule([], ["*"])))

  /** A class with one default Policy, which denies everything. */
  function StrictCluster(ns: string, class_: string, q: string): Store {
    map[Key(AgentClassKind, ns, class_) := Object("1", AgentClassBody(AgentClassSpec(None, None, [q], [], [], []))),
        Key(PolicyKind, ns, q) := Object("1", PolicyBody(DenyAll))]
  }

  lemma StrictFacts(c: Store, ns: string, spec: AgentSpec, q: string)
    requires spec.agentClassRef.Some? && c == StrictCluster(ns, spec.agentClassRef.value, q)
    ensures ClassPolicy(c, ns, spec, q) && PolicyNamed(c, ns, q).spec == DenyAll
    ensures forall p :: p != q ==> !Exists(c, PolicyKind, ns, p)
  {
  }

  lemma DenyAllDenies(p: Policy, name: string)
    requires p.spec == DenyAll
    ensures !P.PermitsName(P.RuleOf(p, P.Models), name)
  {
  }

  lemma EscapesClass(spec: AgentSpec)
    requires spec.agentClassRef.Some? && spec.policyRefs != []
    ensures !ClassBinds(spec)
  {
    var q := R.FreshName(spec.policyRefs);
    var ns: string :| true;
    var c := StrictCluster(ns, spec.agentClassRef.value, q);
    StrictFacts(c, ns, spec, q);
    NoneCollected(c, ns, spec, q);
    DenyAllDenies(PolicyNamed(c, ns, q), q);
    assert P.PermitsName(P.MergedRule(R.Resolve(c, ns, spec).policies, P.Models), q);
  }

  lemma NoneCollected(c: Store, ns: string, spec: AgentSpec, q: string)
    requires spec.policyRefs != [] && q !in spec.policyRefs && forall p :: p != q ==> !Exists(c, PolicyKind, ns, p)
    ensures R.Resolve(c, ns, spec).policies == []
  {
    R.CollectedLists(c, ns, spec);
    NoneAt(c, ns, spec.policyRefs, q);
  }

  lemma NoneAt(c: Store, ns: string, refs: seq<string>, q: string)
    requires q !in refs && forall p :: p != q ==> !Exists(c, PolicyKind, ns, p)
    ensures R.PoliciesAt(c, ns, refs) == []
  {
    var all := R.All(PolicyKind, refs);
    forall t | t in all ensures R.PolicyOf(c, ns)(t) == [] {
      assert !Exists(c, PolicyKind, ns, t.name);
    }
    FlatMapNone(all, R.PolicyOf(c, ns));
  }
}
