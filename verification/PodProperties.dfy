/** Every pod assembled from an accepted spec is well formed. */
module PodProperties {
  import opened Lists
  import opened Api
  import opened Cluster
  import V = Validation
  import R = Resolution
  import opened PodAssembly
  import opened Materialize

  // --- what resolution hands over ---

  /** Accepted specs resolve to Credentials with distinct, slash-free names. */
  lemma ResolvedCredentialsAreProper(c: Store, ns: string, spec: AgentSpec)
    requires ProperNames(c) && V.NoDuplicate(spec.credentialRefs) && "" !in spec.credentialRefs
    ensures ProperCredentials(R.Resolve(c, ns, spec).credentials)
  {
    R.CollectedLists(c, ns, spec);
    V.NoDuplicateMeansDistinct(spec.credentialRefs);
    CredentialsAtProper(c, ns, spec.credentialRefs);
  }

  lemma {:induction false} CredentialsAtProper(c: Store, ns: string, names: seq<string>)
    requires ProperNames(c) && Distinct(names)
    ensures ProperCredentials(R.CredentialsAt(c, ns, names))
    ensures forall m :: m in R.CredentialsAt(c, ns, names) ==> m.name in names
  {
    if names != [] {
      var n := |names| - 1;
      CredentialsAtProper(c, ns, names[..n]);
      var rest, last := R.CredentialsAt(c, ns, names[..n]), R.CredentialOf(c, ns)(R.Target(CredentialKind, names[n], false));
      assert R.All(CredentialKind, names)[..n] == R.All(CredentialKind, names[..n]);
      assert R.CredentialsAt(c, ns, names) == rest + last;
      forall i | 0 <= i < |rest| ensures rest[i].name != names[n] {
        assert rest[i] in rest;
      }
      assert names == names[..n] + [names[n]];
    }
  }

  /** The Secret behind the Agent's git credential, or "" while it is not there. */
  function GitSecretAt(c: Store, ns: string, spec: AgentSpec): string {
    if !WantsGitSecret(spec) then ""
    else
      var o := Get(c, Key(CredentialKind, ns, spec.workspace.value.credentialRef.value));
      if o.None? then "" else o.value.body.secretName
  }

  lemma GitTargetAlone(spec: AgentSpec, eff: AgentSpec, f: R.Target -> seq<string>)
    requires forall t: R.Target :: !t.git ==> f(t) == []
    ensures FlatMap(R.Targets(spec, eff), f) == FlatMap(R.GitTarget(spec), f)
  {
    var plain := R.Leading(spec, eff) + R.All(SkillKind, eff.skillRefs) + R.All(PolicyKind, eff.policyRefs)
      + R.All(ToolPolicyKind, eff.toolPolicyRefs) + R.All(CredentialKind, spec.credentialRefs);
    assert forall t :: t in plain ==> !t.git;
    FlatMapConcat(plain, R.GitTarget(spec), f);
    FlatMapNone(plain, f);
  }

  lemma GitTargetGives(spec: AgentSpec, f: R.Target -> seq<string>)
    ensures FlatMap(R.GitTarget(spec), f) ==
      if WantsGitSecret(spec) then f(R.Target(CredentialKind, spec.workspace.value.credentialRef.value, true)) else []
  {
  }

  /** Listing the same Credential among the Agent's own never changes which Secret git gets. */
  lemma GitSecretExactly(c: Store, ns: string, spec: AgentSpec)
    ensures R.Resolve(c, ns, spec).gitSecret == GitSecretAt(c, ns, spec)
  {
    var eff := R.EffectiveSpec(c, ns, spec);
    LastGitSecret(c, ns, spec, eff);
  }

  lemma LastGitSecret(c: Store, ns: string, spec: AgentSpec, eff: AgentSpec)
    ensures R.LastOr(FlatMap(R.Targets(spec, eff), R.GitSecretOf(c, ns)), "") == GitSecretAt(c, ns, spec)
  {
    var f := R.GitSecretOf(c, ns);
    GitTargetAlone(spec, eff, f);
    GitTargetGives(spec, f);
    if WantsGitSecret(spec) {
      GivenSecret(c, ns, R.Target(CredentialKind, spec.workspace.value.credentialRef.value, true));
    }
  }

  lemma GivenSecret(c: Store, ns: string, t: R.Target)
    requires t.git && t.kind == CredentialKind
    ensures var o := Get(c, Key(CredentialKind, ns, t.name));
      R.LastOr(R.GitSecretOf(c, ns)(t), "") == if o.None? then "" else o.value.body.secretName
  {
  }

  /** The runtime is held back exactly while the git credential it needs has no Secret. */
  lemma HeldBackExactly(c: Store, a: Key, spec: AgentSpec, registryURL: string)
    ensures RuntimeInputs(c, a, spec, registryURL, R.Resolve(c, a.ns, spec)).None? <==>
            WantsGitSecret(spec) && GitSecretAt(c, a.ns, spec) == ""
  {
    GitSecretExactly(c, a.ns, spec);
  }

  // --- volumes and mounts agree ---

  function MountNames(mounts: seq<Mount>): seq<string> {
    Each(mounts, (m: Mount) => m.name)
  }

  /** Entry by entry: no mount without a volume behind it and no volume left unmounted. */
  lemma MountsFollowVolumes(x: Inputs)
    requires x.spec.runtime.Some?
    ensures MountNames(Mounts(x)) == Names(Volumes(x))
  {
    var user, own := Known(x.spec.runtime.value.volumes), Backed(x.credentials);
    var v, m := Volumes(x), Mounts(x);
    var wsV := if x.spec.workspace.Some? then WorkspaceVolumes(x.name, x.gitSecret, x.modelSecret) else [];
    var wsM := if x.spec.workspace.Some? then WorkspaceMounts(x.spec.workspace.value, x.gitSecret, x.modelSecret) else [];
    if x.spec.workspace.Some? {
      WorkspaceFollows(x);
    }
    assert v == wsV + Each(user, UserVolume) + Each(own, CredentialVolume);
    assert m == wsM + Each(user, UserMount) + Each(own, CredentialMount);
    Follows(wsV, wsM, Each(user, UserVolume), Each(user, UserMount));
    Follows(wsV + Each(user, UserVolume), wsM + Each(user, UserMount), Each(own, CredentialVolume), Each(own, CredentialMount));
  }

  lemma WorkspaceFollows(x: Inputs)
    requires x.spec.workspace.Some?
    ensures MountNames(WorkspaceMounts(x.spec.workspace.value, x.gitSecret, x.modelSecret))
         == Names(WorkspaceVolumes(x.name, x.gitSecret, x.modelSecret))
  {
  }

  lemma Follows(v: seq<Volume>, m: seq<Mount>, w: seq<Volume>, n: seq<Mount>)
    requires MountNames(m) == Names(v) && MountNames(n) == Names(w)
    ensures MountNames(m + n) == Names(v + w)
  {
  }

  lemma VolumeNamesDistinct(x: Inputs)
    requires x.spec.runtime.Some? && V.ValidVolumes(x.spec, x.spec.runtime.value.volumes)
    requires DistinctNames(x.spec.runtime.value.volumes) && ProperCredentials(x.credentials)
    ensures Distinct(Names(Volumes(x)))
  {
    var fixed := if x.spec.workspace.Some? then WorkspaceVolumes(x.name, x.gitSecret, x.modelSecret) else [];
    var user := Each(Known(x.spec.runtime.value.volumes), UserVolume);
    var own := Each(Backed(x.credentials), CredentialVolume);
    WorkspaceNames(x.name, x.gitSecret, x.modelSecret);
    UserNames(x.spec, x.spec.runtime.value.volumes);
    CredentialNames(x.credentials);
    ThreeParts(fixed, user, own);
  }

  lemma ReservedAreNotCredentials()
    ensures forall n :: n in V.ReservedVolumeNames ==> !V.HasPrefix(n, V.CredentialPrefix)
  {
    assert V.CredentialPrefix[0] == 'c';
    assert forall n :: n in V.ReservedVolumeNames ==> n[0] != 'c';
  }

  lemma ThreeParts(fixed: seq<Volume>, user: seq<Volume>, own: seq<Volume>)
    requires Distinct(Names(fixed)) && Distinct(Names(user)) && Distinct(Names(own))
    requires forall n :: n in Names(fixed) ==> n in V.ReservedVolumeNames
    requires forall n :: n in Names(user) ==> n !in V.ReservedVolumeNames && !V.HasPrefix(n, V.CredentialPrefix)
    requires forall n :: n in Names(own) ==> V.HasPrefix(n, V.CredentialPrefix)
    ensures Distinct(Names(fixed + user + own))
  {
    ReservedAreNotCredentials();
    DistinctConcat(Names(fixed), Names(user));
    DistinctConcat(Names(fixed) + Names(user), Names(own));
    assert Names(fixed + user + own) == Names(fixed) + Names(user) + Names(own);
  }

  // --- the theorem ---

  lemma CloneIsBacked(x: Inputs)
    requires x.spec.runtime.Some? && x.spec.workspace.Some?
    ensures Backs(Volumes(x), CloneMounts(x.spec.workspace.value, x.gitSecret != ""))
  {
  }

  ghost predicate WellFormed(m: Managed) {
    && Distinct(Names(m.volumes))
    && (forall c :: c in m.containers || c in m.initContainers ==> Backs(m.volumes, c.mounts))
    && (forall v :: v in m.volumes ==> exists c, t :: c in m.containers && t in c.mounts && t.name == v.name)
  }

  lemma OneContainerWellFormed(m: Managed, main: Container)
    requires m.containers == [main] && |m.initContainers| <= 1
    requires Distinct(Names(m.volumes)) && MountNames(main.mounts) == Names(m.volumes)
    requires m.initContainers != [] ==> Backs(m.volumes, m.initContainers[0].mounts)
    ensures WellFormed(m)
  {
  }

  lemma PodVolumesAgree(x: Inputs)
    requires V.ValidSpec(x.spec) && x.spec.runtime.Some? && DistinctNames(x.spec.runtime.value.volumes)
    requires ProperCredentials(x.credentials)
    ensures WellFormed(Materialized(x))
  {
    VolumeNamesDistinct(x);
    MountsFollowVolumes(x);
    if x.spec.workspace.Some? {
      CloneIsBacked(x);
    }
    OneContainerWellFormed(Materialized(x), RuntimeContainer(x));
  }

  /** Whatever the cluster holds, in the pod an accepted Agent is given volumes and mounts agree. */
  lemma BuiltPodIsWellFormed(c: Store, a: Key, spec: AgentSpec, registryURL: string, x: Inputs)
    requires ProperNames(c) && V.ValidSpec(spec) && "" !in spec.credentialRefs
    requires spec.runtime.Some? && DistinctNames(spec.runtime.value.volumes)
    requires RuntimeInputs(c, a, spec, registryURL, R.Resolve(c, a.ns, spec)) == Some(x)
    ensures WellFormed(Materialized(x))
  {
    ResolvedCredentialsAreProper(c, a.ns, spec);
    PodVolumesAgree(x);
  }
}
