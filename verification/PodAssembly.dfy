/** The volumes, mounts and environment of a runtime pod. */
module PodAssembly {
  import opened Lists
  import opened Api
  import V = Validation
  import R = Resolution
  import opened Paths

  datatype Source =
    | Claim(claimName: string, readOnly: bool)
    | ConfigMapFiles(name: string, optional: Option<bool>)
    | SecretFiles(name: string, optional: Option<bool>)
    | Scratch(medium: string, sizeLimit: string)

  datatype Volume = Volume(name: string, source: Source)

  datatype Mount = Mount(name: string, path: string, readOnly: bool)

  // --- the Agent's own volumes ---

  /** The first source that is set; None when the API grew one that is not known here. */
  function SourceOf(v: AgentVolume): Option<Source> {
    if v.claim.Some? then Some(Claim(v.claim.value, v.readOnly))
    else if v.configMap.Some? then Some(ConfigMapFiles(v.configMap.value.name, v.configMap.value.optional))
    else if v.secret.Some? then Some(SecretFiles(v.secret.value.name, v.secret.value.optional))
    else if v.emptyDir.Some? then Some(Scratch(v.emptyDir.value.medium, v.emptyDir.value.sizeLimit))
    else None
  }

  function Known(declared: seq<AgentVolume>): (r: seq<AgentVolume>)
    ensures forall v :: v in r <==> v in declared && SourceOf(v).Some?
  {
    if declared == [] then []
    else
      var n := |declared| - 1;
      var rest := Known(declared[..n]);
      assert declared == declared[..n] + [declared[n]];
      if SourceOf(declared[n]).Some? then rest + [declared[n]] else rest
  }

  function UserVolume(v: AgentVolume): Volume {
    Volume(v.name, if SourceOf(v).Some? then SourceOf(v).value else Scratch("", ""))
  }

  function UserMount(v: AgentVolume): Mount {
    Mount(v.name, v.mountPath, v.readOnly)
  }

  function Each<S, T>(s: seq<S>, f: S -> T): (r: seq<T>)
    ensures |r| == |s| && forall i :: 0 <= i < |s| ==> r[i] == f(s[i])
  {
    seq(|s|, i requires 0 <= i < |s| => f(s[i]))
  }

  /** A volume of unknown source contributes to neither list, so the two stay matched entry by entry. */
  method UserVolumes(declared: seq<AgentVolume>) returns (volumes: seq<Volume>, mounts: seq<Mount>)
    ensures volumes == Each(Known(declared), UserVolume)
    ensures mounts == Each(Known(declared), UserMount)
  {
    volumes, mounts := [], [];
    for i := 0 to |declared|
      invariant volumes == Each(Known(declared[..i]), UserVolume)
      invariant mounts == Each(Known(declared[..i]), UserMount)
    {
      assert declared[..i + 1][..i] == declared[..i];
      var v := declared[i];
      var source := SourceOf(v);
      if source.None? {
        continue;
      }
      volumes := volumes + [Volume(v.name, source.value)];
      mounts := mounts + [Mount(v.name, v.mountPath, v.readOnly)];
    }
    assert declared[..|declared|] == declared;
  }

  // --- the Agent's credentials ---

  function Backed(creds: seq<R.MountedCredential>): (r: seq<R.MountedCredential>)
    ensures forall c :: c in r <==> c in creds && c.secret != ""
  {
    if creds == [] then []
    else
      var n := |creds| - 1;
      var rest := Backed(creds[..n]);
      assert creds == creds[..n] + [creds[n]];
      if creds[n].secret != "" then rest + [creds[n]] else rest
  }

  function CredentialVolume(c: R.MountedCredential): Volume {
    Volume(V.CredentialPrefix + c.name, SecretFiles(c.secret, None))
  }

  function CredentialMount(c: R.MountedCredential): Mount {
    Mount(V.CredentialPrefix + c.name, V.CredentialsDir + "/" + c.name, true)
  }

  method CredentialVolumes(creds: seq<R.MountedCredential>) returns (volumes: seq<Volume>, mounts: seq<Mount>)
    ensures volumes == Each(Backed(creds), CredentialVolume)
    ensures mounts == Each(Backed(creds), CredentialMount)
  {
    volumes, mounts := [], [];
    for i := 0 to |creds|
      invariant volumes == Each(Backed(creds[..i]), CredentialVolume)
      invariant mounts == Each(Backed(creds[..i]), CredentialMount)
    {
      assert creds[..i + 1][..i] == creds[..i];
      var c := creds[i];
      if c.secret == "" {
        continue;
      }
      var name := V.CredentialPrefix + c.name;
      volumes := volumes + [Volume(name, SecretFiles(c.secret, None))];
      mounts := mounts + [Mount(name, V.CredentialsDir + "/" + c.name, true)];
    }
    assert creds[..|creds|] == creds;
  }

  // --- the workspace ---

  function WorkspaceVolumes(agent: string, gitSecret: string, modelSecret: string): seq<Volume> {
    [Volume("workspace", Claim(agent + "-workspace", false)), Volume("tmp", Scratch("", ""))]
    + (if gitSecret != "" then [Volume("git-credential", SecretFiles(gitSecret, None))] else [])
    + (if modelSecret != "" then [Volume("model-credential", SecretFiles(modelSecret, None))] else [])
  }

  /** The fixed paths the Operator mounts beside the working tree. */
  function FixedMounts(gitSecret: string, modelSecret: string): seq<Mount> {
    [Mount("tmp", V.TmpMountPath, false)]
    + (if gitSecret != "" then [Mount("git-credential", V.GitMountPath, true)] else [])
    + (if modelSecret != "" then [Mount("model-credential", V.ModelMountPath, true)] else [])
  }

  function WorkspaceMounts(ws: WorkspaceSpec, gitSecret: string, modelSecret: string): seq<Mount> {
    [Mount("workspace", V.WorkspacePath(ws), false)] + FixedMounts(gitSecret, modelSecret)
  }

  function CloneMounts(ws: WorkspaceSpec, hasCredential: bool): seq<Mount> {
    [Mount("workspace", V.WorkspacePath(ws), false)]
    + (if hasCredential then [Mount("git-credential", V.GitMountPath, true)] else [])
  }

  // --- well-formedness of volumes and mounts ---

  function Names(volumes: seq<Volume>): seq<string> {
    Each(volumes, (v: Volume) => v.name)
  }

  ghost predicate Backs(volumes: seq<Volume>, mounts: seq<Mount>) {
    forall m :: m in mounts ==> exists v :: v in volumes && v.name == m.name
  }

  ghost predicate DistinctNames(declared: seq<AgentVolume>) {
    forall i, j :: 0 <= i < j < |declared| ==> declared[i].name != declared[j].name
  }

  lemma {:induction false} KnownNamesDistinct(declared: seq<AgentVolume>)
    requires DistinctNames(declared)
    ensures DistinctNames(Known(declared))
  {
    if declared != [] {
      var n := |declared| - 1;
      KnownNamesDistinct(declared[..n]);
      var k := Known(declared[..n]);
      forall i | 0 <= i < |k| ensures k[i].name != declared[n].name {
        assert k[i] in declared[..n];
      }
      assert Known(declared) == k || Known(declared) == k + [declared[n]];
    }
  }

  ghost predicate DistinctPaths(declared: seq<AgentVolume>) {
    forall i, j :: 0 <= i < j < |declared| ==> V.Clean(declared[i].mountPath) != V.Clean(declared[j].mountPath)
  }

  lemma {:induction false} KnownPathsDistinct(declared: seq<AgentVolume>)
    requires DistinctPaths(declared)
    ensures DistinctPaths(Known(declared))
  {
    if declared != [] {
      var n := |declared| - 1;
      KnownPathsDistinct(declared[..n]);
      var k := Known(declared[..n]);
      forall i | 0 <= i < |k| ensures V.Clean(k[i].mountPath) != V.Clean(declared[n].mountPath) {
        assert k[i] in declared[..n];
      }
      assert Known(declared) == k || Known(declared) == k + [declared[n]];
    }
  }

  ghost predicate DistinctCredentials(creds: seq<R.MountedCredential>) {
    forall i, j :: 0 <= i < j < |creds| ==> creds[i].name != creds[j].name
  }

  lemma {:induction false} BackedDistinct(creds: seq<R.MountedCredential>)
    requires DistinctCredentials(creds)
    ensures DistinctCredentials(Backed(creds))
  {
    if creds != [] {
      var n := |creds| - 1;
      BackedDistinct(creds[..n]);
      var b := Backed(creds[..n]);
      forall i | 0 <= i < |b| ensures b[i].name != creds[n].name {
        assert b[i] in creds[..n];
      }
      assert Backed(creds) == b || Backed(creds) == b + [creds[n]];
    }
  }

  ghost predicate ProperCredentials(creds: seq<R.MountedCredential>) {
    && DistinctCredentials(creds)
    && (forall i :: 0 <= i < |creds| ==> ProperPart(creds[i].name))
  }

  // --- names ---

  lemma UserNames(spec: AgentSpec, declared: seq<AgentVolume>)
    requires V.ValidVolumes(spec, declared) && DistinctNames(declared)
    ensures Distinct(Names(Each(Known(declared), UserVolume)))
    ensures forall n :: n in Names(Each(Known(declared), UserVolume)) ==>
              n !in V.ReservedVolumeNames && !V.HasPrefix(n, V.CredentialPrefix)
  {
    KnownNamesDistinct(declared);
    var k := Known(declared);
    forall i | 0 <= i < |k| ensures k[i].name !in V.ReservedVolumeNames && !V.HasPrefix(k[i].name, V.CredentialPrefix) {
      assert k[i] in k;
      var j :| 0 <= j < |declared| && declared[j] == k[i];
      assert V.ValidVolume(spec, declared[j]);
    }
    var names := Names(Each(k, UserVolume));
    assert forall i :: 0 <= i < |names| ==> names[i] == k[i].name;
  }

  lemma PrefixInjective(p: string, a: string, b: string)
    ensures p + a == p + b <==> a == b
  {
    assert (p + a)[|p|..] == a && (p + b)[|p|..] == b;
  }

  lemma CredentialNames(creds: seq<R.MountedCredential>)
    requires ProperCredentials(creds)
    ensures Distinct(Names(Each(Backed(creds), CredentialVolume)))
    ensures forall n :: n in Names(Each(Backed(creds), CredentialVolume)) ==> V.HasPrefix(n, V.CredentialPrefix)
  {
    BackedDistinct(creds);
    var b, p := Backed(creds), V.CredentialPrefix;
    var names := Names(Each(b, CredentialVolume));
    assert forall i :: 0 <= i < |names| ==> names[i] == p + b[i].name;
    forall i, j | 0 <= i < j < |names| ensures names[i] != names[j] {
      PrefixInjective(p, b[i].name, b[j].name);
    }
  }

  lemma WorkspaceNames(agent: string, gitSecret: string, modelSecret: string)
    ensures Distinct(Names(WorkspaceVolumes(agent, gitSecret, modelSecret)))
    ensures forall n :: n in Names(WorkspaceVolumes(agent, gitSecret, modelSecret)) ==> n in V.ReservedVolumeNames
    ensures Backs(WorkspaceVolumes(agent, gitSecret, modelSecret), FixedMounts(gitSecret, modelSecret))
  {
  }
}
