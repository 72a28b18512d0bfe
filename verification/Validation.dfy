/** Structural validation of an Agent spec: what is wrong whatever else exists in the cluster. */
module Validation {
  import opened Lists
  import opened Api

  // --- duplicates ---

  /** The first name from position n on that already occurred before, or "" when there is none. */
  function FirstRepeat(names: seq<string>, n: nat): string
    requires n <= |names|
    decreases |names| - n
  {
    if n == |names| then "" else if names[n] in names[..n] then names[n] else FirstRepeat(names, n + 1)
  }

  method FirstDuplicate(names: seq<string>) returns (dup: string)
    ensures dup == FirstRepeat(names, 0)
  {
    var seen: set<string> := {};
    for i := 0 to |names|
      invariant forall x :: x in seen <==> x in names[..i]
      invariant FirstRepeat(names, 0) == FirstRepeat(names, i)
    {
      if names[i] in seen {
        return names[i];
      }
      assert names[..i + 1] == names[..i] + [names[i]];
      seen := seen + {names[i]};
    }
    return "";
  }

  predicate NoDuplicate(names: seq<string>) {
    FirstRepeat(names, 0) == ""
  }

  /** The first repetition in the list is one of the empty name. */
  ghost predicate EmptyRepeatsAt(names: seq<string>, m: nat) {
    m < |names| && names[m] == "" && "" in names[..m] && Distinct(names[..m])
  }

  /** The check passes distinct lists, and besides them exactly those whose first repetition is the empty name. */
  lemma NoDuplicateExactly(names: seq<string>)
    ensures NoDuplicate(names) <==> Distinct(names) || exists m :: EmptyRepeatsAt(names, m)
  {
    RepeatFrom(names, 0);
    assert (exists m :: EmptyRepeatsAt(names, m)) <==> exists m: nat :: m >= 0 && EmptyRepeatsAt(names, m);
  }

  /** For non-empty names, which the CRD guarantees, the check is exact. */
  lemma NoDuplicateMeansDistinct(names: seq<string>)
    requires "" !in names
    ensures NoDuplicate(names) <==> Distinct(names)
  {
    NoDuplicateExactly(names);
    assert forall m: nat :: m < |names| ==> names[m] in names;
  }

  lemma {:induction false} RepeatFrom(names: seq<string>, n: nat)
    requires n <= |names| && Distinct(names[..n])
    ensures FirstRepeat(names, n) == "" <==> Distinct(names) || exists m: nat :: m >= n && EmptyRepeatsAt(names, m)
    decreases |names| - n
  {
    if n == |names| {
      assert names[..n] == names;
    } else if names[n] in names[..n] {
      var i :| 0 <= i < n && names[i] == names[n];
      assert names[n] == "" ==> EmptyRepeatsAt(names, n);
      forall m: nat | n < m <= |names| ensures !Distinct(names[..m]) {
        assert names[..m][i] == names[..m][n];
      }
    } else {
      assert names[..n + 1] == names[..n] + [names[n]];
      RepeatFrom(names, n + 1);
      assert !EmptyRepeatsAt(names, n);
    }
  }

  /** A repeated empty name is reported as "no duplicate", and hides every later repetition. */
  lemma EmptyNameHidesDuplicates()
    ensures NoDuplicate(["", "", "a", "a"]) && !Distinct(["", "", "a", "a"])
  {
    var names := ["", "", "a", "a"];
    assert names[..0] == [] && names[..1] == [""];
    assert FirstRepeat(names, 0) == FirstRepeat(names, 1) == "";
  }

  // --- paths ---

  const CredentialsDir := "/var/run/agentplane/credentials"
  const GitMountPath := "/var/run/agentplane/git"
  const ModelMountPath := "/var/run/agentplane/model"
  const TmpMountPath := "/tmp"
  const DefaultWorkspacePath := "/workspace"
  const CredentialsPathEnv := "AGENTPLANE_CREDENTIALS_PATH"
  const CredentialPrefix := "credential-"

  const ReservedVolumeNames := ["workspace", "tmp", "git-credential", "model-credential"]
  const ReservedMountPaths := [TmpMountPath, GitMountPath, ModelMountPath, CredentialsDir]

  predicate HasPrefix(s: string, p: string) {
    p <= s
  }

  function TrimRight(path: string): (r: string)
    ensures r <= path && (r != "" ==> r[|r| - 1] != '/')
    ensures forall i :: |r| <= i < |path| ==> path[i] == '/'
  {
    if path != "" && path[|path| - 1] == '/' then TrimRight(path[..|path| - 1]) else path
  }

  /** A path without trailing slashes; the root stays the root. */
  function Clean(path: string): (r: string)
    ensures r == "/" || r == "" || r[|r| - 1] != '/'
  {
    if TrimRight(path) == "" then "/" else TrimRight(path)
  }

  function WorkspacePath(ws: WorkspaceSpec): string {
    if ws.mountPath == "" then DefaultWorkspacePath else ws.mountPath
  }

  // --- the accepted specs ---

  predicate ValidWorkspace(spec: AgentSpec) {
    spec.workspace.None? ||
    var ws := spec.workspace.value;
    && spec.runtime.Some?
    && (ws.repository == "" ==> ws.branch == "" && ws.credentialRef.None?)
    && (ws.mountPath != "" ==> HasPrefix(ws.mountPath, "/"))
    && (ws.size.text != "" ==> ws.size.parses)
  }

  function ReservedPaths(spec: AgentSpec): set<string> {
    (set p | p in ReservedMountPaths) + (if spec.workspace.Some? then {WorkspacePath(spec.workspace.value)} else {})
  }

  predicate ValidVolume(spec: AgentSpec, v: AgentVolume) {
    && v.name !in ReservedVolumeNames
    && !HasPrefix(v.name, CredentialPrefix)
    && HasPrefix(v.mountPath, "/")
    && Clean(v.mountPath) !in ReservedPaths(spec)
    && !HasPrefix(Clean(v.mountPath), CredentialsDir + "/")
  }

  /** Each volume is acceptable on its own and no two share a cleaned path. */
  predicate ValidVolumes(spec: AgentSpec, volumes: seq<AgentVolume>) {
    && (forall i :: 0 <= i < |volumes| ==> ValidVolume(spec, volumes[i]))
    && (forall i, j :: 0 <= i < j < |volumes| ==> Clean(volumes[i].mountPath) != Clean(volumes[j].mountPath))
  }

  predicate ValidEnv(env: seq<EnvVar>) {
    forall i :: 0 <= i < |env| ==> env[i].name != CredentialsPathEnv
  }

  predicate ValidSpec(spec: AgentSpec) {
    && NoDuplicate(spec.toolRefs) && NoDuplicate(spec.toolSetRefs) && NoDuplicate(spec.skillRefs)
    && NoDuplicate(spec.policyRefs) && NoDuplicate(spec.toolPolicyRefs) && NoDuplicate(spec.credentialRefs)
    && ValidWorkspace(spec)
    && (spec.runtime.Some? ==> ValidVolumes(spec, spec.runtime.value.volumes) && ValidEnv(spec.runtime.value.env))
    && (spec.expose.Some? ==> spec.runtime.Some?)
  }

  ghost predicate Named(names: seq<string>) {
    "" !in names
  }

  /** What an accepted spec is, for the non-empty reference names the CRD guarantees: nothing referenced twice, a workspace
      and an endpoint only with a runtime, and a runtime that takes none of the Operator's names, paths and variables. */
  lemma AcceptedExactly(spec: AgentSpec)
    requires Named(spec.toolRefs) && Named(spec.toolSetRefs) && Named(spec.skillRefs)
    requires Named(spec.policyRefs) && Named(spec.toolPolicyRefs) && Named(spec.credentialRefs)
    ensures ValidSpec(spec) <==>
            && Distinct(spec.toolRefs) && Distinct(spec.toolSetRefs) && Distinct(spec.skillRefs)
            && Distinct(spec.policyRefs) && Distinct(spec.toolPolicyRefs) && Distinct(spec.credentialRefs)
            && (spec.workspace.Some? || spec.expose.Some? ==> spec.runtime.Some?)
            && (spec.workspace.Some? ==> TakesSense(spec.workspace.value))
            && (spec.runtime.Some? ==> TakesNothing(spec, spec.runtime.value))
  {
    NoDuplicateMeansDistinct(spec.toolRefs);
    NoDuplicateMeansDistinct(spec.toolSetRefs);
    NoDuplicateMeansDistinct(spec.skillRefs);
    NoDuplicateMeansDistinct(spec.policyRefs);
    NoDuplicateMeansDistinct(spec.toolPolicyRefs);
    NoDuplicateMeansDistinct(spec.credentialRefs);
  }

  ghost predicate TakesSense(ws: WorkspaceSpec) {
    && (ws.branch != "" || ws.credentialRef.Some? ==> ws.repository != "")
    && (ws.mountPath == "" || ws.mountPath[0] == '/')
    && (ws.size.text == "" || ws.size.parses)
  }

  ghost predicate TakesNothing(spec: AgentSpec, rt: RuntimeSpec) {
    && (forall e :: e in rt.env ==> e.name != "AGENTPLANE_CREDENTIALS_PATH")
    && (forall v :: v in rt.volumes ==>
          && v.name != "workspace" && v.name != "tmp" && v.name != "git-credential" && v.name != "model-credential"
          && !("credential-" <= v.name)
          && v.mountPath != "" && v.mountPath[0] == '/'
          && var path := Clean(v.mountPath);
            && path != "/tmp" && path != "/var/run/agentplane/git" && path != "/var/run/agentplane/model"
            && path != CredentialsDir && !(CredentialsDir + "/" <= path)
            && (spec.workspace.Some? ==>
                  path != if spec.workspace.value.mountPath == "" then "/workspace" else spec.workspace.value.mountPath))
    && (forall i, j :: 0 <= i < j < |rt.volumes| ==> Clean(rt.volumes[i].mountPath) != Clean(rt.volumes[j].mountPath))
  }

  method ValidateVolumes(spec: AgentSpec) returns (ok: bool)
    ensures ok <==> spec.runtime.Some? ==> ValidVolumes(spec, spec.runtime.value.volumes)
  {
    if spec.runtime.None? || |spec.runtime.value.volumes| == 0 {
      return true;
    }
    var volumes := spec.runtime.value.volumes;
    var reserved := ReservedPaths(spec);
    var seen: set<string> := {};
    for i := 0 to |volumes|
      invariant ValidVolumes(spec, volumes[..i])
      invariant seen == Paths(volumes[..i])
    {
      VolumesSnoc(spec, volumes, i);
      var clean := Clean(volumes[i].mountPath);
      var fine := ValidateVolume(spec, volumes[i], clean, reserved);
      if !fine || clean in seen {
        VolumesPrefix(spec, volumes, i + 1);
        return false;
      }
      seen := seen + {clean};
    }
    assert volumes[..|volumes|] == volumes;
    return true;
  }

  ghost function Paths(volumes: seq<AgentVolume>): set<string> {
    set v | v in volumes :: Clean(v.mountPath)
  }

  lemma VolumesPrefix(spec: AgentSpec, volumes: seq<AgentVolume>, n: nat)
    requires n <= |volumes|
    ensures ValidVolumes(spec, volumes) ==> ValidVolumes(spec, volumes[..n])
  {
  }

  lemma VolumesSnoc(spec: AgentSpec, volumes: seq<AgentVolume>, i: nat)
    requires i < |volumes| && ValidVolumes(spec, volumes[..i])
    ensures ValidVolumes(spec, volumes[..i + 1])
       <==> ValidVolume(spec, volumes[i]) && Clean(volumes[i].mountPath) !in Paths(volumes[..i])
    ensures Paths(volumes[..i + 1]) == Paths(volumes[..i]) + {Clean(volumes[i].mountPath)}
  {
    var before, now := volumes[..i], volumes[..i + 1];
    assert now == before + [volumes[i]] && now[i] == volumes[i];
    assert forall j :: 0 <= j < i ==> now[j] == before[j] && before[j] in before;
  }

  method ValidateVolume(spec: AgentSpec, v: AgentVolume, clean: string, reserved: set<string>) returns (ok: bool)
    requires clean == Clean(v.mountPath) && reserved == ReservedPaths(spec)
    ensures ok <==> ValidVolume(spec, v)
  {
    if v.name in ReservedVolumeNames || HasPrefix(v.name, CredentialPrefix) {
      return false;
    }
    if !HasPrefix(v.mountPath, "/") {
      return false;
    }
    return clean !in reserved && !HasPrefix(clean, CredentialsDir + "/");
  }

  method ValidateRuntimeEnv(spec: AgentSpec) returns (ok: bool)
    ensures ok <==> spec.runtime.Some? ==> ValidEnv(spec.runtime.value.env)
  {
    if spec.runtime.None? {
      return true;
    }
    var env := spec.runtime.value.env;
    for i := 0 to |env|
      invariant ValidEnv(env[..i])
    {
      if env[i].name == CredentialsPathEnv {
        return false;
      }
    }
    return true;
  }

  method ValidateWorkspace(spec: AgentSpec) returns (ok: bool)
    ensures ok <==> ValidWorkspace(spec)
  {
    if spec.workspace.None? {
      return true;
    }
    var ws := spec.workspace.value;
    if spec.runtime.None? {
      return false;
    }
    if ws.repository == "" {
      if ws.branch != "" {
        return false;
      }
      if ws.credentialRef.Some? {
        return false;
      }
    }
    if ws.mountPath != "" && !HasPrefix(ws.mountPath, "/") {
      return false;
    }
    return ws.size.text == "" || ws.size.parses;
  }

  /** Accepts exactly the valid specs. */
  method Validate(spec: AgentSpec) returns (ok: bool)
    ensures ok <==> ValidSpec(spec)
  {
    var lists := [spec.toolRefs, spec.toolSetRefs, spec.skillRefs, spec.policyRefs, spec.toolPolicyRefs, spec.credentialRefs];
    for i := 0 to |lists|
      invariant forall j :: 0 <= j < i ==> NoDuplicate(lists[j])
    {
      var dup := FirstDuplicate(lists[i]);
      if dup != "" {
        return false;
      }
    }
    assert forall j :: 0 <= j < 6 ==> NoDuplicate(lists[j]);
    assert NoDuplicate(lists[0]) && NoDuplicate(lists[1]) && NoDuplicate(lists[2])
        && NoDuplicate(lists[3]) && NoDuplicate(lists[4]) && NoDuplicate(lists[5]);
    ok := ValidateWorkspace(spec);
    if !ok {
      return;
    }
    ok := ValidateVolumes(spec);
    if !ok {
      return;
    }
    ok := ValidateRuntimeEnv(spec);
    if !ok {
      return;
    }
    ok := spec.expose.None? || spec.runtime.Some?;
  }
}
