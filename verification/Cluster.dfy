/** The cluster as the controllers see it: objects with a resourceVersion, found by kind, namespace and name. */
module Cluster {
  import opened Lists
  import opened Api
  import opened Paths

  datatype Kind =
    | AgentKind | AgentClassKind | ModelKind | PromptTemplateKind | ToolKind | ToolSetKind
    | SkillKind | PolicyKind | ToolPolicyKind | CredentialKind | McpServerKind | ConfigMapKind

  datatype Key = Key(kind: Kind, ns: string, name: string)

  datatype ResolvedRef = ResolvedRef(kind: Kind, name: string, resourceVersion: string)

  datatype Phase = Pending | Ready | Degraded

  /** The config hash, taken as injective: the hashed list itself stands for its digest. */
  datatype ConfigHash = NoHash | HashOf(refs: seq<ResolvedRef>)

  /** What the Operator writes back onto an Agent, as far as others read it. */
  datatype Status = Status(phase: Phase, configHash: ConfigHash, resolvedRefs: nat, peerEndpoint: string)

  datatype Body =
    | AgentBody(agent: AgentSpec, status: Status)
    | AgentClassBody(class_: AgentClassSpec)
    | ModelBody(modelName: string, credentialRef: Option<string>, provider: string, endpoint: string)
    | PromptTemplateBody(system: string)
    | ToolBody(tool: ToolSpec)
    | ToolSetBody(members: seq<string>)
    | SkillBody(allowedTools: seq<string>, description: string, content: string, contentRef: Option<ConfigMapKey>)
    | PolicyBody(policy: PolicySpec)
    | ToolPolicyBody(toolPolicy: ToolPolicySpec)
    | CredentialBody(secretName: string, secretKey: string)
    | McpServerBody(endpoint: string)
    | ConfigMapBody(data: map<string, string>)

  datatype Object = Object(resourceVersion: string, body: Body)

  type Store = map<Key, Object>

  function KindOf(b: Body): Kind {
    match b
    case AgentBody(_, _) => AgentKind
    case AgentClassBody(_) => AgentClassKind
    case ModelBody(_, _, _, _) => ModelKind
    case PromptTemplateBody(_) => PromptTemplateKind
    case ToolBody(_) => ToolKind
    case ToolSetBody(_) => ToolSetKind
    case SkillBody(_, _, _, _) => SkillKind
    case PolicyBody(_) => PolicyKind
    case ToolPolicyBody(_) => ToolPolicyKind
    case CredentialBody(_, _) => CredentialKind
    case McpServerBody(_) => McpServerKind
    case ConfigMapBody(_) => ConfigMapKind
  }

  /** A read by key; None is NotFound. */
  function Get(c: Store, k: Key): Option<Object> {
    if k in c && KindOf(c[k].body) == k.kind then Some(c[k]) else None
  }

  predicate Exists(c: Store, kind: Kind, ns: string, name: string) {
    Get(c, Key(kind, ns, name)).Some?
  }

  function GetAgent(c: Store, k: Key): Option<AgentSpec>
  {
    var o := Get(c, k);
    if o.Some? && o.value.body.AgentBody? then Some(o.value.body.agent) else None
  }

  /** The status of an Agent that exists. */
  function GetStatus(c: Store, k: Key): Status
    requires GetAgent(c, k).Some?
  {
    c[k].body.status
  }

  function GetClass(c: Store, ns: string, name: string): Option<AgentClassSpec> {
    var o := Get(c, Key(AgentClassKind, ns, name));
    if o.Some? then Some(o.value.body.class_) else None
  }

  function GetTool(c: Store, ns: string, name: string): Option<ToolSpec> {
    var o := Get(c, Key(ToolKind, ns, name));
    if o.Some? then Some(o.value.body.tool) else None
  }

  function GetPrompt(c: Store, ns: string, name: string): Option<string> {
    var o := Get(c, Key(PromptTemplateKind, ns, name));
    if o.Some? then Some(o.value.body.system) else None
  }

  function GetMembers(c: Store, ns: string, name: string): Option<seq<string>> {
    var o := Get(c, Key(ToolSetKind, ns, name));
    if o.Some? then Some(o.value.body.members) else None
  }

  /** The API server admits only names that can be one part of a path. */
  ghost predicate ProperNames(c: Store) {
    forall k :: k in c ==> ProperPart(k.name)
  }

  /** c and d differ at most at key k: one create, update or delete leads from one to the other. */
  ghost predicate AgreeOff(c: Store, d: Store, k: Key) {
    forall x :: x != k ==> (x in c <==> x in d) && (x in c ==> c[x] == d[x])
  }
}
