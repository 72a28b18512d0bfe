/** The custom resources of Agent Plane, reduced to the fields the Operator and the Registry act on. */
module Api {
  import opened Lists

  datatype AccessRule = AccessRule(allow: seq<string>, deny: seq<string>)

  datatype PolicySpec = PolicySpec(models: Option<AccessRule>, mcp: Option<AccessRule>, tools: Option<AccessRule>)

  datatype Policy = Policy(name: string, spec: PolicySpec)

  /** Unset is the empty string that the CRD reads as allow. */
  datatype ToolAction = Allow | Deny | Unset

  datatype ToolRule = ToolRule(tool: string, action: ToolAction, maxCallsPerSession: Option<int>)

  datatype ToolPolicySpec = ToolPolicySpec(rules: seq<ToolRule>, defaultAction: ToolAction)

  datatype ToolPolicy = ToolPolicy(name: string, spec: ToolPolicySpec)

  /** endpoint is the tool's own address, used where neither a server nor a peer resolves one. */
  datatype ToolSpec = ToolSpec(
    type_: string,
    description: string,
    endpoint: string,
    mcpToolName: string,
    inputSchema: Option<string>,
    mcpServerRef: Option<string>,
    agentRef: Option<string>)

  const McpType := "mcp"

  datatype ConfigMapKey = ConfigMapKey(name: string, key: string)

  datatype AgentClassSpec = AgentClassSpec(
    defaultModelRef: Option<string>,
    defaultPromptRef: Option<string>,
    defaultPolicyRefs: seq<string>,
    defaultToolPolicyRefs: seq<string>,
    defaultToolRefs: seq<string>,
    defaultSkillRefs: seq<string>)

  /** A quantity as written, with the verdict of the Kubernetes quantity parser on it. */
  datatype Quantity = Quantity(text: string, parses: bool)

  datatype WorkspaceSpec = WorkspaceSpec(
    repository: string,
    branch: string,
    credentialRef: Option<string>,
    mountPath: string,
    size: Quantity)

  datatype EnvVar = EnvVar(name: string, value: string)

  datatype ObjectSource = ObjectSource(name: string, optional: Option<bool>)

  datatype ScratchSource = ScratchSource(medium: string, sizeLimit: string)

  datatype AgentVolume = AgentVolume(
    name: string,
    mountPath: string,
    readOnly: bool,
    claim: Option<string>,
    configMap: Option<ObjectSource>,
    secret: Option<ObjectSource>,
    emptyDir: Option<ScratchSource>)

  /** resources and readinessProbe are carried through unread, as text. */
  datatype RuntimeSpec = RuntimeSpec(
    image: string,
    replicas: int,
    port: int,
    env: seq<EnvVar>,
    serviceAccountName: string,
    resources: string,
    readinessProbe: Option<string>,
    runtimeClassName: string,
    volumes: seq<AgentVolume>)

  datatype ExposeSpec = ExposeSpec(port: int, description: string)

  datatype AgentSpec = AgentSpec(
    agentClassRef: Option<string>,
    modelRef: Option<string>,
    promptRef: Option<string>,
    toolRefs: seq<string>,
    toolSetRefs: seq<string>,
    skillRefs: seq<string>,
    policyRefs: seq<string>,
    toolPolicyRefs: seq<string>,
    credentialRefs: seq<string>,
    runtime: Option<RuntimeSpec>,
    workspace: Option<WorkspaceSpec>,
    expose: Option<ExposeSpec>)

  /** Every name an Agent declares, with ToolSets expanded and MCP servers included. */
  datatype AgentReferences = AgentReferences(model: string, tools: seq<string>, mcpServers: seq<string>)

  datatype SkillToolScope = SkillToolScope(skill: string, allowedTools: seq<string>)
}
