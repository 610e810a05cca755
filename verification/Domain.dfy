/** The records AXIOM's stages exchange (packages/axiom-core/src/types.ts and version.ts).
    Titles, prose and timestamps that no branch reads are left out. */
module Domain {
  import opened PromptPatches

  datatype Option<+T> = None | Some(value: T) {
    function GetOr(other: T): T {
      match this case Some(v) => v case None => other
    }
  }

  datatype Result<+T, +E> = Ok(value: T) | Err(error: E)

  datatype LoopParams = LoopParams(maxIterations: int, verificationNudgeMax: int)

  /** A `None` override means the built-in prompt. */
  datatype AgentConfig = AgentConfig(promptOverride: Option<string>, loop: LoopParams)

  const BUILTIN_CONFIG := AgentConfig(None, LoopParams(40, 1))

  datatype Evidence = Evidence(runId: string, steps: seq<int>, note: string)

  datatype VersionState = Candidate | Active | Retired | Rejected

  datatype AgentVersion = AgentVersion(
    id: string,
    parentId: Option<string>,
    createdAt: int,
    config: AgentConfig,
    targetsFindingIds: seq<string>,
    evidence: seq<Evidence>,
    state: VersionState,
    decisionId: Option<string>)

  datatype RootCause = ModelCause | PromptCause | MemoryCause | ToolCause | OrchestrationCause | InfraCause

  datatype Detector =
    PrematureSuccess | ToolLoop | RetryStorm | ContextLoss | VerificationAbsent
    | Waste | WrongTool | Runaway | DeniedStorm

  datatype Finding = Finding(
    id: string, evidence: seq<Evidence>, differential: bool, occurrences: int)

  datatype Actuator = PromptActuator | LoopActuator | ManualActuator

  datatype LoopField = MaxIterations | VerificationNudgeMax

  datatype LoopParamChange = LoopParamChange(field: LoopField, from: int, to: int)

  datatype Proposal = Proposal(
    actuator: Actuator,
    rootCause: RootCause,
    detector: Detector,
    targetsFindingIds: seq<string>,
    targetMetric: Option<string>,
    evidence: seq<Evidence>,
    trimmedRationaleLength: nat,
    patch: Option<PatchBlock>,
    loop: Option<LoopParamChange>)

  datatype EvalTask = EvalTask(id: string, capability: string)

  datatype EvalSuite = EvalSuite(id: string, tasks: seq<EvalTask>)

  /** A `None` duration is an attempt that never reported an end. */
  datatype AttemptSummary = AttemptSummary(
    taskId: string,
    repeat: nat,
    passed: bool,
    iterations: int,
    totalTokens: int,
    durationMs: Option<int>,
    toolCalls: int,
    toolFailures: int,
    deniedCalls: int,
    verificationCalls: int,
    repeatRatio: real)

  datatype TaskResult = TaskResult(
    taskId: string, capability: string, attempts: nat, passes: nat, passRate: real)

  datatype SuiteResult = SuiteResult(
    suiteId: string,
    versionId: string,
    model: string,
    repeats: int,
    tasks: seq<TaskResult>,
    attemptSummaries: seq<AttemptSummary>,
    passRate: real,
    promptTokens: int,
    completionTokens: int)
}
