/** Building a candidate version from a proposal, and the guardian's check on AXIOM's footprint in
    the prompt (packages/axiom-core/src/version.ts:373-451, guardian.ts:385-412). */
module CandidateVersions {
  import opened PromptPatches
  import opened PatchRoundTrip
  import opened PatchAccounting
  import opened Domain

  datatype BuildRefusal = ManualProposal | PatchRefused(reason: RefusalReason) | PatchPresent | NoChangeCarried

  function WithField(loop: LoopParams, field: LoopField, to: int): LoopParams {
    match field
    case MaxIterations => loop.(maxIterations := to)
    case VerificationNudgeMax => loop.(verificationNudgeMax := to)
  }

  function BaseConfig(parent: Option<AgentVersion>): AgentConfig {
    if parent.Some? then parent.value.config else BUILTIN_CONFIG
  }

  function ParentId(parent: Option<AgentVersion>): Option<string> {
    if parent.Some? then Some(parent.value.id) else None
  }

  function NewVersion(
    id: string, parent: Option<AgentVersion>, config: AgentConfig, proposal: Proposal, createdAt: int): AgentVersion
  {
    AgentVersion(id, ParentId(parent), createdAt, config,
      proposal.targetsFindingIds, proposal.evidence, Candidate, None)
  }

  function BuildCandidate(
    id: string, parent: Option<AgentVersion>, proposal: Proposal, basePrompt: string, createdAt: int)
    : Result<AgentVersion, BuildRefusal>
  {
    var baseConfig := BaseConfig(parent);
    if proposal.actuator == ManualActuator then Err(ManualProposal)
    else if proposal.actuator == PromptActuator && proposal.patch.Some? then
      var result := Apply(baseConfig.promptOverride.GetOr(basePrompt), [proposal.patch.value], PROMPT_CAP);
      if |result.applied| == 0 then
        Err(if |result.refused| > 0 then PatchRefused(result.refused[0].reason) else PatchPresent)
      else
        Ok(NewVersion(id, parent, baseConfig.(promptOverride := Some(result.prompt)), proposal, createdAt))
    else if proposal.actuator == LoopActuator && proposal.loop.Some? then
      var change := proposal.loop.value;
      Ok(NewVersion(id, parent, baseConfig.(loop := WithField(baseConfig.loop, change.field, change.to)),
        proposal, createdAt))
    else Err(NoChangeCarried)
  }

  // --- the prompt-budget check ------------------------------------------------------------------

  predicate PromptBudgetOk(config: AgentConfig, baseline: Option<AgentVersion>, builtinPrompt: Option<string>) {
    var prompt := config.promptOverride.GetOr("");
    var base := if baseline.Some? && baseline.value.config.promptOverride.Some?
                then baseline.value.config.promptOverride else builtinPrompt;
    && PatchChars(prompt) <= PROMPT_CAP.maxPatchChars
    && CountPatches(prompt) <= PROMPT_CAP.maxPatches
    && (base.Some? ==> UnmarkedChars(prompt) == UnmarkedChars(base.value))
  }

  /** The prompt a candidate over `parent` amends. */
  function AmendedPrompt(parent: Option<AgentVersion>, basePrompt: string): string {
    BaseConfig(parent).promptOverride.GetOr(basePrompt)
  }

  lemma ApplySingle(base: string, p: PatchBlock, cap: Cap)
    ensures Apply(base, [p], cap) == ApplyOne(Start(base), p, cap)
  {
    assert [p][..0] == [];
    assert Apply(base, [], cap) == Start(base);
  }

  /** A prompt proposal is built exactly when its marker is absent and both caps leave room. */
  lemma PromptCandidateBuiltWhen(
    id: string, parent: Option<AgentVersion>, proposal: Proposal, basePrompt: string, at: int)
    requires proposal.actuator == PromptActuator && proposal.patch.Some?
    ensures BuildCandidate(id, parent, proposal, basePrompt, at).Ok?
       <==> !Settled(AmendedPrompt(parent, basePrompt), proposal.patch.value, PROMPT_CAP)
  {
    ApplySingle(AmendedPrompt(parent, basePrompt), proposal.patch.value, PROMPT_CAP);
    hide Print, Includes, CountPatches, PatchChars, Apply;
  }

  lemma MarkerOf(p: PatchBlock)
    requires WellFormed(p)
    ensures WellFormedMarker(p.marker)
  {
  }

  /** Main result: what `BuildCandidate` makes of a well-formed patch over a prompt within the caps
      passes the guardian's prompt-budget check, and carries exactly one block more. */
  lemma PromptCandidatePassesBudget(
    id: string, parent: Option<AgentVersion>, proposal: Proposal, basePrompt: string, at: int)
    requires proposal.actuator == PromptActuator && proposal.patch.Some? && WellFormed(proposal.patch.value)
    requires var base := AmendedPrompt(parent, basePrompt);
      && !Dangling(base)
      && CountPatches(base) <= PROMPT_CAP.maxPatches
      && PatchChars(base) <= PROMPT_CAP.maxPatchChars
    ensures var r := BuildCandidate(id, parent, proposal, basePrompt, at);
      r.Ok? ==>
        && PromptBudgetOk(r.value.config, parent, Some(basePrompt))
        && Parse(r.value.config.promptOverride.GetOr(""))
           == Parse(AmendedPrompt(parent, basePrompt)) + [proposal.patch.value]
  {
    hide Print, Includes, CountPatches, PatchChars, UnmarkedChars, Apply, ApplyOne, Settled, Dangling, WellFormed,
      Parse, PrintAll;
    var base := AmendedPrompt(parent, basePrompt);
    var ps := [proposal.patch.value];
    ApplySingle(base, proposal.patch.value, PROMPT_CAP);
    ApplyRoundTrip(base, ps, PROMPT_CAP);
    SafeIsChargeable(base);
    MarkerOf(proposal.patch.value);
    ApplyRespectsCharCap(base, ps, PROMPT_CAP);
    ApplyRespectsCountCap(base, ps, PROMPT_CAP);
    ApplyOneCases(Start(base), proposal.patch.value, PROMPT_CAP);
  }

  /** A loop-parameter candidate keeps its parent's override, so the check compares the empty prompt
      with the built-in one whenever there is no override: it passes exactly when an override within
      the caps exists or the built-in prompt has no unmarked text. */
  lemma LoopCandidateBudget(id: string, parent: Option<AgentVersion>, proposal: Proposal, basePrompt: string, at: int)
    requires proposal.actuator == LoopActuator && proposal.loop.Some?
    ensures var r := BuildCandidate(id, parent, proposal, basePrompt, at);
      && r.Ok?
      && (PromptBudgetOk(r.value.config, parent, Some(basePrompt)) <==>
          match BaseConfig(parent).promptOverride
          case None => UnmarkedChars(basePrompt) == ""
          case Some(own) => CountPatches(own) <= PROMPT_CAP.maxPatches && PatchChars(own) <= PROMPT_CAP.maxPatchChars)
  {
    PatchCharsIsTail("");
    PrintAfterParse("");
  }

  /** An input on which the check fails: raising the nudge over the built-in configuration. */
  lemma LoopCandidateOverBuiltinFails()
    ensures var proposal := Proposal(LoopActuator, OrchestrationCause, PrematureSuccess, [], None, [], 40,
                                     None, Some(LoopParamChange(VerificationNudgeMax, 1, 2)));
      var r := BuildCandidate("v", None, proposal, "You are an agent.", 0);
      r.Ok? && !PromptBudgetOk(r.value.config, None, Some("You are an agent."))
  {
    var proposal := Proposal(LoopActuator, OrchestrationCause, PrematureSuccess, [], None, [], 40,
                             None, Some(LoopParamChange(VerificationNudgeMax, 1, 2)));
    var builtin := "You are an agent.";
    LoopCandidateBudget("v", None, proposal, builtin, 0);
    PatchCharsIsTail(builtin);
    assert builtin[0] == 'Y';
    assert !HeaderAt(builtin, 0);
    assert NextHeader(builtin, 0) > 0;
    assert |builtin[..NextHeader(builtin, 0)]| > 0;
  }

  // --- one change per version -------------------------------------------------------------------

  /** In how many of its three fields a configuration differs from another. */
  function DifferingFields(a: AgentConfig, b: AgentConfig): nat {
    (if a.promptOverride != b.promptOverride then 1 else 0)
    + (if a.loop.maxIterations != b.loop.maxIterations then 1 else 0)
    + (if a.loop.verificationNudgeMax != b.loop.verificationNudgeMax then 1 else 0)
  }

  function FieldOf(loop: LoopParams, field: LoopField): int {
    match field
    case MaxIterations => loop.maxIterations
    case VerificationNudgeMax => loop.verificationNudgeMax
  }

  /** Main result: a built candidate is an undecided child of its parent that differs from it in
      exactly one field, save a loop change to the value already in force, which differs in none. */
  lemma CandidateIsOneChange(id: string, parent: Option<AgentVersion>, proposal: Proposal, basePrompt: string, at: int)
    ensures var r := BuildCandidate(id, parent, proposal, basePrompt, at);
      r.Ok? ==>
        && r.value.id == id && r.value.state == Candidate && r.value.decisionId == None
        && r.value.parentId == ParentId(parent)
        && (DifferingFields(BaseConfig(parent), r.value.config) == 1 <==>
            !(&& proposal.actuator == LoopActuator
              && FieldOf(BaseConfig(parent).loop, proposal.loop.value.field) == proposal.loop.value.to))
        && DifferingFields(BaseConfig(parent), r.value.config) <= 1
  {
    if proposal.actuator == PromptActuator && proposal.patch.Some? {
      var p := proposal.patch.value;
      ApplySingle(AmendedPrompt(parent, basePrompt), p, PROMPT_CAP);
      ApplyOneCases(Start(AmendedPrompt(parent, basePrompt)), p, PROMPT_CAP);
      assert |Print(p)| > 0;
      hide Print, Includes, CountPatches, PatchChars, Apply, ApplyOne, Settled;
    }
  }

  // --- the candidate itself -----------------------------------------------------------------------

  /** What the candidate changes is the actuator's part of the configuration, and nothing else: the prompt is
      the amended one with the printed patch behind it, or the named loop field is the proposed value. */
  ghost predicate CarriesTheChange(config: AgentConfig, base: AgentConfig, basePrompt: string, proposal: Proposal) {
    if proposal.actuator == PromptActuator then
      && proposal.patch.Some? && config.loop == base.loop
      && var amended := if base.promptOverride.Some? then base.promptOverride.value else basePrompt;
        config.promptOverride
          == Some(amended + "\n\n[" + proposal.patch.value.marker + "]\n" + proposal.patch.value.text)
    else
      && proposal.actuator == LoopActuator && proposal.loop.Some?
      && var to := proposal.loop.value.to;
        config == if proposal.loop.value.field == MaxIterations
                  then AgentConfig(base.promptOverride, LoopParams(to, base.loop.verificationNudgeMax))
                  else AgentConfig(base.promptOverride, LoopParams(base.loop.maxIterations, to))
  }

  /** An undecided child of its parent, or of the built-in configuration, with the proposal's targets and
      evidence and exactly the proposed change. */
  ghost predicate Proposed(
    v: AgentVersion, id: string, parent: Option<AgentVersion>, proposal: Proposal, basePrompt: string, at: int)
  {
    && v.id == id && v.createdAt == at && v.state == Candidate && v.decisionId == None
    && v.parentId == (if parent.Some? then Some(parent.value.id) else None)
    && v.targetsFindingIds == proposal.targetsFindingIds && v.evidence == proposal.evidence
    && var base := if parent.Some? then parent.value.config else AgentConfig(None, LoopParams(40, 1));
      CarriesTheChange(v.config, base, basePrompt, proposal)
  }

  /** Main result: what is built is the candidate that was proposed. */
  lemma CandidateIs(id: string, parent: Option<AgentVersion>, proposal: Proposal, basePrompt: string, at: int)
    ensures var r := BuildCandidate(id, parent, proposal, basePrompt, at);
      r.Ok? ==> Proposed(r.value, id, parent, proposal, basePrompt, at)
  {
    if proposal.actuator == PromptActuator && proposal.patch.Some? {
      var p := proposal.patch.value;
      var base := AmendedPrompt(parent, basePrompt);
      ApplySingle(base, p, PROMPT_CAP);
      ApplyOneCases(Start(base), p, PROMPT_CAP);
      PrintIs(p);
      assert base + ("\n\n[" + p.marker + "]\n" + p.text) == base + "\n\n[" + p.marker + "]\n" + p.text;
      hide Print, Includes, CountPatches, PatchChars, Apply, ApplyOne, Settled;
    }
  }

  /** And why a proposal builds nothing. */
  lemma RefusedBecause(id: string, parent: Option<AgentVersion>, proposal: Proposal, basePrompt: string, at: int)
    ensures var r := BuildCandidate(id, parent, proposal, basePrompt, at);
      var amended := AmendedPrompt(parent, basePrompt);
      && (proposal.actuator == ManualActuator ==> r == Err(ManualProposal))
      && (proposal.actuator == PromptActuator && proposal.patch.None? ==> r == Err(NoChangeCarried))
      && (proposal.actuator == LoopActuator ==>
            (r.Err? <==> proposal.loop.None?) && (r.Err? ==> r == Err(NoChangeCarried)))
      && (proposal.actuator == PromptActuator && proposal.patch.Some? ==>
            var p := proposal.patch.value;
            && (r == Err(PatchPresent) <==> exists k: nat :: HasAt(amended, k, p.marker))
            && (r == Err(PatchRefused(TooManyPatches)) <==>
                  !(exists k: nat :: HasAt(amended, k, p.marker)) && CountPatches(amended) >= 6)
            && (r == Err(PatchRefused(TooManyChars)) <==>
                  && !(exists k: nat :: HasAt(amended, k, p.marker)) && CountPatches(amended) < 6
                  && PatchChars(amended) + 5 + |p.marker| + |p.text| > 2400))
  {
    if proposal.actuator == PromptActuator && proposal.patch.Some? {
      var p := proposal.patch.value;
      ApplySingle(AmendedPrompt(parent, basePrompt), p, PROMPT_CAP);
      PrintIs(p);
      hide CountPatches, PatchChars, Apply, Print, HasAt;
    }
  }

  lemma PrintIs(p: PatchBlock)
    ensures Print(p) == "\n\n[" + p.marker + "]\n" + p.text && |Print(p)| == 5 + |p.marker| + |p.text|
  {
  }
}
