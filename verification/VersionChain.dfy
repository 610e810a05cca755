/** Safety of the version chain over whole runs of validations and rollbacks
    (inmemory.ts:33-63, pipeline.ts:291-362,533-552). */
module VersionChain {
  import opened Domain
  import opened VersionStore
  import opened CandidateVersions

  ghost predicate AtMostOneActive(vs: Versions) {
    forall i, j | 0 <= i < j < |vs| :: !(vs[i].state == Active && vs[j].state == Active)
  }

  /** Where a parent is stored at all, it was stored before its child. */
  ghost predicate ParentsPrecede(vs: Versions) {
    forall j, k | 0 <= j < |vs| && 0 <= k < |vs| && vs[k].parentId == Some(vs[j].id) :: j < k
  }

  ghost predicate Chain(vs: Versions) {
    DistinctIds(vs) && AtMostOneActive(vs) && ParentsPrecede(vs)
  }

  /** A minted id is one no version has and no version names as its parent. */
  ghost predicate Fresh(vs: Versions, id: string) {
    forall k | 0 <= k < |vs| :: vs[k].id != id && vs[k].parentId != Some(id)
  }

  // --- one operation, many operations -----------------------------------------------------------

  datatype Op =
    | RollbackOp
    | ValidateOp(candidate: AgentVersion, baseline: Option<AgentVersion>, decisionId: string, verdict: Verdict)

  ghost predicate Allowed(vs: Versions, op: Op) {
    op.ValidateOp? ==>
      && Fresh(vs, op.candidate.id)
      && op.candidate.state == Candidate
      && op.candidate.parentId == ParentId(op.baseline)
      && op.candidate.parentId != Some(op.candidate.id)
  }

  function Perform(vs: Versions, op: Op): Versions {
    match op
    case RollbackOp => RolledBack(vs)
    case ValidateOp(candidate, baseline, decisionId, verdict) => Validated(vs, candidate, baseline, decisionId, verdict)
  }

  function After(vs: Versions, ops: seq<Op>): Versions {
    if ops == [] then vs else Perform(After(vs, ops[..|ops| - 1]), ops[|ops| - 1])
  }

  ghost predicate AllAllowed(vs: Versions, ops: seq<Op>) {
    forall n | 0 <= n < |ops| :: Allowed(After(vs, ops[..n]), ops[n])
  }

  /** Stored versions keep everything but their state and decision, and none disappears. */
  ghost predicate Preserved(vs: Versions, ws: Versions) {
    && |vs| <= |ws|
    && forall k | 0 <= k < |vs| :: ws[k] == vs[k].(state := ws[k].state, decisionId := ws[k].decisionId)
  }

  // --- each update keeps the chain --------------------------------------------------------------

  lemma StateKeepsOneActive(vs: Versions, id: string, state: VersionState)
    requires DistinctIds(vs) && AtMostOneActive(vs)
    ensures AtMostOneActive(WithState(vs, id, state))
  {
    hide WithState;
    var ws := WithState(vs, id, state);
    forall i, j | 0 <= i < j < |ws| ensures !(ws[i].state == Active && ws[j].state == Active) {
      assert vs[i].id != vs[j].id;
      assert ws[i] == Restated(vs[i], id, state) && ws[j] == Restated(vs[j], id, state);
    }
  }

  lemma PreservedKeepsShape(vs: Versions, ws: Versions)
    requires |vs| == |ws| && Preserved(vs, ws) && DistinctIds(vs) && ParentsPrecede(vs)
    ensures DistinctIds(ws) && ParentsPrecede(ws)
  {
    forall k | 0 <= k < |ws| ensures ws[k].id == vs[k].id && ws[k].parentId == vs[k].parentId {}
  }

  lemma StateKeepsChain(vs: Versions, id: string, state: VersionState)
    requires Chain(vs)
    ensures Chain(WithState(vs, id, state)) && Preserved(vs, WithState(vs, id, state))
  {
    StateKeepsOneActive(vs, id, state);
    hide WithState, AtMostOneActive, DistinctIds, ParentsPrecede;
    assert Preserved(vs, WithState(vs, id, state));
    PreservedKeepsShape(vs, WithState(vs, id, state));
  }

  lemma DecisionKeepsChain(vs: Versions, id: string, decisionId: string)
    requires Chain(vs)
    ensures Chain(WithDecision(vs, id, decisionId)) && Preserved(vs, WithDecision(vs, id, decisionId))
  {
  }

  lemma AppendKeepsChain(vs: Versions, c: AgentVersion)
    requires Chain(vs) && Fresh(vs, c.id) && c.state == Candidate && c.parentId != Some(c.id)
    ensures Chain(vs + [c]) && Preserved(vs, vs + [c])
  {
  }

  lemma PreservedTransitive(us: Versions, vs: Versions, ws: Versions)
    requires Preserved(us, vs) && Preserved(vs, ws)
    ensures Preserved(us, ws)
  {
    forall k | 0 <= k < |us| ensures ws[k] == us[k].(state := ws[k].state, decisionId := ws[k].decisionId) {
      assert vs[k] == us[k].(state := vs[k].state, decisionId := vs[k].decisionId);
    }
  }

  lemma LinkedKeepsChain(vs: Versions, c: AgentVersion, decisionId: string)
    requires Chain(vs) && Fresh(vs, c.id) && c.state == Candidate && c.parentId != Some(c.id)
    ensures Chain(vs + [c]) && Preserved(vs, vs + [c])
    ensures Chain(WithDecision(vs + [c], c.id, decisionId)) && Preserved(vs, WithDecision(vs + [c], c.id, decisionId))
  {
    AppendKeepsChain(vs, c);
    DecisionKeepsChain(vs + [c], c.id, decisionId);
    hide Chain, Preserved, WithDecision, Fresh;
    PreservedTransitive(vs, vs + [c], WithDecision(vs + [c], c.id, decisionId));
  }

  lemma StateAfterKeepsChain(us: Versions, vs: Versions, id: string, state: VersionState)
    requires Chain(vs) && Preserved(us, vs)
    ensures Chain(WithState(vs, id, state)) && Preserved(us, WithState(vs, id, state))
  {
    hide Chain, Preserved, WithState;
    StateKeepsChain(vs, id, state);
    PreservedTransitive(us, vs, WithState(vs, id, state));
  }

  lemma ValidatedKeepsChain(vs: Versions, op: Op)
    requires Chain(vs) && op.ValidateOp? && Allowed(vs, op)
    ensures Chain(Perform(vs, op)) && Preserved(vs, Perform(vs, op))
  {
    hide Chain, Preserved, WithState, WithDecision, Fresh, Find;
    var c := op.candidate;
    LinkedKeepsChain(vs, c, op.decisionId);
    var linked := WithDecision(vs + [c], c.id, op.decisionId);
    StateAfterKeepsChain(vs, linked, c.id, Rejected);
    StateAfterKeepsChain(vs, linked, c.id, Active);
    if op.baseline.Some? {
      StateAfterKeepsChain(vs, WithState(linked, c.id, Active), op.baseline.value.id, Retired);
    }
  }

  /** The same ids and parents, version by version. */
  ghost predicate SameIds(vs: Versions, ws: Versions) {
    |vs| == |ws| && forall k | 0 <= k < |vs| :: ws[k].id == vs[k].id && ws[k].parentId == vs[k].parentId
  }

  lemma ValidatedIds(vs: Versions, op: Op)
    requires op.ValidateOp?
    ensures SameIds(vs + [op.candidate], Perform(vs, op))
  {
    hide WithState, WithDecision, Find;
  }

  /** Main result: a validation of a new id keeps the chain if and only if no stored version names that id as
      its parent and the candidate's own parent has another. */
  lemma ChainKeptIff(vs: Versions, op: Op)
    requires Chain(vs) && op.ValidateOp? && Find(vs, op.candidate.id).None?
    requires op.candidate.state == Candidate && op.candidate.parentId == ParentId(op.baseline)
    ensures Chain(Perform(vs, op)) <==> Allowed(vs, op)
  {
    hide Perform, DistinctIds, AtMostOneActive, Find;
    if Allowed(vs, op) { ValidatedKeepsChain(vs, op); }
    ValidatedIds(vs, op);
    var n, c, ws := |vs|, op.candidate, Perform(vs, op);
    assert (vs + [c])[n] == c && ws[n].id == c.id;
    if Chain(ws) {
      forall k | 0 <= k < n ensures vs[k].id != c.id && vs[k].parentId != Some(c.id) {
        assert (vs + [c])[k] == vs[k] && ws[k].parentId == vs[k].parentId;
      }
      assert ws[n].parentId == c.parentId;
    }
  }

  lemma RollbackKeepsChain(vs: Versions)
    requires Chain(vs)
    ensures Chain(RolledBack(vs)) && Preserved(vs, RolledBack(vs)) && |RolledBack(vs)| == |vs|
  {
    if RollbackRefusalOf(vs).None? {
      var a := ActiveOf(vs).value;
      StateKeepsChain(vs, a.id, Retired);
      FindAfterState(vs, a.id, Retired, a.parentId.value);
      var retired := WithState(vs, a.id, Retired);
      StateKeepsChain(retired, a.parentId.value, Active);
      PreservedTransitive(vs, retired, WithState(retired, a.parentId.value, Active));
    }
  }

  /** Main result: whatever is validated and rolled back, in whatever order, at most one version is
      active, parents precede their children, and no stored configuration ever changes. */
  lemma {:induction false} EveryRunIsSafe(vs: Versions, ops: seq<Op>)
    requires Chain(vs) && AllAllowed(vs, ops)
    ensures Chain(After(vs, ops)) && Preserved(vs, After(vs, ops))
  {
    if ops == [] {
    } else {
      var front, op := ops[..|ops| - 1], ops[|ops| - 1];
      assert AllAllowed(vs, front) by {
        forall n | 0 <= n < |front| ensures Allowed(After(vs, front[..n]), front[n]) {
          assert front[..n] == ops[..n];
        }
      }
      EveryRunIsSafe(vs, front);
      var before := After(vs, front);
      assert Allowed(before, op);
      hide Chain, Preserved, Allowed;
      if op.RollbackOp? { RollbackKeepsChain(before); } else { ValidatedKeepsChain(before, op); }
      PreservedTransitive(vs, before, Perform(before, op));
    }
  }

  lemma AllowedPrefix(vs: Versions, ops: seq<Op>, more: seq<Op>)
    requires AllAllowed(vs, ops + more)
    ensures AllAllowed(vs, ops) && AllAllowed(After(vs, ops), more)
  {
    hide Allowed;
    var all := ops + more;
    forall n | 0 <= n < |ops| ensures Allowed(After(vs, ops[..n]), ops[n]) {
      assert all[..n] == ops[..n] && all[n] == ops[n];
    }
    forall n | 0 <= n < |more| ensures Allowed(After(After(vs, ops), more[..n]), more[n]) {
      AfterAppend(vs, ops, more[..n]);
      assert all[..|ops| + n] == ops + more[..n] && all[|ops| + n] == more[n];
    }
  }

  /** Main result: the safety of `EveryRunIsSafe` between any two moments of a run from the empty store. */
  lemma NoConfigurationEverChanges(ops: seq<Op>, more: seq<Op>)
    requires AllAllowed([], ops + more)
    ensures Chain(After([], ops)) && Chain(After([], ops + more))
    ensures Preserved(After([], ops), After([], ops + more))
  {
    AllowedPrefix([], ops, more);
    AfterAppend([], ops, more);
    hide AllAllowed;
    EveryRunIsSafe([], ops);
    EveryRunIsSafe(After([], ops), more);
  }

  lemma AfterNothing(vs: Versions)
    ensures After(vs, []) == vs
  {
  }

  lemma AfterOneMore(vs: Versions, ops: seq<Op>, op: Op)
    ensures After(vs, ops + [op]) == Perform(After(vs, ops), op)
  {
    hide Perform;
    assert (ops + [op])[..|ops|] == ops;
  }

  lemma {:induction false} AfterAppend(vs: Versions, ops: seq<Op>, more: seq<Op>)
    ensures After(vs, ops + more) == After(After(vs, ops), more)
  {
    hide *;
    if more == [] {
      assert ops + [] == ops;
      AfterNothing(After(vs, ops));
    } else {
      var front, op := more[..|more| - 1], more[|more| - 1];
      AfterAppend(vs, ops, front);
      AfterOneMore(vs, ops + front, op);
      AfterOneMore(After(vs, ops), front, op);
      assert front + [op] == more && ops + more == ops + front + [op];
    }
  }

  // --- which version is active ------------------------------------------------------------------

  lemma ActiveAt(vs: Versions, k: nat)
    requires k < |vs| && vs[k].state == Active && AtMostOneActive(vs)
    ensures ActiveIndex(vs) == k && ActiveOf(vs) == Some(vs[k])
  {
    var j := ActiveIndex(vs);
    if j < k {}
    if k < j {}
  }

  /** Main result: a rejected or aborted validation leaves the active version alone. */
  lemma OnlyPromotionChangesActive(vs: Versions, op: Op)
    requires Chain(vs) && op.ValidateOp? && Allowed(vs, op) && op.verdict != Promoted
    ensures ActiveOf(Perform(vs, op)) == ActiveOf(vs)
  {
    var ws := Perform(vs, op);
    ValidatedKeepsChain(vs, op);
    NotPromotedElements(vs, op);
    var k := ActiveIndex(vs);
    hide Chain, Allowed, Perform, DistinctIds, ParentsPrecede, Fresh;
    if k < |vs| {
      assert ws[k] == vs[k];
      assert AtMostOneActive(ws) by { ChainParts(ws); }
      ActiveAt(ws, k);
    }
  }

  lemma ChainParts(vs: Versions)
    requires Chain(vs)
    ensures DistinctIds(vs) && AtMostOneActive(vs) && ParentsPrecede(vs)
  {
  }

  lemma NotPromotedElements(vs: Versions, op: Op)
    requires op.ValidateOp? && Allowed(vs, op) && op.verdict != Promoted
    ensures |Perform(vs, op)| == |vs| + 1 && Perform(vs, op)[|vs|].state != Active
    ensures forall k | 0 <= k < |vs| :: Perform(vs, op)[k] == vs[k]
  {
    hide WithState, WithDecision;
    var c := op.candidate;
    var linked := WithDecision(vs + [c], c.id, op.decisionId);
    assert linked[|vs|] == c.(decisionId := Some(op.decisionId));
    assert forall k | 0 <= k < |vs| :: linked[k] == Linked(vs[k], c.id, op.decisionId);
    assert forall k | 0 <= k < |vs| :: linked[k] == vs[k];
    var refuted := WithState(linked, c.id, Rejected);
    assert refuted[|vs|] == Restated(linked[|vs|], c.id, Rejected);
    assert forall k | 0 <= k < |vs| :: refuted[k] == Restated(linked[k], c.id, Rejected);
  }

  lemma PromotedElements(vs: Versions, op: Op)
    requires op.ValidateOp? && Allowed(vs, op) && op.verdict == Promoted
    ensures |Perform(vs, op)| == |vs| + 1
    ensures Perform(vs, op)[|vs|] == op.candidate.(decisionId := Some(op.decisionId), state := Active)
    ensures forall k | 0 <= k < |vs| :: Perform(vs, op)[k] == vs[k].(state := Perform(vs, op)[k].state)
  {
    hide WithState, WithDecision, Find;
    var c := op.candidate;
    var linked := WithDecision(vs + [c], c.id, op.decisionId);
    assert linked[|vs|] == Linked(c, c.id, op.decisionId);
    assert forall k | 0 <= k < |vs| :: linked[k] == Linked(vs[k], c.id, op.decisionId);
    var activated := WithState(linked, c.id, Active);
    assert activated[|vs|] == Restated(linked[|vs|], c.id, Active);
    assert forall k | 0 <= k < |vs| :: activated[k] == Restated(linked[k], c.id, Active);
    if op.baseline.Some? {
      var b := op.baseline.value.id;
      var last := WithState(activated, b, Retired);
      assert last[|vs|] == Restated(activated[|vs|], b, Retired);
      assert forall k | 0 <= k < |vs| :: last[k] == Restated(activated[k], b, Retired);
    }
  }

  /** Main result: a promotion makes exactly the candidate active. */
  lemma PromotionActivates(vs: Versions, op: Op)
    requires Chain(vs) && op.ValidateOp? && Allowed(vs, op) && op.verdict == Promoted
    ensures var ws := Perform(vs, op);
      && ActiveIndex(ws) == |vs|
      && ActiveOf(ws) == Some(op.candidate.(decisionId := Some(op.decisionId), state := Active))
      && EffectiveOf(ws) == op.candidate.config
  {
    ValidatedKeepsChain(vs, op);
    PromotedElements(vs, op);
    var ws := Perform(vs, op);
    hide Perform, Allowed, Fresh;
    ChainParts(ws);
    ActiveAt(ws, |vs|);
  }

  // --- rolling back -----------------------------------------------------------------------------

  /** What a rollback that is not refused does: the parent becomes the one active version. */
  lemma RollbackActivatesParent(vs: Versions, p: nat)
    requires Chain(vs) && RollbackRefusalOf(vs).None?
    requires p < |vs| && Some(vs[p].id) == ActiveOf(vs).value.parentId
    ensures ActiveIndex(RolledBack(vs)) == p < ActiveIndex(vs)
    ensures EffectiveOf(RolledBack(vs)) == vs[p].config
    ensures |RolledBack(vs)| == |vs|
  {
    RollbackKeepsChain(vs);
    var a := ActiveOf(vs).value;
    var ws := RolledBack(vs);
    assert ws[p].config == vs[p].config && ws[p].state == Active by {
      hide WithState;
      var retired := WithState(vs, a.id, Retired);
      assert retired[p] == Restated(vs[p], a.id, Retired);
      assert ws[p] == Restated(retired[p], a.parentId.value, Active);
    }
    ChainParts(vs);
    ChainParts(ws);
    hide RolledBack, RollbackRefusalOf;
    ActiveAt(ws, p);
  }

  lemma IndexOfStored(vs: Versions, id: string) returns (p: nat)
    requires Find(vs, id).Some?
    ensures p < |vs| && vs[p] == Find(vs, id).value && vs[p].id == id
  {
    p :| 0 <= p < |vs| && vs[p] == Find(vs, id).value;
  }

  /** Main result: rolling back a promotion over a stored parent puts that parent's configuration back
      in force, so the previous effective configuration returns if and only if the parent carried it;
      over the built-in configuration, or a parent the store lacks, the rollback is refused. */
  lemma RollbackUndoesPromotion(vs: Versions, op: Op)
    requires Chain(vs) && op.ValidateOp? && Allowed(vs, op) && op.verdict == Promoted
    ensures var ws := Perform(vs, op);
      && (op.baseline.None? ==> RollbackRefusalOf(ws) == Some(NoParent))
      && (op.baseline.Some? && Find(vs, op.baseline.value.id).None? ==> RollbackRefusalOf(ws) == Some(ParentMissing))
      && (op.baseline.Some? && Find(vs, op.baseline.value.id).Some? ==>
            && RollbackRefusalOf(ws).None?
            && EffectiveOf(RolledBack(ws)) == Find(vs, op.baseline.value.id).value.config)
  {
    var ws := Perform(vs, op);
    PromotionActivates(vs, op);
    PromotedElements(vs, op);
    ValidatedKeepsChain(vs, op);
    hide Perform, Chain, Fresh, ActiveOf, EffectiveOf, Find;
    if op.baseline.Some? {
      var b := op.baseline.value.id;
      StoredAfter(vs, ws, b);
      if Find(vs, b).Some? {
        var p := IndexOfStored(vs, b);
        assert ws[p] == vs[p].(state := ws[p].state);
        RollbackActivatesParent(ws, p);
      }
    }
  }

  lemma StoredAfter(vs: Versions, ws: Versions, id: string)
    requires |ws| == |vs| + 1 && ws[|vs|].id != id
    requires forall k | 0 <= k < |vs| :: ws[k].id == vs[k].id
    ensures Find(ws, id).Some? <==> Find(vs, id).Some?
  {
    if Find(vs, id).Some? {
      var p := IndexOfStored(vs, id);
      assert ws[p].id == id;
    }
    if Find(ws, id).Some? {
      var p := IndexOfStored(ws, id);
      assert vs[p].id == id;
    }
  }

  /** Main result, in the pipeline's own case: a promotion over the active version, rolled back. */
  lemma RollbackRestoresActive(vs: Versions, op: Op)
    requires Chain(vs) && op.ValidateOp? && Allowed(vs, op) && op.verdict == Promoted
    requires op.baseline == ActiveOf(vs) && op.baseline.Some?
    ensures EffectiveOf(RolledBack(Perform(vs, op))) == EffectiveOf(vs)
  {
    RollbackUndoesPromotion(vs, op);
    FindUnique(vs, ActiveIndex(vs));
    hide Perform, RolledBack, Allowed, RollbackRefusalOf;
  }

  lemma RollbackDescends(vs: Versions)
    requires Chain(vs)
    ensures Chain(RolledBack(vs))
    ensures RollbackRefusalOf(vs).None? ==> ActiveIndex(RolledBack(vs)) < ActiveIndex(vs)
    ensures RollbackRefusalOf(vs).Some? ==> RolledBack(vs) == vs
  {
    RollbackKeepsChain(vs);
    hide Chain, WithState;
    if RollbackRefusalOf(vs).None? {
      var p := IndexOfStored(vs, ActiveOf(vs).value.parentId.value);
      RollbackActivatesParent(vs, p);
    }
  }

  function RolledBackTimes(vs: Versions, n: nat): Versions {
    if n == 0 then vs else RolledBack(RolledBackTimes(vs, n - 1))
  }

  /** Main result: parent links lead back to earlier versions only, so after at most as many rollbacks
      as there are versions before the active one the next is refused and changes nothing. */
  lemma {:induction false} RollbacksTerminate(vs: Versions, n: nat)
    requires Chain(vs)
    ensures var ws := RolledBackTimes(vs, n);
      && Chain(ws)
      && (RollbackRefusalOf(ws).None? ==> ActiveIndex(ws) + n <= ActiveIndex(vs))
      && (n > ActiveIndex(vs) ==> RollbackRefusalOf(ws).Some? && RolledBack(ws) == ws)
  {
    hide Chain, RolledBack, RollbackRefusalOf;
    if n > 0 {
      RollbacksTerminate(vs, n - 1);
      RollbackDescends(RolledBackTimes(vs, n - 1));
    }
    RollbackDescends(RolledBackTimes(vs, n));
  }
}
