/** The version chain (packages/axiom-core/src/inmemory.ts:17-68) and what the pipeline does to it
    (pipeline.ts:291-362,533-552).  A JavaScript map keeps its entries in insertion order, so the
    store is a sequence of versions with distinct ids. */
module VersionStore {
  import opened Domain

  type Versions = seq<AgentVersion>

  // --- reading ----------------------------------------------------------------------------------

  function Find(vs: Versions, id: string): (v: Option<AgentVersion>)
    ensures v.Some? ==> v.value in vs && v.value.id == id
    ensures v.None? ==> forall k | 0 <= k < |vs| :: vs[k].id != id
  {
    if vs == [] then None
    else if vs[0].id == id then Some(vs[0])
    else Find(vs[1..], id)
  }

  /** The index of the first active version, or the length when none is active. */
  function ActiveIndex(vs: Versions): (k: nat)
    ensures k <= |vs|
    ensures k < |vs| ==> vs[k].state == Active
    ensures forall j | 0 <= j < k :: vs[j].state != Active
  {
    if vs == [] then 0
    else if vs[0].state == Active then 0
    else 1 + ActiveIndex(vs[1..])
  }

  function ActiveOf(vs: Versions): Option<AgentVersion> {
    if ActiveIndex(vs) < |vs| then Some(vs[ActiveIndex(vs)]) else None
  }

  predicate IsFirstActive(vs: Versions, k: int) {
    0 <= k < |vs| && vs[k].state == Active && forall j | 0 <= j < k :: vs[j].state != Active
  }

  lemma FirstActive(vs: Versions, k: int)
    requires IsFirstActive(vs, k)
    ensures ActiveIndex(vs) == k && ActiveOf(vs) == Some(vs[k])
  {
    hide ActiveIndex, ActiveOf;
    ActiveIndexIsFirst(vs, k);
    ActiveOfIs(vs);
  }

  lemma ActiveIndexIsFirst(vs: Versions, k: int)
    requires IsFirstActive(vs, k)
    ensures ActiveIndex(vs) == k
  {
    var i := ActiveIndex(vs);
    assert i < |vs| ==> vs[i].state == Active;
  }

  lemma ActiveOfIs(vs: Versions)
    ensures ActiveOf(vs) == if ActiveIndex(vs) < |vs| then Some(vs[ActiveIndex(vs)]) else None
  {
  }

  lemma NoneActive(vs: Versions)
    requires forall k | 0 <= k < |vs| :: vs[k].state != Active
    ensures ActiveOf(vs).None?
  {
  }

  function EffectiveOf(vs: Versions): AgentConfig {
    if ActiveOf(vs).Some? then ActiveOf(vs).value.config else BUILTIN_CONFIG
  }

  // --- writing ----------------------------------------------------------------------------------

  /** What setting `id` to `state` does to one version: making a version active retires the others. */
  function Restated(v: AgentVersion, id: string, state: VersionState): AgentVersion {
    if v.id == id then v.(state := state)
    else if state == Active && v.state == Active then v.(state := Retired)
    else v
  }

  function WithState(vs: Versions, id: string, state: VersionState): (ws: Versions)
    ensures |ws| == |vs|
    ensures forall k | 0 <= k < |vs| :: ws[k] == Restated(vs[k], id, state)
  {
    if vs == [] then [] else WithState(vs[..|vs| - 1], id, state) + [Restated(vs[|vs| - 1], id, state)]
  }

  function Linked(v: AgentVersion, id: string, decisionId: string): AgentVersion {
    if v.id == id then v.(decisionId := Some(decisionId)) else v
  }

  function WithDecision(vs: Versions, id: string, decisionId: string): (ws: Versions)
    ensures |ws| == |vs|
    ensures forall k | 0 <= k < |vs| :: ws[k] == Linked(vs[k], id, decisionId)
  {
    if vs == [] then [] else WithDecision(vs[..|vs| - 1], id, decisionId) + [Linked(vs[|vs| - 1], id, decisionId)]
  }

  predicate DistinctIds(vs: Versions) {
    forall i, j | 0 <= i < j < |vs| :: vs[i].id != vs[j].id
  }

  lemma RestatedAll(vs: Versions, ws: Versions, id: string, state: VersionState)
    requires |ws| == |vs| && forall k | 0 <= k < |vs| :: ws[k] == Restated(vs[k], id, state)
    ensures ws == WithState(vs, id, state)
    ensures DistinctIds(vs) ==> DistinctIds(ws)
  {
  }

  class MemoryConfigStore {
    var versions: Versions
    const builtin: string

    ghost predicate Valid()
      reads this
    {
      DistinctIds(versions)
    }

    constructor (builtinPrompt: string)
      ensures Valid() && versions == [] && builtin == builtinPrompt
    {
      versions := [];
      builtin := builtinPrompt;
    }

    /** The one stored version of that id; absent exactly when none has it. */
    method GetVersion(id: string) returns (v: Option<AgentVersion>)
      requires Valid()
      ensures v.Some? ==> v.value in versions && v.value.id == id
      ensures forall k | 0 <= k < |versions| && versions[k].id == id :: v == Some(versions[k])
      ensures v == Find(versions, id)
    {
      v := Find(versions, id);
      if v.Some? {
        var i :| 0 <= i < |versions| && versions[i] == v.value;
        assert forall k | 0 <= k < |versions| && versions[k].id == id :: k == i;
      }
    }

    /** The first stored active version; absent exactly when none is active. */
    method ActiveVersion() returns (v: Option<AgentVersion>)
      ensures v.None? <==> forall k | 0 <= k < |versions| :: versions[k].state != Active
      ensures v.Some? ==> exists k :: IsFirstActive(versions, k) && v.value == versions[k]
      ensures v == ActiveOf(versions)
    {
      for k := 0 to |versions|
        invariant forall j | 0 <= j < k :: versions[j].state != Active
      {
        if versions[k].state == Active {
          FirstActive(versions, k);
          return Some(versions[k]);
        }
      }
      NoneActive(versions);
      v := None;
    }

    /** What the agent runs: the configuration of the first active version, else the built-in one. */
    method EffectiveConfig() returns (c: AgentConfig)
      ensures forall k | IsFirstActive(versions, k) :: c == versions[k].config
      ensures (forall k | 0 <= k < |versions| :: versions[k].state != Active) ==> c == BUILTIN_CONFIG
      ensures c == EffectiveOf(versions)
    {
      var active := ActiveVersion();
      c := if active.Some? then active.value.config else BUILTIN_CONFIG;
      forall k | IsFirstActive(versions, k) ensures c == versions[k].config {
        FirstActive(versions, k);
      }
    }

    /** Refuses an id that is already stored: versions are immutable. */
    method Put(v: AgentVersion) returns (ok: bool)
      requires Valid()
      modifies this`versions
      ensures Valid()
      ensures ok <==> Find(old(versions), v.id).None?
      ensures versions == if ok then old(versions) + [v] else old(versions)
    {
      ok := Find(versions, v.id).None?;
      if ok {
        versions := versions + [v];
      }
    }

    method SetState(id: string, state: VersionState) returns (ok: bool)
      requires Valid()
      modifies this`versions
      ensures Valid()
      ensures ok <==> Find(old(versions), id).Some?
      ensures versions == if ok then WithState(old(versions), id, state) else old(versions)
    {
      ok := Find(versions, id).Some?;
      if !ok {
        return;
      }
      ghost var was := versions;
      for k := 0 to |versions|
        invariant |versions| == |was|
        invariant forall j | 0 <= j < k :: versions[j] == Restated(was[j], id, state)
        invariant forall j | k <= j < |was| :: versions[j] == was[j]
      {
        var v := versions[k];
        if v.id == id {
          versions := versions[k := v.(state := state)];
        } else if state == Active && v.state == Active {
          versions := versions[k := v.(state := Retired)];
        }
      }
      RestatedAll(was, versions, id, state);
    }

    method LinkDecision(id: string, decisionId: string) returns (ok: bool)
      requires Valid()
      modifies this`versions
      ensures Valid()
      ensures ok <==> Find(old(versions), id).Some?
      ensures versions == if ok then WithDecision(old(versions), id, decisionId) else old(versions)
    {
      ok := Find(versions, id).Some?;
      if !ok {
        return;
      }
      ghost var was := versions;
      for k := 0 to |versions|
        invariant |versions| == |was|
        invariant forall j | 0 <= j < k :: versions[j] == Linked(was[j], id, decisionId)
        invariant forall j | k <= j < |was| :: versions[j] == was[j]
      {
        if versions[k].id == id {
          versions := versions[k := versions[k].(decisionId := Some(decisionId))];
        }
      }
      assert versions == WithDecision(was, id, decisionId);
    }
  }

  // --- what the pipeline does to the chain ------------------------------------------------------

  datatype Verdict = Undecided | Refuted | Promoted

  /** The chain after a built candidate has been put to a validation run. */
  function Validated(
    vs: Versions, candidate: AgentVersion, baseline: Option<AgentVersion>, decisionId: string, verdict: Verdict)
    : Versions
  {
    var withCandidate := vs + [candidate];
    if verdict == Undecided then withCandidate
    else
      var linked := WithDecision(withCandidate, candidate.id, decisionId);
      if verdict == Refuted then WithState(linked, candidate.id, Rejected)
      else
        var activated := WithState(linked, candidate.id, Active);
        if baseline.Some? && Find(activated, baseline.value.id).Some?
        then WithState(activated, baseline.value.id, Retired)
        else activated
  }

  /** The chain after a verdict, version by version: the candidate stands at the end, undecided, rejected or
      active and linked to its decision; a promotion retires what was active and the baseline, and nothing
      else changes. */
  ghost predicate AfterVerdict(
    vs: Versions, ws: Versions, c: AgentVersion, baseline: Option<AgentVersion>, decisionId: string, verdict: Verdict)
  {
    && |ws| == |vs| + 1
    && (verdict == Undecided ==> ws[|vs|] == c)
    && (verdict == Refuted ==> ws[|vs|] == c.(state := Rejected, decisionId := Some(decisionId)))
    && (verdict == Promoted ==>
          var own := baseline.Some? && baseline.value.id == c.id;
          ws[|vs|] == c.(state := if own then Retired else Active, decisionId := Some(decisionId)))
    && (forall k | 0 <= k < |vs| :: ws[k] ==
          if verdict == Promoted && (vs[k].state == Active || (baseline.Some? && vs[k].id == baseline.value.id))
          then vs[k].(state := Retired) else vs[k])
  }

  /** Retiring a version of the chain an activation gave. */
  lemma RetiredAfter(activated: Versions, id: string)
    ensures var ws := if Find(activated, id).Some? then WithState(activated, id, Retired) else activated;
      && |ws| == |activated|
      && forall k | 0 <= k < |activated| :: ws[k] == Restated(activated[k], id, Retired)
  {
    hide WithState, Find;
  }

  lemma PromotedIs(vs: Versions, c: AgentVersion, baseline: Option<AgentVersion>, decisionId: string)
    requires Find(vs, c.id).None?
    ensures AfterVerdict(vs, Validated(vs, c, baseline, decisionId, Promoted), c, baseline, decisionId, Promoted)
  {
    hide WithState, WithDecision, Find;
    var activated := WithState(WithDecision(vs + [c], c.id, decisionId), c.id, Active);
    assert forall k | 0 <= k < |vs| ::
        activated[k] == if vs[k].state == Active then vs[k].(state := Retired) else vs[k];
    assert activated[|vs|] == c.(state := Active, decisionId := Some(decisionId));
    if baseline.Some? { RetiredAfter(activated, baseline.value.id); }
  }

  lemma ValidatedIs(
    vs: Versions, c: AgentVersion, baseline: Option<AgentVersion>, decisionId: string, verdict: Verdict)
    requires Find(vs, c.id).None?
    ensures AfterVerdict(vs, Validated(vs, c, baseline, decisionId, verdict), c, baseline, decisionId, verdict)
  {
    hide WithState, WithDecision, Find;
    if verdict == Promoted { PromotedIs(vs, c, baseline, decisionId); }
  }

  datatype RollbackRefusal = NothingActive | NoParent | ParentMissing

  function RollbackRefusalOf(vs: Versions): Option<RollbackRefusal> {
    var active := ActiveOf(vs);
    if active.None? then Some(NothingActive)
    else if active.value.parentId.None? then Some(NoParent)
    else if Find(vs, active.value.parentId.value).None? then Some(ParentMissing)
    else None
  }

  /** The chain after a rollback: a refused one leaves it alone. */
  function RolledBack(vs: Versions): Versions {
    if RollbackRefusalOf(vs).Some? then vs
    else
      var active := ActiveOf(vs).value;
      WithState(WithState(vs, active.id, Retired), active.parentId.value, Active)
  }

  /** What a rollback does, version by version: it is refused, changing nothing, when nothing is active or the
      active version's parent is not named or not stored; otherwise that parent becomes active and whatever
      else was active is retired. */
  ghost predicate AfterRollback(vs: Versions, ws: Versions, refusal: Option<RollbackRefusal>) {
    && (refusal == Some(NothingActive) <==> forall j | 0 <= j < |vs| :: vs[j].state != Active)
    && (refusal.Some? ==> ws == vs)
    && forall k | IsFirstActive(vs, k) ::
         && (refusal == Some(NoParent) <==> vs[k].parentId.None?)
         && (refusal == Some(ParentMissing) <==>
               vs[k].parentId.Some? && forall j | 0 <= j < |vs| :: vs[j].id != vs[k].parentId.value)
         && (refusal.None? ==>
               && |ws| == |vs| && vs[k].parentId.Some?
               && forall j | 0 <= j < |vs| :: ws[j] ==
                    if vs[j].id == vs[k].parentId.value then vs[j].(state := Active)
                    else if vs[j].state == Active then vs[j].(state := Retired)
                    else vs[j])
  }

  lemma RollbackIs(vs: Versions)
    requires DistinctIds(vs)
    ensures AfterRollback(vs, RolledBack(vs), RollbackRefusalOf(vs))
  {
    hide WithState, Find, ActiveIndex;
    forall k | IsFirstActive(vs, k) ensures ActiveOf(vs) == Some(vs[k]) { FirstActive(vs, k); }
    if ActiveIndex(vs) < |vs| { assert IsFirstActive(vs, ActiveIndex(vs)); }
  }

  method Rollback(store: MemoryConfigStore) returns (refusal: Option<RollbackRefusal>)
    requires store.Valid()
    modifies store`versions
    ensures store.Valid()
    ensures refusal == RollbackRefusalOf(old(store.versions))
    ensures store.versions == RolledBack(old(store.versions))
    ensures AfterRollback(old(store.versions), store.versions, refusal)
  {
    RollbackIs(store.versions);
    hide AfterRollback;
    var active := store.ActiveVersion();
    if active.None? {
      return Some(NothingActive);
    }
    if active.value.parentId.None? {
      return Some(NoParent);
    }
    var parent := store.GetVersion(active.value.parentId.value);
    if parent.None? {
      return Some(ParentMissing);
    }
    FindAfterState(store.versions, active.value.id, Retired, parent.value.id);
    var retired := store.SetState(active.value.id, Retired);
    var restored := store.SetState(parent.value.id, Active);
    refusal := None;
  }

  // --- lookups under updates --------------------------------------------------------------------

  lemma FindUnique(vs: Versions, k: nat)
    requires k < |vs| && DistinctIds(vs)
    ensures Find(vs, vs[k].id) == Some(vs[k])
  {
    var v := Find(vs, vs[k].id);
    assert v.Some?;
    var j :| 0 <= j < |vs| && vs[j] == v.value;
  }

  lemma FindAfterState(vs: Versions, id: string, state: VersionState, other: string)
    ensures Find(WithState(vs, id, state), other).Some? <==> Find(vs, other).Some?
  {
    var ws := WithState(vs, id, state);
    assert |ws| == |vs| && forall k | 0 <= k < |vs| :: ws[k].id == vs[k].id;
    hide WithState;
    if Find(vs, other).Some? {
      var k :| 0 <= k < |vs| && vs[k] == Find(vs, other).value;
      assert ws[k].id == other;
    }
    if Find(ws, other).Some? {
      var k :| 0 <= k < |ws| && ws[k] == Find(ws, other).value;
      assert vs[k].id == other;
    }
  }
}
