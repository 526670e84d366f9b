/** The model artifact registry (detection/artifact_lifecycle.py).

    A family is the list of records of one name in dictionary order; the manifest
    file is the copy of the registry that `_save` last wrote. */
module ArtifactLifecycle {
  import opened Common

  datatype Stage = Staged | Validated | Promoted | Deprecated | RolledBack

  function LegalTransitions(from: Stage): set<Stage> {
    match from
    case Staged => {Validated, Deprecated}
    case Validated => {Promoted, Deprecated}
    case Promoted => {Deprecated, RolledBack}
    case Deprecated => {}
    case RolledBack => {Staged}
  }

  datatype Change = Change(stage: Stage, reason: Option<string>)

  datatype Record = Record(
    version: string,
    sha256: string,
    stage: Stage,
    parent: Option<string>,
    rollbackReason: Option<string>,
    history: seq<Change>)

  type Family = seq<Record>

  datatype Error =
    | FileNotFound
    | ArtifactNotFound(version: Option<string>)
    | InvalidTransition(current: Stage, target: Stage)
    | TrustVerificationRequired
    | TrustVerificationFailed

  /** How the trust verifier answers for the record at hand. */
  datatype Verdict = NoVerifier | Raises | Passes

  // ------------------------------------------------------------ one family

  /** The position of a version, or the length of the family. */
  function Find(fam: Family, version: string): (i: nat)
    ensures i <= |fam|
    ensures i < |fam| ==> fam[i].version == version
    ensures forall j :: 0 <= j < i ==> fam[j].version != version
  {
    if fam == [] || fam[0].version == version then 0 else 1 + Find(fam[1..], version)
  }

  /** The first promoted record in dictionary order, or the length of the family. */
  function ActiveIndex(fam: Family): (i: nat)
    ensures i <= |fam|
    ensures i < |fam| ==> fam[i].stage == Promoted
    ensures forall j :: 0 <= j < i ==> fam[j].stage != Promoted
  {
    if fam == [] || fam[0].stage == Promoted then 0 else 1 + ActiveIndex(fam[1..])
  }

  function Moved(r: Record, target: Stage, reason: Option<string>): Record {
    r.(stage := target, history := r.history + [Change(target, reason)])
  }

  /** The new family, what `_save` wrote of it (if anything), and the answer. */
  datatype Effect = Effect(family: Family, saved: Option<Family>, result: Result<string, Error>)

  function Failed(fam: Family, e: Error): Effect {
    Effect(fam, None, Err(e))
  }

  function RegisterIn(fam: Family, version: string, sha256: string): Effect {
    var active := ActiveIndex(fam);
    var parent := if active < |fam| then Some(fam[active].version) else None;
    var r := Record(version, sha256, Staged, parent, None, [Change(Staged, None)]);
    var i := Find(fam, version);
    var after := if i < |fam| then fam[i := r] else fam + [r];
    Effect(after, Some(after), Ok(version))
  }

  function TransitionIn(fam: Family, version: string, target: Stage, reason: Option<string>): Effect {
    var i := Find(fam, version);
    if i == |fam| then Failed(fam, ArtifactNotFound(Some(version)))
    else if target !in LegalTransitions(fam[i].stage) then Failed(fam, InvalidTransition(fam[i].stage, target))
    else
      var after := fam[i := Moved(fam[i], target, reason)];
      Effect(after, Some(after), Ok(version))
  }

  function Superseded(r: Record, version: string): Record {
    if r.stage == Promoted && r.version != version then Moved(r, Deprecated, Some("superseded")) else r
  }

  /** Every promoted record other than `version`, demoted. */
  function Demoted(fam: Family, version: string): (r: Family)
    ensures |r| == |fam|
  {
    seq(|fam|, i requires 0 <= i < |fam| => Superseded(fam[i], version))
  }

  /** The first `n` records have been looked at by the demotion loop. */
  ghost predicate HalfDemoted(fam: Family, now: Family, version: string, n: nat) {
    |now| == |fam| && forall j :: 0 <= j < |fam| ==> now[j] == if j < n then Superseded(fam[j], version) else fam[j]
  }

  /** The demotion precedes the transition that may still raise. */
  function PromoteIn(fam: Family, version: string, verdict: Verdict): Effect {
    if Find(fam, version) == |fam| then Failed(fam, ArtifactNotFound(Some(version)))
    else if verdict == NoVerifier then Failed(fam, TrustVerificationRequired)
    else if verdict == Raises then Failed(fam, TrustVerificationFailed)
    else TransitionIn(Demoted(fam, version), version, Promoted, None)
  }

  predicate Reactivatable(r: Record) {
    r.stage == Deprecated || r.stage == Validated
  }

  const REACTIVATION := Some("rollback_reactivation")

  function Reactivate(fam: Family, saved: Family, version: string): Effect {
    var i := Find(fam, version);
    if i == |fam| then Effect(fam, Some(saved), Err(ArtifactNotFound(Some(version))))
    else
      var after := if Reactivatable(fam[i]) then fam[i := Moved(fam[i], Promoted, REACTIVATION)] else fam;
      Effect(after, Some(after), Ok(version))
  }

  /** What follows the transition of `version` to ROLLED_BACK, which has been saved as `fam`. */
  function AfterRollback(fam: Family, version: string, reason: Option<string>): Effect
    requires Find(fam, version) < |fam|
  {
    var j := Find(fam, version);
    var noted := fam[j := fam[j].(rollbackReason := reason)];
    if fam[j].parent.Some? && fam[j].parent.value != "" then
      var last := Reactivate(noted, fam, fam[j].parent.value);
      if last.result.Ok? then last.(result := Ok(version)) else last
    else Effect(noted, Some(noted), Ok(version))
  }

  lemma TransitionKeepsVersions(fam: Family, version: string, target: Stage, reason: Option<string>)
    ensures Find(TransitionIn(fam, version, target, reason).family, version) == Find(fam, version)
    ensures |TransitionIn(fam, version, target, reason).family| == |fam|
  {
    FindUnchanged(fam, TransitionIn(fam, version, target, reason).family, version);
  }

  lemma {:induction false} FindUnchanged(a: Family, b: Family, version: string)
    requires |a| == |b| && forall i :: 0 <= i < |a| ==> a[i].version == b[i].version
    ensures Find(a, version) == Find(b, version)
  {
    if a != [] {
      FindUnchanged(a[1..], b[1..], version);
    }
  }

  lemma FindPresent(fam: Family, i: nat)
    requires i < |fam|
    ensures Find(fam, fam[i].version) < |fam|
  {
  }

  /** The version to roll back: the given one, or the active one when none (or an empty one) is given. */
  function RollbackTarget(fam: Family, version: Option<string>): nat {
    if version.Some? && version.value != "" then Find(fam, version.value) else ActiveIndex(fam)
  }

  function RollbackIn(fam: Family, version: Option<string>, reason: Option<string>): Effect {
    var i := RollbackTarget(fam, version);
    if i >= |fam| then
      Failed(fam, ArtifactNotFound(if version.Some? && version.value != "" then version else None))
    else
      var moved := TransitionIn(fam, fam[i].version, RolledBack, reason);
      FindPresent(fam, i);
      TransitionKeepsVersions(fam, fam[i].version, RolledBack, reason);
      if moved.result.Err? then moved else AfterRollback(moved.family, fam[i].version, reason)
  }

  // ------------------------------------------------------------- the registry

  type Data = map<string, Family>

  function FamilyOf(data: Data, name: string): Family {
    if name in data then data[name] else []
  }

  /** The registry in memory and the manifest on disk. */
  datatype State = State(memory: Data, disk: Data)

  ghost function Applied(s: State, name: string, e: Effect): State {
    State(if name in s.memory || e.result.Ok? then s.memory[name := e.family] else s.memory,
          if e.saved.Some? then s.memory[name := e.saved.value] else s.disk)
  }

  lemma RollbackContinues(fam: Family, version: Option<string>, reason: Option<string>)
    requires RollbackTarget(fam, version) < |fam|
    ensures var target := fam[RollbackTarget(fam, version)].version;
            var moved := TransitionIn(fam, target, RolledBack, reason);
            if moved.result.Err? then RollbackIn(fam, version, reason) == moved
            else Find(moved.family, target) < |moved.family| &&
                 RollbackIn(fam, version, reason) == AfterRollback(moved.family, target, reason)
  {
    var i := RollbackTarget(fam, version);
    FindPresent(fam, i);
    TransitionKeepsVersions(fam, fam[i].version, RolledBack, reason);
  }

  /** An effect that was saved, on a family that was rewritten before. */
  lemma AppliedSaved(s: State, name: string, fam: Family, e: Effect)
    requires name in s.memory && e.saved.Some?
    ensures var m := s.memory[name := fam];
            Applied(s, name, e) == State(m[name := e.family], m[name := e.saved.value])
  {
    assert s.memory[name := fam][name := e.family] == s.memory[name := e.family];
    assert s.memory[name := fam][name := e.saved.value] == s.memory[name := e.saved.value];
  }

  /** A rollback is the transition followed by the rest, on the family the transition left. */
  lemma RollbackComposes(s: State, name: string, version: Option<string>, reason: Option<string>)
    requires RollbackTarget(FamilyOf(s.memory, name), version) < |FamilyOf(s.memory, name)|
    ensures var fam := FamilyOf(s.memory, name);
            var target := fam[RollbackTarget(fam, version)].version;
            var moved := TransitionIn(fam, target, RolledBack, reason);
            if moved.result.Err? then RollbackIn(fam, version, reason) == moved
            else
              && Find(moved.family, target) < |moved.family|
              && RollbackIn(fam, version, reason) == AfterRollback(moved.family, target, reason)
              && var e := AfterRollback(moved.family, target, reason);
                 var m := s.memory[name := moved.family];
                 Applied(s, name, e) == State(m[name := e.family], m[name := e.saved.value])
  {
    var fam := FamilyOf(s.memory, name);
    var target := fam[RollbackTarget(fam, version)].version;
    var moved := TransitionIn(fam, target, RolledBack, reason);
    RollbackContinues(fam, version, reason);
    if moved.result.Ok? {
      AppliedSaved(s, name, moved.family, AfterRollback(moved.family, target, reason));
    }
  }

  /** An effect on a family that was rewritten in memory alone is the effect itself. */
  lemma AppliedTwice(s: State, name: string, fam: Family, e: Effect)
    requires name in s.memory
    ensures Applied(State(s.memory[name := fam], s.disk), name, e) == Applied(s, name, e)
  {
    assert s.memory[name := fam][name := e.family] == s.memory[name := e.family];
    if e.saved.Some? {
      assert s.memory[name := fam][name := e.saved.value] == s.memory[name := e.saved.value];
    }
  }

  class ModelArtifactRegistry {
    var data: Data
    var manifest: Data

    ghost function Snapshot(): State
      reads this
    {
      State(data, manifest)
    }

    /** `_load`: an absent manifest file reads as an empty one. */
    constructor (manifest: Data)
      ensures Snapshot() == State(manifest, manifest)
    {
      this.data, this.manifest := manifest, manifest;
    }

    method Save()
      modifies this`manifest
      ensures manifest == data
    {
      manifest := data;
    }

    method SetRecord(name: string, i: nat, r: Record)
      requires name in data && i < |data[name]|
      modifies this`data
      ensures data == old(data)[name := old(data)[name][i := r]]
    {
      data := data[name := data[name][i := r]];
    }

    /** `generated` is the version id made from the clock and a UUID when none is given. */
    method Register(name: string, fileExists: bool, sha256: string, version: Option<string>, generated: string)
      returns (r: Result<string, Error>)
      modifies this
      ensures !fileExists ==> r == Err(FileNotFound) && Snapshot() == old(Snapshot())
      ensures fileExists ==>
                var id := if version.Some? && version.value != "" then version.value else generated;
                var e := RegisterIn(FamilyOf(old(data), name), id, sha256);
                r == e.result && Snapshot() == Applied(old(Snapshot()), name, e)
    {
      if !fileExists {
        return Err(FileNotFound);
      }
      var id := if version.Some? && version.value != "" then version.value else generated;
      var fam := FamilyOf(data, name);
      var active := GetActive(name);
      var parent := if active.Ok? then Some(active.value.version) else None;
      var entry := Record(id, sha256, Staged, parent, None, [Change(Staged, None)]);
      var i := Find(fam, id);
      data := data[name := if i < |fam| then fam[i := entry] else fam + [entry]];
      Save();
      return Ok(id);
    }

    method Transition(name: string, version: string, target: Stage, reason: Option<string>)
      returns (r: Result<string, Error>)
      modifies this
      ensures var e := TransitionIn(FamilyOf(old(data), name), version, target, reason);
              r == e.result && Snapshot() == Applied(old(Snapshot()), name, e)
    {
      var i := Find(FamilyOf(data, name), version);
      if i == |FamilyOf(data, name)| {
        return Err(ArtifactNotFound(Some(version)));
      }
      var entry := data[name][i];
      if target !in LegalTransitions(entry.stage) {
        return Err(InvalidTransition(entry.stage, target));
      }
      SetRecord(name, i, Moved(entry, target, reason));
      Save();
      return Ok(version);
    }

    method Validate(name: string, version: string) returns (r: Result<string, Error>)
      modifies this
      ensures var e := TransitionIn(FamilyOf(old(data), name), version, Validated, None);
              r == e.result && Snapshot() == Applied(old(Snapshot()), name, e)
    {
      r := Transition(name, version, Validated, None);
    }

    method Deprecate(name: string, version: string, reason: Option<string>) returns (r: Result<string, Error>)
      modifies this
      ensures var e := TransitionIn(FamilyOf(old(data), name), version, Deprecated, reason);
              r == e.result && Snapshot() == Applied(old(Snapshot()), name, e)
    {
      r := Transition(name, version, Deprecated, reason);
    }

    method Promote(name: string, version: string, verdict: Verdict) returns (r: Result<string, Error>)
      modifies this
      ensures var e := PromoteIn(FamilyOf(old(data), name), version, verdict);
              r == e.result && Snapshot() == Applied(old(Snapshot()), name, e)
    {
      var fam := FamilyOf(data, name);
      if Find(fam, version) == |fam| {
        return Err(ArtifactNotFound(Some(version)));
      }
      if verdict == NoVerifier {
        return Err(TrustVerificationRequired);
      }
      if verdict == Raises {
        return Err(TrustVerificationFailed);
      }
      ghost var s0 := Snapshot();
      DemoteOthers(name, version);
      AppliedTwice(s0, name, Demoted(fam, version), PromoteIn(fam, version, verdict));
      r := Transition(name, version, Promoted, None);
    }

    /** The loop of `promote` over the other versions, which nothing undoes or saves. */
    method DemoteOthers(name: string, version: string)
      requires name in data
      modifies this`data
      ensures data == old(data)[name := Demoted(old(data)[name], version)]
    {
      ghost var before, fam := data, data[name];
      for i := 0 to |data[name]|
        invariant name in data && data == before[name := data[name]]
        invariant HalfDemoted(fam, data[name], version, i)
      {
        DemoteOther(name, i, version);
      }
      assert data[name] == Demoted(fam, version);
    }

    method DemoteOther(name: string, i: nat, version: string)
      requires name in data && i < |data[name]|
      modifies this`data
      ensures data == old(data)[name := old(data)[name][i := Superseded(old(data)[name][i], version)]]
    {
      var other := data[name][i];
      if other.stage == Promoted && other.version != version {
        SetRecord(name, i, Moved(other, Deprecated, Some("superseded")));
      } else {
        assert data[name][i := other] == data[name];
      }
    }

    method Rollback(name: string, version: Option<string>, reason: Option<string>) returns (r: Result<string, Error>)
      modifies this
      ensures var e := RollbackIn(FamilyOf(old(data), name), version, reason);
              r == e.result && Snapshot() == Applied(old(Snapshot()), name, e)
    {
      ghost var s0 := Snapshot();
      var fam := FamilyOf(data, name);
      var i := RollbackTarget(fam, version);
      if i >= |fam| {
        return Err(ArtifactNotFound(if version.Some? && version.value != "" then version else None));
      }
      var target := fam[i].version;
      RollbackComposes(s0, name, version, reason);
      r := Transition(name, target, RolledBack, reason);
      if r.Ok? {
        r := FinishRollback(name, target, reason);
      }
    }

    method FinishRollback(name: string, version: string, reason: Option<string>) returns (r: Result<string, Error>)
      requires name in data && manifest == data && Find(data[name], version) < |data[name]|
      modifies this
      ensures var e := AfterRollback(old(data)[name], version, reason);
              r == e.result && data == old(data)[name := e.family] && manifest == old(data)[name := e.saved.value]
    {
      ghost var fam := data[name];
      var j := Find(data[name], version);
      SetRecord(name, j, data[name][j].(rollbackReason := reason));
      var parent := data[name][j].parent;
      if parent.Some? && parent.value != "" {
        var reactivated := ReactivateParent(name, parent.value);
        if reactivated.Err? {
          assert manifest == old(data)[name := fam];
          return reactivated;
        }
      }
      Save();
      return Ok(version);
    }

    method ReactivateParent(name: string, version: string) returns (r: Result<string, Error>)
      requires name in data
      modifies this`data
      ensures var e := Reactivate(old(data)[name], [], version);
              r == e.result && data == old(data)[name := e.family]
    {
      var k := Find(data[name], version);
      if k == |data[name]| {
        return Err(ArtifactNotFound(Some(version)));
      }
      if Reactivatable(data[name][k]) {
        SetRecord(name, k, Moved(data[name][k], Promoted, REACTIVATION));
      }
      return Ok(version);
    }

    method GetActive(name: string) returns (r: Result<Record, Error>)
      ensures var fam := FamilyOf(data, name);
              r == if ActiveIndex(fam) < |fam| then Ok(fam[ActiveIndex(fam)]) else Err(ArtifactNotFound(None))
    {
      var fam := FamilyOf(data, name);
      var i := 0;
      while i < |fam|
        invariant 0 <= i <= ActiveIndex(fam)
      {
        if fam[i].stage == Promoted {
          return Ok(fam[i]);
        }
        i := i + 1;
      }
      return Err(ArtifactNotFound(None));
    }
  }

  // ------------------------------------------------- what one call preserves

  datatype Call =
    | RegisterVersion(version: string, sha256: string)
    | ValidateVersion(version: string)
    | DeprecateVersion(version: string, reason: Option<string>)
    | PromoteVersion(version: string, verdict: Verdict)
    | RollbackVersion(target: Option<string>, reason: Option<string>)

  ghost function EffectOf(fam: Family, call: Call): Effect {
    match call
    case RegisterVersion(version, sha256) => RegisterIn(fam, version, sha256)
    case ValidateVersion(version) => TransitionIn(fam, version, Validated, None)
    case DeprecateVersion(version, reason) => TransitionIn(fam, version, Deprecated, reason)
    case PromoteVersion(version, verdict) => PromoteIn(fam, version, verdict)
    case RollbackVersion(target, reason) => RollbackIn(fam, target, reason)
  }

  predicate Known(fam: Family, version: string) {
    Find(fam, version) < |fam|
  }

  /** Versions are distinct keys and every recorded parent is one of them. */
  ghost predicate Keyed(fam: Family) {
    && (forall i, j :: 0 <= i < j < |fam| ==> fam[i].version != fam[j].version)
    && (forall i :: 0 <= i < |fam| && fam[i].parent.Some? ==> Known(fam, fam[i].parent.value))
  }

  ghost predicate AtMostOneActive(fam: Family) {
    forall i, j :: 0 <= i < j < |fam| ==> !(fam[i].stage == Promoted && fam[j].stage == Promoted)
  }

  /** The same records by version and parent. */
  ghost predicate SameKeys(a: Family, b: Family) {
    |a| == |b| && forall i :: 0 <= i < |a| ==> a[i].version == b[i].version && a[i].parent == b[i].parent
  }

  lemma SameKeysKeyed(a: Family, b: Family)
    requires Keyed(a) && SameKeys(a, b)
    ensures Keyed(b)
  {
    forall i | 0 <= i < |b| && b[i].parent.Some?
      ensures Known(b, b[i].parent.value)
    {
      FindUnchanged(a, b, a[i].parent.value);
      assert Known(a, a[i].parent.value);
    }
  }

  lemma FindIs(fam: Family, i: nat)
    requires Keyed(fam) && i < |fam|
    ensures Find(fam, fam[i].version) == i
  {
    var k := Find(fam, fam[i].version);
    FindPresent(fam, i);
  }

  /** What a plain transition does: it fails and changes nothing, or it moves one record along a legal edge. */
  lemma TransitionShape(fam: Family, version: string, target: Stage, reason: Option<string>)
    ensures var e := TransitionIn(fam, version, target, reason);
            var i := Find(fam, version);
            if i < |fam| && target in LegalTransitions(fam[i].stage)
            then e == Effect(fam[i := Moved(fam[i], target, reason)], Some(e.family), Ok(version))
            else e.family == fam && e.saved == None && e.result.Err?
  {
  }

  /** What a rollback does: it fails and changes nothing, or the promoted record `i` becomes rolled back,
      and its parent `k`, if it is deprecated or validated, becomes promoted. */
  ghost predicate RolledBackTo(fam: Family, after: Family, i: nat) {
    && i < |fam| && SameKeys(fam, after)
    && fam[i].stage == Promoted && after[i].stage == RolledBack
    && (forall k :: 0 <= k < |fam| && k != i ==>
          if Some(fam[k].version) == fam[i].parent && fam[k].version != "" && Reactivatable(fam[k])
          then after[k] == Moved(fam[k], Promoted, REACTIVATION)
          else after[k] == fam[k])
  }

  lemma ReactivateShape(fam: Family, saved: Family, version: string)
    requires Keyed(fam) && Known(fam, version)
    ensures var e := Reactivate(fam, saved, version);
            && e.result.Ok? && e.saved == Some(e.family) && |e.family| == |fam|
            && forall k :: 0 <= k < |fam| ==>
                 e.family[k] == if fam[k].version == version && Reactivatable(fam[k])
                                then Moved(fam[k], Promoted, REACTIVATION) else fam[k]
  {
    var i := Find(fam, version);
    forall k | 0 <= k < |fam| && k != i
      ensures fam[k].version != version
    {
    }
  }

  lemma AfterRollbackShape(fam: Family, version: string, reason: Option<string>)
    requires Keyed(fam) && Known(fam, version) && fam[Find(fam, version)].stage == RolledBack
    ensures var e := AfterRollback(fam, version, reason);
            var i := Find(fam, version);
            && e.result == Ok(version) && e.saved == Some(e.family) && |e.family| == |fam|
            && e.family[i] == fam[i].(rollbackReason := reason)
            && forall k :: 0 <= k < |fam| && k != i ==>
                 if Some(fam[k].version) == fam[i].parent && fam[k].version != "" && Reactivatable(fam[k])
                 then e.family[k] == Moved(fam[k], Promoted, REACTIVATION)
                 else e.family[k] == fam[k]
  {
    var i := Find(fam, version);
    var noted := fam[i := fam[i].(rollbackReason := reason)];
    SameKeysKeyed(fam, noted);
    if fam[i].parent.Some? {
      FindUnchanged(fam, noted, fam[i].parent.value);
      ReactivateShape(noted, fam, fam[i].parent.value);
    }
  }

  lemma RollbackUnfolds(fam: Family, target: Option<string>, reason: Option<string>, i: nat)
    requires Keyed(fam) && i == RollbackTarget(fam, target)
    ensures i >= |fam| || fam[i].stage != Promoted ==>
              var e := RollbackIn(fam, target, reason);
              e.result.Err? && e.family == fam && e.saved == None
    ensures i < |fam| && fam[i].stage == Promoted ==>
              var moved := fam[i := Moved(fam[i], RolledBack, reason)];
              && Keyed(moved) && Known(moved, fam[i].version) && Find(moved, fam[i].version) == i
              && RollbackIn(fam, target, reason) == AfterRollback(moved, fam[i].version, reason)
  {
    if i < |fam| {
      FindIs(fam, i);
      TransitionShape(fam, fam[i].version, RolledBack, reason);
      if fam[i].stage == Promoted {
        var moved := fam[i := Moved(fam[i], RolledBack, reason)];
        SameKeysKeyed(fam, moved);
        FindUnchanged(fam, moved, fam[i].version);
      }
    }
  }

  lemma RollbackShape(fam: Family, target: Option<string>, reason: Option<string>) returns (i: nat)
    requires Keyed(fam)
    ensures i == RollbackTarget(fam, target)
    ensures RollbackIn(fam, target, reason).result.Ok? <==> i < |fam| && fam[i].stage == Promoted
    ensures var e := RollbackIn(fam, target, reason);
            if e.result.Err? then e.family == fam && e.saved == None
            else RolledBackTo(fam, e.family, i) && e.saved == Some(e.family)
  {
    i := RollbackTarget(fam, target);
    RollbackUnfolds(fam, target, reason, i);
    if i < |fam| && fam[i].stage == Promoted {
      var moved := fam[i := Moved(fam[i], RolledBack, reason)];
      var e := AfterRollback(moved, fam[i].version, reason);
      AfterRollbackShape(moved, fam[i].version, reason);
      assert e.family[i] == moved[i].(rollbackReason := reason);
      assert RolledBackTo(fam, e.family, i);
    }
  }

  /** What a promotion does when the verifier passes on a registered version. */
  lemma PromoteShape(fam: Family, version: string, verdict: Verdict)
    requires Keyed(fam)
    ensures var e := PromoteIn(fam, version, verdict);
            var i := Find(fam, version);
            if i == |fam| || verdict != Passes then e.result.Err? && e.family == fam && e.saved == None
            else if fam[i].stage == Validated then
              e.result == Ok(version) && e.saved == Some(e.family) &&
              e.family == Demoted(fam, version)[i := Moved(fam[i], Promoted, None)]
            else
              e.result == Err(InvalidTransition(fam[i].stage, Promoted)) && e.saved == None &&
              e.family == Demoted(fam, version)
  {
    var d, i := Demoted(fam, version), Find(fam, version);
    FindUnchanged(fam, d, version);
    TransitionShape(d, version, Promoted, None);
    if i < |fam| {
      assert d[i] == fam[i];
      assert Promoted in LegalTransitions(fam[i].stage) <==> fam[i].stage == Validated;
    }
  }

  /** After a successful promotion the promoted version is the one active version. */
  lemma PromotionIsActive(fam: Family, version: string, verdict: Verdict)
    requires Keyed(fam) && PromoteIn(fam, version, verdict).result.Ok?
    ensures var after := PromoteIn(fam, version, verdict).family;
            ActiveIndex(after) < |after| && after[ActiveIndex(after)].version == version &&
            forall j :: 0 <= j < |after| && after[j].stage == Promoted ==> after[j].version == version
  {
    PromoteShape(fam, version, verdict);
    var after := PromoteIn(fam, version, verdict).family;
    assert after[Find(fam, version)].stage == Promoted;
  }

  /** A promotion that raises is not always without effect: it leaves the family unchanged exactly when
      the verifier did not pass, the version is unknown, or no other version is active.  Otherwise the
      active version is demoted in memory while the manifest keeps it promoted. */
  lemma FailedPromotionDemotes(fam: Family, version: string, verdict: Verdict)
    requires Keyed(fam) && PromoteIn(fam, version, verdict).result.Err?
    ensures PromoteIn(fam, version, verdict).saved == None
    ensures PromoteIn(fam, version, verdict).family == fam <==>
            verdict != Passes || Find(fam, version) == |fam| ||
            forall j :: 0 <= j < |fam| && fam[j].stage == Promoted ==> fam[j].version == version
  {
    PromoteShape(fam, version, verdict);
    if j :| 0 <= j < |fam| && fam[j].stage == Promoted && fam[j].version != version {
      assert Demoted(fam, version)[j].stage == Deprecated;
    } else {
      assert Demoted(fam, version) == fam;
    }
  }

  lemma CallKeepsKeys(fam: Family, call: Call)
    requires Keyed(fam)
    ensures var e := EffectOf(fam, call);
            && Keyed(e.family) && (e.saved.Some? ==> e.saved.value == e.family)
            && (!call.RegisterVersion? ==> SameKeys(fam, e.family))
            && (e.saved == None ==> e.result.Err? && SameKeys(fam, e.family))
  {
    var after := EffectOf(fam, call).family;
    match call
    case RegisterVersion(version, _) => RegisterKeyed(fam, version, call.sha256);
    case ValidateVersion(version) =>
      TransitionShape(fam, version, Validated, None);
      SameKeysKeyed(fam, after);
    case DeprecateVersion(version, reason) =>
      TransitionShape(fam, version, Deprecated, reason);
      SameKeysKeyed(fam, after);
    case PromoteVersion(version, verdict) =>
      PromoteShape(fam, version, verdict);
      SameKeysKeyed(fam, after);
    case RollbackVersion(target, reason) =>
      var i := RollbackShape(fam, target, reason);
      SameKeysKeyed(fam, after);
  }

  lemma RegisterKeyed(fam: Family, version: string, sha256: string)
    requires Keyed(fam)
    ensures Keyed(RegisterIn(fam, version, sha256).family)
  {
    var after := RegisterIn(fam, version, sha256).family;
    forall i | 0 <= i < |after| && after[i].parent.Some?
      ensures Known(after, after[i].parent.value)
    {
      var active := ActiveIndex(fam);
      if i < |fam| && after[i] == fam[i] {
        assert Known(fam, fam[i].parent.value);
        StillKnown(fam, after, fam[i].parent.value);
      } else {
        FindPresent(fam, active);
        StillKnown(fam, after, fam[active].version);
      }
    }
  }

  lemma StillKnown(fam: Family, after: Family, version: string)
    requires Known(fam, version) && |fam| <= |after|
    requires forall i :: 0 <= i < |fam| ==> after[i].version == fam[i].version
    ensures Known(after, version)
  {
    assert after[Find(fam, version)].version == version;
    FindPresent(after, Find(fam, version));
  }

  lemma OnlyActive(fam: Family, i: nat)
    requires AtMostOneActive(fam) && i < |fam| && fam[i].stage == Promoted
    ensures forall j :: 0 <= j < |fam| && j != i ==> fam[j].stage != Promoted
  {
  }

  lemma RollbackKeepsOneActive(fam: Family, after: Family, i: nat)
    requires Keyed(fam) && AtMostOneActive(fam) && RolledBackTo(fam, after, i)
    ensures AtMostOneActive(after)
  {
    OnlyActive(fam, i);
    assert forall j :: 0 <= j < |after| && after[j].stage == Promoted ==> Some(fam[j].version) == fam[i].parent;
  }

  lemma PromoteKeepsOneActive(fam: Family, version: string, verdict: Verdict)
    requires Keyed(fam) && AtMostOneActive(fam)
    ensures AtMostOneActive(PromoteIn(fam, version, verdict).family)
  {
    PromoteShape(fam, version, verdict);
  }

  /** No call, successful or not, ever makes two versions of one name active. */
  lemma CallKeepsOneActive(fam: Family, call: Call)
    requires Keyed(fam) && AtMostOneActive(fam)
    ensures AtMostOneActive(EffectOf(fam, call).family)
  {
    match call
    case RegisterVersion(version, _) =>
    case ValidateVersion(version) => TransitionShape(fam, version, Validated, None);
    case DeprecateVersion(version, reason) => TransitionShape(fam, version, Deprecated, reason);
    case PromoteVersion(version, verdict) => PromoteKeepsOneActive(fam, version, verdict);
    case RollbackVersion(target, reason) =>
      var i := RollbackShape(fam, target, reason);
      if RollbackIn(fam, target, reason).result.Ok? {
        RollbackKeepsOneActive(fam, RollbackIn(fam, target, reason).family, i);
      }
  }

  // -------------------------------------------------------- trust in one call

  /** The record's own history shows a promotion that went through `promote`, and so through the verifier. */
  ghost predicate Proven(r: Record) {
    Change(Promoted, None) in r.history
  }

  ghost predicate AllProven(fam: Family) {
    forall i :: 0 <= i < |fam| && fam[i].stage == Promoted ==> Proven(fam[i])
  }

  lemma MovedProven(r: Record, target: Stage, reason: Option<string>)
    ensures Proven(Moved(r, target, reason)) <==> Proven(r) || (target == Promoted && reason == None)
  {
    var h := Moved(r, target, reason).history;
    assert h[|h| - 1] == Change(target, reason);
    assert forall c :: c in h <==> c in r.history || c == Change(target, reason);
  }

  /** `rollback` re-activates a parent without asking the verifier.  From a family in which every active
      record is proven, it leaves such a family exactly unless it goes through and the parent it would
      re-activate was itself never promoted through `promote`. */
  lemma RollbackTrustIff(fam: Family, target: Option<string>, reason: Option<string>)
    requires Keyed(fam) && AtMostOneActive(fam) && AllProven(fam)
    ensures var i := RollbackTarget(fam, target);
            AllProven(RollbackIn(fam, target, reason).family) <==>
            !(i < |fam| && fam[i].stage == Promoted &&
              exists k :: 0 <= k < |fam| && Some(fam[k].version) == fam[i].parent && fam[k].version != "" &&
                Reactivatable(fam[k]) && !Proven(fam[k]))
  {
    var i := RollbackShape(fam, target, reason);
    var after := RollbackIn(fam, target, reason).family;
    if RollbackIn(fam, target, reason).result.Ok? {
      OnlyActive(fam, i);
      forall k | 0 <= k < |fam|
        ensures after[k].stage == Promoted && !Proven(after[k]) <==>
                Some(fam[k].version) == fam[i].parent && fam[k].version != "" &&
                Reactivatable(fam[k]) && !Proven(fam[k])
      {
        MovedProven(fam[k], Promoted, REACTIVATION);
      }
    }
  }

  // ------------------------------------------------------------- whole runs

  datatype Op = On(name: string, call: Call) | Reload

  ghost function Apply(s: State, op: Op): State {
    match op
    case On(name, call) => Applied(s, name, EffectOf(FamilyOf(s.memory, name), call))
    case Reload => State(s.disk, s.disk)
  }

  ghost function Run(ops: seq<Op>): State {
    if ops == [] then State(map[], map[]) else Apply(Run(ops[..|ops| - 1]), ops[|ops| - 1])
  }

  ghost function InMemory(ops: seq<Op>, name: string): Family {
    FamilyOf(Run(ops).memory, name)
  }

  ghost function OnDisk(ops: seq<Op>, name: string): Family {
    FamilyOf(Run(ops).disk, name)
  }

  /** The versions of `name` that passed the verifier since they were last registered. */
  ghost function Verified(ops: seq<Op>, name: string): set<string> {
    if ops == [] then {}
    else
      var before := ops[..|ops| - 1];
      VerifiedAfter(InMemory(before, name), Verified(before, name), name, ops[|ops| - 1])
  }

  ghost function VerifiedAfter(fam: Family, verified: set<string>, name: string, op: Op): set<string> {
    if op.Reload? || op.name != name then verified
    else match op.call
         case RegisterVersion(version, _) => verified - {version}
         case PromoteVersion(version, verdict) =>
           if verdict == Passes && Known(fam, version) then verified + {version} else verified
         case _ => verified
  }

  /** What holds of a name in memory and on disk after every run. */
  ghost predicate Sound(memory: Family, disk: Family, verified: set<string>) {
    && Keyed(memory) && Keyed(disk) && SameKeys(memory, disk)
    && AtMostOneActive(memory) && AtMostOneActive(disk)
    && Evident(memory, verified) && Evident(disk, verified)
  }

  /** A proven record really passed the verifier. */
  ghost predicate Evident(fam: Family, verified: set<string>) {
    forall i :: 0 <= i < |fam| && Proven(fam[i]) ==> fam[i].version in verified
  }

  /** How one operation changes the two copies of one name. */
  lemma ApplyToName(s: State, op: Op, name: string)
    requires Keyed(FamilyOf(s.memory, name))
    ensures var memory, disk := FamilyOf(s.memory, name), FamilyOf(s.disk, name);
            var after := Apply(s, op);
            if op.On? && op.name == name then
              var e := EffectOf(memory, op.call);
              && FamilyOf(after.memory, name) == e.family
              && FamilyOf(after.disk, name) == if e.saved.Some? then e.family else disk
            else if op.On? then
              && FamilyOf(after.memory, name) == memory
              && (FamilyOf(after.disk, name) == disk || FamilyOf(after.disk, name) == memory)
            else FamilyOf(after.memory, name) == disk && FamilyOf(after.disk, name) == disk
  {
    if op.On? && op.name == name {
      CallKeepsKeys(FamilyOf(s.memory, name), op.call);
    }
  }

  /** Apart from the record `i`, nothing becomes proven. */
  lemma ProvenElsewhere(fam: Family, after: Family, i: nat, verified: set<string>)
    requires SameKeys(fam, after) && Evident(fam, verified)
    requires forall k :: 0 <= k < |fam| && k != i && Proven(after[k]) ==> Proven(fam[k])
    requires i < |fam| && Proven(after[i]) ==> fam[i].version in verified
    ensures Evident(after, verified)
  {
    forall k | 0 <= k < |after| && Proven(after[k])
      ensures after[k].version in verified
    {
      if k != i {
        assert Proven(fam[k]);
      }
    }
  }

  lemma TransitionEvident(fam: Family, version: string, target: Stage, reason: Option<string>, verified: set<string>)
    requires Keyed(fam) && Evident(fam, verified)
    requires target == Promoted && reason == None ==> version in verified
    ensures Evident(TransitionIn(fam, version, target, reason).family, verified)
  {
    TransitionShape(fam, version, target, reason);
    var i := Find(fam, version);
    if i < |fam| {
      MovedProven(fam[i], target, reason);
      ProvenElsewhere(fam, TransitionIn(fam, version, target, reason).family, i, verified);
    }
  }

  lemma DemotedEvident(fam: Family, version: string, verified: set<string>)
    requires Evident(fam, verified)
    ensures Evident(Demoted(fam, version), verified)
  {
    forall k | 0 <= k < |fam|
      ensures Proven(Demoted(fam, version)[k]) ==> Proven(fam[k])
    {
      MovedProven(fam[k], Deprecated, Some("superseded"));
    }
    ProvenElsewhere(fam, Demoted(fam, version), |fam|, verified);
  }

  lemma RollbackEvident(fam: Family, target: Option<string>, reason: Option<string>, verified: set<string>)
    requires Keyed(fam) && Evident(fam, verified)
    ensures Evident(RollbackIn(fam, target, reason).family, verified)
  {
    var i := RollbackShape(fam, target, reason);
    if RollbackIn(fam, target, reason).result.Ok? {
      var after := RollbackIn(fam, target, reason).family;
      RollbackUnfolds(fam, target, reason, i);
      AfterRollbackShape(fam[i := Moved(fam[i], RolledBack, reason)], fam[i].version, reason);
      MovedProven(fam[i], RolledBack, reason);
      forall k | 0 <= k < |fam| && k != i
        ensures Proven(after[k]) ==> Proven(fam[k])
      {
        MovedProven(fam[k], Promoted, REACTIVATION);
      }
      ProvenElsewhere(fam, after, i, verified);
    }
  }

  lemma CallKeepsEvident(fam: Family, call: Call, verified: set<string>, name: string)
    requires Keyed(fam) && Evident(fam, verified)
    ensures Evident(EffectOf(fam, call).family, VerifiedAfter(fam, verified, name, On(name, call)))
  {
    match call
    case RegisterVersion(version, sha256) =>
      var after := RegisterIn(fam, version, sha256).family;
      forall i | 0 <= i < |after| && Proven(after[i])
        ensures after[i].version in verified - {version}
      {
        assert i < |fam| && after[i] == fam[i];
      }
    case ValidateVersion(version) => TransitionEvident(fam, version, Validated, None, verified);
    case DeprecateVersion(version, reason) => TransitionEvident(fam, version, Deprecated, reason, verified);
    case PromoteVersion(version, verdict) =>
      if Known(fam, version) && verdict == Passes {
        DemotedEvident(fam, version, verified);
        SameKeysKeyed(fam, Demoted(fam, version));
        TransitionEvident(Demoted(fam, version), version, Promoted, None, verified + {version});
      }
    case RollbackVersion(target, reason) => RollbackEvident(fam, target, reason, verified);
  }

  /** In every run, with any ids and with reloads and failing calls in between: at most one active version
      per name in memory and on disk, and a record whose history shows a promotion passed the verifier. */
  lemma {:induction false} RunsAreSound(ops: seq<Op>, name: string)
    ensures Sound(InMemory(ops, name), OnDisk(ops, name), Verified(ops, name))
  {
    if ops != [] {
      var before, op := ops[..|ops| - 1], ops[|ops| - 1];
      RunsAreSound(before, name);
      var memory, verified := InMemory(before, name), Verified(before, name);
      ApplyToName(Run(before), op, name);
      if op.On? && op.name == name {
        CallKeepsKeys(memory, op.call);
        CallKeepsOneActive(memory, op.call);
        CallKeepsEvident(memory, op.call, verified, name);
        SavedOrGrown(memory, OnDisk(before, name), op.call, verified, name);
      }
    }
  }

  /** What was not saved neither loses a key nor a verified version. */
  lemma SavedOrGrown(fam: Family, disk: Family, call: Call, verified: set<string>, name: string)
    requires Keyed(fam) && SameKeys(fam, disk) && Evident(disk, verified)
    ensures var e := EffectOf(fam, call);
            e.saved == None ==>
              SameKeys(e.family, disk) && Evident(disk, VerifiedAfter(fam, verified, name, On(name, call)))
  {
    CallKeepsKeys(fam, call);
  }

  // -------------------------------------------- trust over runs with any ids

  /** The rollback would re-activate a parent that was never promoted through `promote`. */
  ghost predicate ReactivatesUnproven(fam: Family, call: Call) {
    call.RollbackVersion? &&
    var i := RollbackTarget(fam, call.target);
    i < |fam| && fam[i].stage == Promoted &&
    exists k :: 0 <= k < |fam| && Some(fam[k].version) == fam[i].parent && fam[k].version != "" &&
      Reactivatable(fam[k]) && !Proven(fam[k])
  }

  lemma PromoteKeepsProven(fam: Family, version: string, verdict: Verdict)
    requires Keyed(fam) && AllProven(fam)
    ensures AllProven(PromoteIn(fam, version, verdict).family)
  {
    PromoteShape(fam, version, verdict);
    var i := Find(fam, version);
    if i < |fam| { MovedProven(fam[i], Promoted, None); }
  }

  /** Every other call, raising or not, keeps every active record proven. */
  lemma CallKeepsProvenIff(fam: Family, call: Call)
    requires Keyed(fam) && AtMostOneActive(fam) && AllProven(fam)
    ensures AllProven(EffectOf(fam, call).family) <==> !ReactivatesUnproven(fam, call)
  {
    match call
    case RegisterVersion(version, _) =>
    case ValidateVersion(version) => TransitionShape(fam, version, Validated, None);
    case DeprecateVersion(version, reason) => TransitionShape(fam, version, Deprecated, reason);
    case PromoteVersion(version, verdict) => PromoteKeepsProven(fam, version, verdict);
    case RollbackVersion(target, reason) => RollbackTrustIff(fam, target, reason);
  }

  /** Operation `u` is a rollback of `name` that re-activates an unproven parent. */
  ghost predicate BreaksTrust(ops: seq<Op>, u: nat, name: string)
    requires u < |ops|
  {
    ops[u].On? && ops[u].name == name && ReactivatesUnproven(InMemory(ops[..u], name), ops[u].call)
  }

  /** Every active record of `name`, in memory and in the manifest, shows its promotion. */
  ghost predicate ShowsTrust(ops: seq<Op>, name: string) {
    AllProven(InMemory(ops, name)) && AllProven(OnDisk(ops, name))
  }

  lemma LastKeepsTrustIff(ops: seq<Op>, name: string)
    requires ops != [] && ShowsTrust(ops[..|ops| - 1], name)
    ensures ShowsTrust(ops, name) <==> !BreaksTrust(ops, |ops| - 1, name)
  {
    var before, op := ops[..|ops| - 1], ops[|ops| - 1];
    RunsAreSound(before, name);
    ApplyToName(Run(before), op, name);
    if op.On? && op.name == name {
      CallKeepsProvenIff(InMemory(before, name), op.call);
      CallKeepsKeys(InMemory(before, name), op.call);
    }
  }

  ghost predicate AlwaysShowsTrust(ops: seq<Op>, name: string) {
    forall n :: 0 <= n <= |ops| ==> ShowsTrust(ops[..n], name)
  }

  ghost predicate NeverBreaksTrust(ops: seq<Op>, name: string) {
    forall u :: 0 <= u < |ops| ==> !BreaksTrust(ops, u, name)
  }

  lemma AlwaysStep(ops: seq<Op>, name: string)
    requires ops != []
    ensures AlwaysShowsTrust(ops, name) <==> AlwaysShowsTrust(ops[..|ops| - 1], name) && ShowsTrust(ops, name)
  {
    var before := ops[..|ops| - 1];
    assert ops[..|ops|] == ops;
    forall n | 0 <= n < |ops|
      ensures before[..n] == ops[..n]
    {
    }
  }

  lemma NeverStep(ops: seq<Op>, name: string)
    requires ops != []
    ensures NeverBreaksTrust(ops, name) <==>
            NeverBreaksTrust(ops[..|ops| - 1], name) && !BreaksTrust(ops, |ops| - 1, name)
  {
    var before := ops[..|ops| - 1];
    forall u: nat | u < |before|
      ensures BreaksTrust(before, u, name) <==> BreaksTrust(ops, u, name)
    {
      assert before[..u] == ops[..u];
    }
  }

  lemma AlwaysShowsNow(ops: seq<Op>, name: string)
    requires AlwaysShowsTrust(ops, name)
    ensures ShowsTrust(ops, name)
  {
    assert ops[..|ops|] == ops;
    assert ShowsTrust(ops[..|ops|], name);
  }

  /** With any ids, reused ones included, and with raising calls and reloads in between: at every moment of a run every
      active record shows its promotion, if and only if no rollback in it re-activates an unproven parent. */
  lemma {:induction false} RunsShowTrustIff(ops: seq<Op>, name: string)
    ensures AlwaysShowsTrust(ops, name) <==> NeverBreaksTrust(ops, name)
  {
    if ops == [] {
      assert ops[..0] == [] && ShowsTrust([], name);
    } else {
      var before := ops[..|ops| - 1];
      RunsShowTrustIff(before, name);
      AlwaysStep(ops, name);
      NeverStep(ops, name);
      if AlwaysShowsTrust(before, name) {
        AlwaysShowsNow(before, name);
        LastKeepsTrustIff(ops, name);
      }
    }
  }

  /** So with any ids, as long as no rollback re-activates an unproven parent, every active record passed the
      verifier. */
  lemma UnbrokenRunsAreTrusted(ops: seq<Op>, name: string, i: nat)
    requires NeverBreaksTrust(ops, name)
    requires i < |InMemory(ops, name)| && InMemory(ops, name)[i].stage == Promoted
    ensures InMemory(ops, name)[i].version in Verified(ops, name)
  {
    RunsShowTrustIff(ops, name);
    AlwaysShowsNow(ops, name);
    RunsAreSound(ops, name);
  }

  // ------------------------------------------------------ runs with fresh ids

  /** No version id is registered twice under one name. */
  ghost predicate FreshIds(ops: seq<Op>) {
    ops == [] ||
    (var before, op := ops[..|ops| - 1], ops[|ops| - 1];
     FreshIds(before) &&
     (op.On? && op.call.RegisterVersion? ==> !Known(InMemory(before, op.name), op.call.version)))
  }

  ghost function Registrations(ops: seq<Op>, name: string): nat {
    if ops == [] then 0
    else
      var op := ops[|ops| - 1];
      Registrations(ops[..|ops| - 1], name) + if op.On? && op.name == name && op.call.RegisterVersion? then 1 else 0
  }

  /** The rollbacks of `name` that returned without raising. */
  ghost function Rollbacks(ops: seq<Op>, name: string): nat {
    if ops == [] then 0
    else
      var before, op := ops[..|ops| - 1], ops[|ops| - 1];
      Rollbacks(before, name) +
      if op.On? && op.name == name && op.call.RollbackVersion? && EffectOf(InMemory(before, name), op.call).result.Ok?
      then 1 else 0
  }

  ghost function RolledSet(fam: Family): (r: set<int>)
    ensures r <= UpTo(|fam|)
  {
    set i | i in UpTo(|fam|) && fam[i].stage == RolledBack
  }

  /** Active records and recorded parents all passed the verifier. */
  ghost predicate Trusted(fam: Family, verified: set<string>) {
    forall i :: 0 <= i < |fam| ==>
      && (fam[i].stage == Promoted ==> fam[i].version in verified)
      && (fam[i].parent.Some? ==> fam[i].parent.value in verified)
  }

  lemma FreshTransition(fam: Family, version: string, target: Stage, reason: Option<string>, verified: set<string>)
    requires Keyed(fam) && Trusted(fam, verified) && target != RolledBack
    requires target == Promoted ==> version in verified
    requires target != Staged
    ensures var e := TransitionIn(fam, version, target, reason);
            Trusted(e.family, verified) && RolledSet(e.family) == RolledSet(fam) && |e.family| == |fam|
  {
    TransitionShape(fam, version, target, reason);
  }

  lemma FreshRegister(fam: Family, version: string, sha256: string, verified: set<string>)
    requires Keyed(fam) && Trusted(fam, verified) && !Known(fam, version)
    ensures var e := RegisterIn(fam, version, sha256);
            Trusted(e.family, verified - {version}) && RolledSet(e.family) == RolledSet(fam) &&
            |e.family| == |fam| + 1
  {
    forall i | 0 <= i < |fam|
      ensures fam[i].version != version && fam[i].parent != Some(version)
    {
    }
  }

  /** Nothing becomes or stops being rolled back; a record that becomes active is the promoted version. */
  ghost predicate PromotesOnly(fam: Family, after: Family, version: string) {
    && SameKeys(fam, after)
    && forall j :: 0 <= j < |fam| ==>
         && (fam[j].stage == RolledBack <==> after[j].stage == RolledBack)
         && (after[j].stage == Promoted ==> fam[j].stage == Promoted || fam[j].version == version)
  }

  lemma PromoteStages(fam: Family, version: string, verdict: Verdict)
    requires Keyed(fam) && verdict == Passes && Known(fam, version)
    ensures PromotesOnly(fam, PromoteIn(fam, version, verdict).family, version)
  {
    PromoteShape(fam, version, verdict);
  }

  lemma PromotesOnlyTrusted(fam: Family, after: Family, version: string, verified: set<string>)
    requires PromotesOnly(fam, after, version) && Trusted(fam, verified)
    ensures Trusted(after, verified + {version}) && RolledSet(after) == RolledSet(fam)
  {
  }

  lemma FreshPromote(fam: Family, version: string, verdict: Verdict, verified: set<string>)
    requires Keyed(fam) && Trusted(fam, verified)
    ensures var e := PromoteIn(fam, version, verdict);
            Trusted(e.family, if verdict == Passes && Known(fam, version) then verified + {version} else verified) &&
            RolledSet(e.family) == RolledSet(fam) && |e.family| == |fam|
  {
    if verdict == Passes && Known(fam, version) {
      PromoteStages(fam, version, verdict);
      PromotesOnlyTrusted(fam, PromoteIn(fam, version, verdict).family, version, verified);
    }
  }

  lemma FreshRollback(fam: Family, target: Option<string>, reason: Option<string>, verified: set<string>)
    requires Keyed(fam) && Trusted(fam, verified)
    ensures var e := RollbackIn(fam, target, reason);
            Trusted(e.family, verified) && RolledSet(fam) <= RolledSet(e.family) && |e.family| == |fam| &&
            |RolledSet(e.family)| == |RolledSet(fam)| + if e.result.Ok? then 1 else 0
  {
    var i := RollbackShape(fam, target, reason);
    if RollbackIn(fam, target, reason).result.Ok? {
      RolledSetGrows(fam, RollbackIn(fam, target, reason).family, i);
      TrustAfterRollback(fam, RollbackIn(fam, target, reason).family, i, verified);
    }
  }

  lemma RolledSetGrows(fam: Family, after: Family, i: nat)
    requires RolledBackTo(fam, after, i)
    ensures RolledSet(after) == RolledSet(fam) + {i} && i !in RolledSet(fam)
  {
  }

  lemma TrustAfterRollback(fam: Family, after: Family, i: nat, verified: set<string>)
    requires RolledBackTo(fam, after, i) && Trusted(fam, verified)
    ensures Trusted(after, verified)
  {
  }

  /** With fresh ids one call keeps every active record and every parent verified, never leaves ROLLED_BACK,
      and enters it exactly on a successful rollback. */
  lemma FreshCall(fam: Family, call: Call, verified: set<string>, name: string)
    requires Keyed(fam) && Trusted(fam, verified)
    requires call.RegisterVersion? ==> !Known(fam, call.version)
    ensures var e := EffectOf(fam, call);
            && Trusted(e.family, VerifiedAfter(fam, verified, name, On(name, call)))
            && RolledSet(fam) <= RolledSet(e.family)
            && |RolledSet(e.family)| == |RolledSet(fam)| + (if call.RollbackVersion? && e.result.Ok? then 1 else 0)
            && |e.family| == |fam| + (if call.RegisterVersion? then 1 else 0)
            && (e.saved == None ==> RolledSet(e.family) == RolledSet(fam))
  {
    match call
    case RegisterVersion(version, sha256) => FreshRegister(fam, version, sha256, verified);
    case ValidateVersion(version) => FreshTransition(fam, version, Validated, None, verified);
    case DeprecateVersion(version, reason) => FreshTransition(fam, version, Deprecated, reason, verified);
    case PromoteVersion(version, verdict) => FreshPromote(fam, version, verdict, verified);
    case RollbackVersion(target, reason) =>
      FreshRollback(fam, target, reason, verified);
      var i := RollbackShape(fam, target, reason);
  }

  /** With fresh ids, after every run: every active record, also one re-activated by a rollback, passed the
      trust verifier; memory and manifest agree on what is rolled back; and the successful rollbacks of a
      name are exactly its rolled-back records, so they never outnumber its registrations. */
  lemma {:induction false} FreshRunsAreTrusted(ops: seq<Op>, name: string)
    requires FreshIds(ops)
    ensures Trusted(InMemory(ops, name), Verified(ops, name)) && Trusted(OnDisk(ops, name), Verified(ops, name))
    ensures RolledSet(InMemory(ops, name)) == RolledSet(OnDisk(ops, name))
    ensures |RolledSet(InMemory(ops, name))| == Rollbacks(ops, name)
    ensures |InMemory(ops, name)| == Registrations(ops, name)
    ensures Rollbacks(ops, name) <= Registrations(ops, name)
  {
    if ops != [] {
      var before, op := ops[..|ops| - 1], ops[|ops| - 1];
      RunsAreSound(before, name);
      FreshRunsAreTrusted(before, name);
      ApplyToName(Run(before), op, name);
      if op.On? && op.name == name {
        FreshCall(InMemory(before, name), op.call, Verified(before, name), name);
        CallKeepsKeys(InMemory(before, name), op.call);
      }
    }
    SubsetSize(RolledSet(InMemory(ops, name)), UpTo(|InMemory(ops, name)|));
  }

  lemma SubsetSize(a: set<int>, b: set<int>)
    requires a <= b
    ensures |a| <= |b|
  {
    assert b == a + (b - a);
  }

  /** Once rolled back, always rolled back. */
  lemma {:induction false} RolledBackForever(ops: seq<Op>, n: nat, name: string)
    requires FreshIds(ops) && n <= |ops|
    ensures FreshIds(ops[..n]) && RolledSet(InMemory(ops[..n], name)) <= RolledSet(InMemory(ops, name))
  {
    if n == |ops| {
      assert ops[..n] == ops;
    } else {
      var before, op := ops[..|ops| - 1], ops[|ops| - 1];
      RolledBackForever(before, n, name);
      assert before[..n] == ops[..n];
      RunsAreSound(before, name);
      FreshRunsAreTrusted(before, name);
      ApplyToName(Run(before), op, name);
      if op.On? && op.name == name {
        FreshCall(InMemory(before, name), op.call, Verified(before, name), name);
      }
    }
  }

  lemma Step(ops: seq<Op>, name: string, call: Call)
    ensures var more := ops + [On(name, call)];
            && InMemory(more, name) == EffectOf(InMemory(ops, name), call).family
            && Verified(more, name) == VerifiedAfter(InMemory(ops, name), Verified(ops, name), name, On(name, call))
  {
    var more := ops + [On(name, call)];
    assert more[..|more| - 1] == ops;
    RunsAreSound(ops, name);
    ApplyToName(Run(ops), On(name, call), name);
  }

  ghost predicate Is(r: Record, version: string, stage: Stage, parent: Option<string>) {
    r.version == version && r.stage == stage && r.parent == parent
  }

  /** Runs a further call. */
  lemma Then(ops: seq<Op>, name: string, call: Call) returns (more: seq<Op>)
    ensures InMemory(more, name) == EffectOf(InMemory(ops, name), call).family
    ensures Verified(more, name) == VerifiedAfter(InMemory(ops, name), Verified(ops, name), name, On(name, call))
  {
    more := ops + [On(name, call)];
    Step(ops, name, call);
  }

  /** Two versions, the first without a parent or with `parent`, the second derived from the first. */
  ghost predicate IsPair(fam: Family, first: Stage, parent: Option<string>, second: Stage) {
    |fam| == 2 && Is(fam[0], "a", first, parent) && Is(fam[1], "b", second, Some("a"))
  }

  lemma FirstActive()
    ensures var staged := RegisterIn([], "a", "").family;
            var fam := PromoteIn(TransitionIn(staged, "a", Validated, None).family, "a", Passes).family;
            |fam| == 1 && Is(fam[0], "a", Promoted, None)
  {
  }

  lemma SecondReady(fam: Family)
    requires |fam| == 1 && Is(fam[0], "a", Promoted, None)
    ensures IsPair(TransitionIn(RegisterIn(fam, "b", "").family, "b", Validated, None).family,
                   Promoted, None, Validated)
  {
  }

  lemma PairIsKeyed(fam: Family, first: Stage, parent: Option<string>, second: Stage)
    requires IsPair(fam, first, parent, second) && (parent.Some? ==> parent.value == "b")
    ensures Keyed(fam) && Find(fam, "a") == 0 && Find(fam, "b") == 1
  {
    assert Find(fam[1..], "b") == 0;
  }

  lemma SecondPromoted(fam: Family)
    requires IsPair(fam, Promoted, None, Validated)
    ensures IsPair(PromoteIn(fam, "b", Passes).family, Deprecated, None, Promoted)
  {
    PairIsKeyed(fam, Promoted, None, Validated);
    PromoteShape(fam, "b", Passes);
  }

  lemma FirstReused(fam: Family)
    requires IsPair(fam, Deprecated, None, Promoted)
    ensures IsPair(TransitionIn(RegisterIn(fam, "a", "").family, "a", Validated, None).family,
                   Validated, Some("b"), Promoted)
  {
    PairIsKeyed(fam, Deprecated, None, Promoted);
  }

  lemma SuccessorRolledBack(fam: Family)
    requires IsPair(fam, Validated, Some("b"), Promoted)
    ensures var after := RollbackIn(fam, None, None).family;
            |after| == 2 && after[0].version == "a" && after[0].stage == Promoted
  {
    PairIsKeyed(fam, Validated, Some("b"), Promoted);
    var i := RollbackShape(fam, None, None);
  }

  /** With a version id used twice the trust guarantee fails: the first version is registered again while
      its successor is active, and the rollback of the successor makes it active without a verifier pass. */
  lemma ReusedIdDefeatsTrust(name: string) returns (ops: seq<Op>)
    ensures exists i :: 0 <= i < |InMemory(ops, name)| &&
              InMemory(ops, name)[i].stage == Promoted && InMemory(ops, name)[i].version !in Verified(ops, name)
  {
    ops := Then([], name, RegisterVersion("a", ""));
    ops := Then(ops, name, ValidateVersion("a"));
    ops := Then(ops, name, PromoteVersion("a", Passes));
    FirstActive();
    SecondReady(InMemory(ops, name));
    ops := Then(ops, name, RegisterVersion("b", ""));
    ops := Then(ops, name, ValidateVersion("b"));
    SecondPromoted(InMemory(ops, name));
    ops := Then(ops, name, PromoteVersion("b", Passes));
    ops := FirstReusedRun(ops, name);
  }

  lemma FirstReusedRun(start: seq<Op>, name: string) returns (ops: seq<Op>)
    requires IsPair(InMemory(start, name), Deprecated, None, Promoted)
    ensures |InMemory(ops, name)| == 2 && InMemory(ops, name)[0].stage == Promoted
    ensures InMemory(ops, name)[0].version !in Verified(ops, name)
  {
    FirstReused(InMemory(start, name));
    ops := Then(start, name, RegisterVersion("a", ""));
    ops := Then(ops, name, ValidateVersion("a"));
    SuccessorRolledBack(InMemory(ops, name));
    ops := Then(ops, name, RollbackVersion(None, None));
  }
}
