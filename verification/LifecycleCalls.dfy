/** What each call of the artifact registry does, told record by record (detection/artifact_lifecycle.py, lines
    209-337). */
module LifecycleCalls {
  import opened ArtifactLifecycle
  import opened Common

  /** The record in another stage, with the change noted at the end of its history. */
  ghost predicate IsNoted(before: Record, after: Record, stage: Stage, reason: Option<string>) {
    && after.stage == stage && after.history == before.history + [Change(stage, reason)]
    && after.version == before.version && after.sha256 == before.sha256 && after.parent == before.parent
  }

  ghost predicate IsMoved(before: Record, after: Record, stage: Stage, reason: Option<string>) {
    IsNoted(before, after, stage, reason) && after.rollbackReason == before.rollbackReason
  }

  ghost predicate IsUnsaved(fam: Family, e: Effect, error: Error) {
    e.family == fam && e.saved == None && e.result == Err(error)
  }

  ghost predicate Lacks(fam: Family, version: string) {
    forall i :: 0 <= i < |fam| ==> fam[i].version != version
  }

  lemma FindAt(fam: Family, i: nat)
    requires Keyed(fam) && i < |fam|
    ensures Find(fam, fam[i].version) == i
  {
    FindIs(fam, i);
  }

  lemma FindNone(fam: Family, version: string)
    ensures Lacks(fam, version) <==> Find(fam, version) == |fam|
  {
  }

  /** Only a staged version can be validated. */
  lemma ValidateByStage(fam: Family, version: string)
    requires Keyed(fam)
    ensures var e := EffectOf(fam, ValidateVersion(version));
            && (Lacks(fam, version) ==> IsUnsaved(fam, e, ArtifactNotFound(Some(version))))
            && forall i :: 0 <= i < |fam| && fam[i].version == version ==>
                 if fam[i].stage == Staged then
                   && e.result == Ok(version) && e.saved == Some(e.family) && |e.family| == |fam|
                   && IsMoved(fam[i], e.family[i], Validated, None) && e.family == fam[i := e.family[i]]
                 else IsUnsaved(fam, e, InvalidTransition(fam[i].stage, Validated))
  {
    FindNone(fam, version);
    forall i | 0 <= i < |fam| && fam[i].version == version
      ensures Find(fam, version) == i
    {
      FindAt(fam, i);
    }
  }

  /** A version can be deprecated from every stage but two: a deprecated or rolled-back one stays what it is. */
  lemma DeprecateByStage(fam: Family, version: string, reason: Option<string>)
    requires Keyed(fam)
    ensures var e := EffectOf(fam, DeprecateVersion(version, reason));
            && (Lacks(fam, version) ==> IsUnsaved(fam, e, ArtifactNotFound(Some(version))))
            && forall i :: 0 <= i < |fam| && fam[i].version == version ==>
                 if fam[i].stage != Deprecated && fam[i].stage != RolledBack then
                   && e.result == Ok(version) && e.saved == Some(e.family) && |e.family| == |fam|
                   && IsMoved(fam[i], e.family[i], Deprecated, reason) && e.family == fam[i := e.family[i]]
                 else IsUnsaved(fam, e, InvalidTransition(fam[i].stage, Deprecated))
  {
    FindNone(fam, version);
    forall i | 0 <= i < |fam| && fam[i].version == version
      ensures Find(fam, version) == i
    {
      FindAt(fam, i);
    }
  }

  /** The version in use is the first promoted one in dictionary order, if any is. */
  ghost predicate IsActive(fam: Family, i: nat) {
    i < |fam| && fam[i].stage == Promoted && forall j :: 0 <= j < i ==> fam[j].stage != Promoted
  }

  /** A registration puts a staged record in the place of its version, or at the end, with the version in use as its
      parent. */
  lemma RegisterByRecord(fam: Family, version: string, sha256: string)
    requires Keyed(fam)
    ensures var e := EffectOf(fam, RegisterVersion(version, sha256));
            && e.result == Ok(version) && e.saved == Some(e.family)
            && |e.family| == (if Lacks(fam, version) then |fam| + 1 else |fam|)
            && forall i :: 0 <= i < |e.family| ==>
                 if i < |fam| && fam[i].version != version then e.family[i] == fam[i]
                 else
                   var r := e.family[i];
                   && r.version == version && r.sha256 == sha256 && r.stage == Staged && r.rollbackReason == None
                   && r.history == [Change(Staged, None)]
                   && (r.parent.None? ==> forall j :: 0 <= j < |fam| ==> fam[j].stage != Promoted)
                   && forall p: nat :: IsActive(fam, p) ==> r.parent == Some(fam[p].version)
  {
    FindNone(fam, version);
    forall p: nat | IsActive(fam, p)
      ensures p == ActiveIndex(fam)
    {
    }
    var k := Find(fam, version);
    forall i | 0 <= i < |fam| && fam[i].version == version
      ensures k == i
    {
      FindAt(fam, i);
    }
  }

  /** What a promotion that the verifier passes does to record `i`. */
  ghost predicate IsPromotedBy(fam: Family, e: Effect, version: string, i: nat)
    requires i < |fam| == |e.family|
  {
    if fam[i].version != version then
      if fam[i].stage == Promoted then IsMoved(fam[i], e.family[i], Deprecated, Some("superseded"))
      else e.family[i] == fam[i]
    else if fam[i].stage == Validated then
      e.result == Ok(version) && e.saved == Some(e.family) && IsMoved(fam[i], e.family[i], Promoted, None)
    else
      e.result == Err(InvalidTransition(fam[i].stage, Promoted)) && e.saved == None && e.family[i] == fam[i]
  }

  lemma PassedPromotion(fam: Family, version: string, i: nat)
    requires Keyed(fam) && !Lacks(fam, version) && i < |fam|
    ensures var e := PromoteIn(fam, version, Passes); |e.family| == |fam| && IsPromotedBy(fam, e, version, i)
  {
    FindNone(fam, version);
    PromoteShape(fam, version, Passes);
    FindAt(fam, i);
  }

  /** A promotion answers, in this order: an unknown version, no verifier, a failing verifier; then it demotes every
      other promoted version, and promotes this one if it is validated. */
  lemma PromoteByRecord(fam: Family, version: string, verdict: Verdict)
    requires Keyed(fam)
    ensures var e := EffectOf(fam, PromoteVersion(version, verdict));
            if Lacks(fam, version) then IsUnsaved(fam, e, ArtifactNotFound(Some(version)))
            else if verdict == NoVerifier then IsUnsaved(fam, e, TrustVerificationRequired)
            else if verdict == Raises then IsUnsaved(fam, e, TrustVerificationFailed)
            else |e.family| == |fam| && forall i :: 0 <= i < |fam| ==> IsPromotedBy(fam, e, version, i)
  {
    FindNone(fam, version);
    if !Lacks(fam, version) && verdict == Passes {
      forall i | 0 <= i < |fam|
        ensures |PromoteIn(fam, version, Passes).family| == |fam|
        ensures IsPromotedBy(fam, PromoteIn(fam, version, Passes), version, i)
      {
        PassedPromotion(fam, version, i);
      }
    }
  }

  /** Record `i` is rolled back, its parent is promoted if it is deprecated or validated, and nothing else changes. */
  ghost predicate IsRollbackOf(fam: Family, e: Effect, i: nat, reason: Option<string>)
    requires i < |fam|
  {
    && e.result == Ok(fam[i].version) && e.saved == Some(e.family) && |e.family| == |fam|
    && IsNoted(fam[i], e.family[i], RolledBack, reason) && e.family[i].rollbackReason == reason
    && forall k :: 0 <= k < |fam| && k != i ==>
         if fam[k].version != "" && fam[i].parent == Some(fam[k].version) &&
            (fam[k].stage == Deprecated || fam[k].stage == Validated)
         then IsMoved(fam[k], e.family[k], Promoted, Some("rollback_reactivation"))
         else e.family[k] == fam[k]
  }

  lemma RollbackOfPromoted(fam: Family, target: Option<string>, reason: Option<string>, i: nat)
    requires Keyed(fam) && i < |fam| && i == RollbackTarget(fam, target) && fam[i].stage == Promoted
    ensures IsRollbackOf(fam, RollbackIn(fam, target, reason), i, reason)
  {
    var moved := fam[i := Moved(fam[i], RolledBack, reason)];
    RollbackUnfolds(fam, target, reason, i);
    AfterRollbackShape(moved, fam[i].version, reason);
  }

  lemma RollbackAt(fam: Family, target: Option<string>, reason: Option<string>, i: nat)
    requires Keyed(fam) && i < |fam| && i == RollbackTarget(fam, target)
    ensures var e := RollbackIn(fam, target, reason);
            if fam[i].stage == Promoted then IsRollbackOf(fam, e, i, reason)
            else IsUnsaved(fam, e, InvalidTransition(fam[i].stage, RolledBack))
  {
    if fam[i].stage == Promoted {
      RollbackOfPromoted(fam, target, reason, i);
    } else {
      FindAt(fam, i);
    }
  }

  /** A rollback of a given version acts on that version: it succeeds if and only if a record of that version is
      promoted, and else changes nothing. */
  lemma RollbackOfVersion(fam: Family, version: string, reason: Option<string>)
    requires Keyed(fam) && version != ""
    ensures var e := EffectOf(fam, RollbackVersion(Some(version), reason));
            && (e.result.Ok? <==> exists i :: 0 <= i < |fam| && fam[i].version == version && fam[i].stage == Promoted)
            && (Lacks(fam, version) ==> IsUnsaved(fam, e, ArtifactNotFound(Some(version))))
            && forall i :: 0 <= i < |fam| && fam[i].version == version ==>
                 if fam[i].stage == Promoted then IsRollbackOf(fam, e, i, reason)
                 else IsUnsaved(fam, e, InvalidTransition(fam[i].stage, RolledBack))
  {
    FindNone(fam, version);
    forall i | 0 <= i < |fam| && fam[i].version == version
      ensures i == RollbackTarget(fam, Some(version))
    {
      FindAt(fam, i);
    }
    if i :| 0 <= i < |fam| && fam[i].version == version { RollbackAt(fam, Some(version), reason, i); }
  }

  /** Without a version, or with an empty one, a rollback acts on the version in use. */
  lemma RollbackOfActive(fam: Family, given: Option<string>, reason: Option<string>)
    requires Keyed(fam) && (given == None || given == Some(""))
    ensures var e := EffectOf(fam, RollbackVersion(given, reason));
            && (forall i :: IsActive(fam, i) ==> IsRollbackOf(fam, e, i, reason))
            && ((forall i :: 0 <= i < |fam| ==> fam[i].stage != Promoted) ==> IsUnsaved(fam, e, ArtifactNotFound(None)))
  {
    if i: nat :| IsActive(fam, i) {
      assert i == RollbackTarget(fam, given);
      RollbackAt(fam, given, reason, i);
    }
  }
}
