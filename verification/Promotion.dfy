/** Model artifacts, release gates and the controls a promotion must pass. */
module Promotion {
  import opened Values

  datatype State = Registered | Canary | Production | Retired | Blocked

  /** The part of an artifact that registering, promoting, rolling back and routing read or write. */
  datatype Artifact = Artifact(
    id: string,
    kind: string,
    tenant: Option<string>,
    task: Option<string>,
    state: State,
    evalReport: Option<string>,
    rollbackTo: Option<string>,
    metadata: map<string, Value>)

  datatype GateResult = GateResult(id: string, candidate: string, decision: string, metrics: map<string, Value>)

  datatype Approval =
    | NoApproval
    | ApprovalFields(
        approvalId: string, operatorId: string, roles: seq<string>, approvedAt: string, evidence: seq<string>,
        approved: bool)
    | ApprovalDict(fields: map<string, Value>)

  datatype Error =
    | UnknownKey(key: string)
    | WrongCandidate
    | GateBlocks
    | MissingGates(gates: seq<string>)
    | MissingCoverage(keys: seq<string>)
    | NotApproved
    | NoApprovalId
    | NoOperatorId
    | NoRoles
    | NoApprovalTime
    | NoRollbackManifest
    | NoRollbackTarget

  /** The gate metrics and the coverage keys that a promotion must show as passed. */
  datatype Policy = Policy(gates: seq<string>, coverage: seq<string>)

  const MESH_POLICY := Policy(
    [
      "model_kernel_passed",
      "live_serving_smoke_passed",
      "response_eval_passed",
      "judge_rubric_passed",
      "red_team_regression_passed",
      "curated_quality_training_passed"
    ],
    [
      "has_runtime_session",
      "has_runtime_event",
      "has_incident_corpus",
      "has_preference_rows",
      "has_eval_rows",
      "has_red_team_rows",
      "has_non_bootstrap_training_source"
    ])

  predicate Live(s: State) {
    s == Canary || s == Production
  }

  /** The keys under which the boolean true is missing; nothing else counts as passed. */
  function NotTrue(m: map<string, Value>, keys: seq<string>): seq<string> {
    if keys == [] then []
    else (if Lookup(m, keys[0]) == Some(Bool(true)) then [] else [keys[0]]) + NotTrue(m, keys[1..])
  }

  lemma {:induction false} NotTrueLists(m: map<string, Value>, keys: seq<string>)
    ensures forall k :: k in NotTrue(m, keys) <==> k in keys && Lookup(m, k) != Some(Bool(true))
    ensures NotTrue(m, keys) == [] <==> forall k :: k in keys ==> Lookup(m, k) == Some(Bool(true))
  {
    if keys != [] {
      NotTrueLists(m, keys[1..]);
      assert forall k :: k in keys <==> k == keys[0] || k in keys[1..];
      if NotTrue(m, keys) != [] {
        assert NotTrue(m, keys)[0] in NotTrue(m, keys);
      }
    }
  }

  lemma NotTrueOfCons(m: map<string, Value>, key: string, rest: seq<string>)
    ensures Lookup(m, key) == Some(Bool(true)) ==> NotTrue(m, [key] + rest) == NotTrue(m, rest)
    ensures Lookup(m, key) != Some(Bool(true)) ==> NotTrue(m, [key] + rest) == [key] + NotTrue(m, rest)
  {
    assert ([key] + rest)[1..] == rest;
    if Lookup(m, key) == Some(Bool(true)) {
      assert [] + NotTrue(m, rest) == NotTrue(m, rest);
    }
  }

  function MissingCoverageKeys(keys: seq<string>, metrics: map<string, Value>): seq<string> {
    match Lookup<string, Value>(metrics, "quality_source_coverage")
    case Some(Dict(coverage)) => NotTrue(coverage, keys)
    case _ => keys
  }

  function Texts(items: seq<string>): seq<Value> {
    seq(|items|, (i: int) requires 0 <= i < |items| => Str(items[i]))
  }

  function ApprovalRecord(approval: Approval): map<string, Value> {
    match approval
    case NoApproval => map[]
    case ApprovalFields(approvalId, operatorId, roles, approvedAt, evidence, approved) =>
      map[
        "approval_id" := Str(approvalId),
        "operator_id" := Str(operatorId),
        "roles" := List(Texts(roles)),
        "approved_at" := Str(approvedAt),
        "evidence_refs" := List(Texts(evidence)),
        "approved" := Bool(approved)
      ]
    case ApprovalDict(fields) => fields
  }

  /** The record of an approval: its own fields if it is one, the dictionary if it is given as one, and else nothing. */
  lemma ApprovalRecordInFull(approval: Approval, rec: map<string, Value>)
    requires rec == ApprovalRecord(approval)
    ensures approval.NoApproval? ==> rec == map[]
    ensures approval.ApprovalDict? ==> rec == approval.fields
    ensures approval.ApprovalFields? ==>
      && rec.Keys == {"approval_id", "operator_id", "roles", "approved_at", "evidence_refs", "approved"}
      && rec["approval_id"] == Str(approval.approvalId) && rec["operator_id"] == Str(approval.operatorId)
      && rec["approved_at"] == Str(approval.approvedAt) && rec["approved"] == Bool(approval.approved)
      && rec["roles"].List? && rec["evidence_refs"].List?
      && |rec["roles"].items| == |approval.roles| && |rec["evidence_refs"].items| == |approval.evidence|
      && (forall i :: 0 <= i < |approval.roles| ==> rec["roles"].items[i] == Str(approval.roles[i]))
      && (forall i :: 0 <= i < |approval.evidence| ==> rec["evidence_refs"].items[i] == Str(approval.evidence[i]))
  {
  }

  /** The checks in the order the program makes them. */
  function ValidateControls(policy: Policy, metrics: map<string, Value>, approval: Approval, manifest: Option<string>)
    : Result<map<string, Value>, Error>
  {
    var missing := NotTrue(metrics, policy.gates);
    var uncovered := MissingCoverageKeys(policy.coverage, metrics);
    var rec := ApprovalRecord(approval);
    if missing != [] then Err(MissingGates(missing))
    else if uncovered != [] then Err(MissingCoverage(uncovered))
    else if Lookup(rec, "approved") != Some(Bool(true)) then Err(NotApproved)
    else if !Filled(Lookup(rec, "approval_id")) then Err(NoApprovalId)
    else if !Filled(Lookup(rec, "operator_id")) then Err(NoOperatorId)
    else if !HasRoles(rec) then Err(NoRoles)
    else if !Filled(Lookup(rec, "approved_at")) then Err(NoApprovalTime)
    else if Missing(manifest) then Err(NoRollbackManifest)
    else Ok(rec)
  }

  predicate HasRoles(rec: map<string, Value>) {
    match Lookup<string, Value>(rec, "roles")
    case Some(List(items)) => items != []
    case _ => false
  }

  // ---- what a promotion leaves behind ----

  predicate GatesPassed(policy: Policy, metrics: map<string, Value>) {
    && (forall g :: g in policy.gates ==> Lookup(metrics, g) == Some(Bool(true)))
    && (match Lookup<string, Value>(metrics, "quality_source_coverage")
        case Some(Dict(coverage)) => forall k :: k in policy.coverage ==> Lookup(coverage, k) == Some(Bool(true))
        case _ => policy.coverage == [])
  }

  predicate ApprovalComplete(rec: map<string, Value>) {
    && Lookup(rec, "approved") == Some(Bool(true))
    && Filled(Lookup(rec, "approval_id"))
    && Filled(Lookup(rec, "operator_id"))
    && HasRoles(rec)
    && Filled(Lookup(rec, "approved_at"))
  }

  /** The artifact carries the record of a promotion that passed every control. */
  predicate HasPromotionRecord(policy: Policy, a: Artifact) {
    && (match Lookup<string, Value>(a.metadata, "promotion_gate_metrics")
        case Some(Dict(metrics)) => GatesPassed(policy, metrics)
        case _ => false)
    && (match Lookup<string, Value>(a.metadata, "promotion_approval")
        case Some(Dict(rec)) => ApprovalComplete(rec)
        case _ => false)
    && (match Lookup<string, Value>(a.metadata, "rollback_manifest_ref")
        case Some(Str(reference)) => reference != ""
        case _ => false)
    && a.evalReport.Some?
  }

  lemma {:induction false} ControlsHold(
      policy: Policy, metrics: map<string, Value>, approval: Approval, manifest: Option<string>)
    ensures ValidateControls(policy, metrics, approval, manifest).Ok?
       <==> GatesPassed(policy, metrics) && ApprovalComplete(ApprovalRecord(approval)) && !Missing(manifest)
    ensures ValidateControls(policy, metrics, approval, manifest).Ok? ==>
      ValidateControls(policy, metrics, approval, manifest).value == ApprovalRecord(approval)
  {
    NotTrueLists(metrics, policy.gates);
    match Lookup<string, Value>(metrics, "quality_source_coverage")
    case Some(Dict(coverage)) => NotTrueLists(coverage, policy.coverage);
    case _ =>
  }

  /** A text with a character that is not white space. */
  predicate HasInk(s: string) {
    exists i :: 0 <= i < |s| && !IsSpace(s[i])
  }

  /** The field holds a truthy value, and if it is a text, one that is not blank. */
  predicate HasField(fields: map<string, Value>, key: string) {
    && key in fields
    && fields[key] !in {Null, Bool(false), Int(0), Float(Binary(0, 0)), Str(""), List([]), Dict(map[])}
    && (fields[key].Str? ==> HasInk(fields[key].s))
  }

  lemma FilledFields(rec: map<string, Value>, key: string)
    ensures Filled(Lookup(rec, key)) <==> HasField(rec, key)
  {
    FilledExactly(Lookup(rec, key));
  }

  /** An approval is complete exactly if it approves and says by whom, in what roles and when. */
  lemma ApprovalCompleteExactly(approval: Approval)
    ensures ApprovalComplete(ApprovalRecord(approval)) <==>
      match approval
      case NoApproval => false
      case ApprovalFields(approvalId, operatorId, roles, approvedAt, _, approved) =>
        approved && HasInk(approvalId) && HasInk(operatorId) && roles != [] && HasInk(approvedAt)
      case ApprovalDict(fields) =>
        && "approved" in fields && fields["approved"] == Bool(true)
        && HasField(fields, "approval_id") && HasField(fields, "operator_id") && HasField(fields, "approved_at")
        && "roles" in fields && fields["roles"].List? && fields["roles"].items != []
  {
    var rec := ApprovalRecord(approval);
    FilledFields(rec, "approval_id");
    FilledFields(rec, "operator_id");
    FilledFields(rec, "approved_at");
  }

  /** The controls hold exactly when the metrics hold the boolean true under every gate, the coverage dictionary holds
      it under every coverage key, the approval approves and says by whom, in what roles and when, and there is a
      manifest. */
  lemma ControlsHoldExactly(
      policy: Policy, metrics: map<string, Value>, approval: Approval, manifest: Option<string>)
    ensures ValidateControls(policy, metrics, approval, manifest).Ok? <==>
      && (forall g :: g in policy.gates ==> g in metrics && metrics[g] == Bool(true))
      && (forall k :: k in policy.coverage ==>
            && "quality_source_coverage" in metrics && metrics["quality_source_coverage"].Dict?
            && Lookup(metrics["quality_source_coverage"].entries, k) == Some(Bool(true)))
      && (match approval
          case NoApproval => false
          case ApprovalFields(approvalId, operatorId, roles, approvedAt, _, approved) =>
            approved && HasInk(approvalId) && HasInk(operatorId) && roles != [] && HasInk(approvedAt)
          case ApprovalDict(fields) =>
            && "approved" in fields && fields["approved"] == Bool(true)
            && HasField(fields, "approval_id") && HasField(fields, "operator_id") && HasField(fields, "approved_at")
            && "roles" in fields && fields["roles"].List? && fields["roles"].items != [])
      && manifest !in {None, Some("")}
    ensures ValidateControls(policy, metrics, approval, manifest).Ok? ==>
      ValidateControls(policy, metrics, approval, manifest).value == ApprovalRecord(approval)
  {
    ControlsHold(policy, metrics, approval, manifest);
    ApprovalCompleteExactly(approval);
    if policy.coverage != [] {
      assert policy.coverage[0] in policy.coverage;
    }
  }

  /** A gate that is missing, false or anything but true refuses the promotion, and so do a coverage key and the
      approval. */
  lemma NotTrueRefuses(
      policy: Policy, metrics: map<string, Value>, approval: Approval, manifest: Option<string>, key: string)
    ensures key in policy.gates && Lookup(metrics, key) != Some(Bool(true)) ==>
      exists missing :: ValidateControls(policy, metrics, approval, manifest) == Err(MissingGates(missing))
        && key in missing
    ensures key in policy.coverage && !(
      "quality_source_coverage" in metrics && metrics["quality_source_coverage"].Dict?
      && Lookup(metrics["quality_source_coverage"].entries, key) == Some(Bool(true))
    ) ==> ValidateControls(policy, metrics, approval, manifest).Err?
    ensures approval.ApprovalFields? && !approval.approved ==>
      ValidateControls(policy, metrics, approval, manifest).Err?
    ensures approval.ApprovalDict? && Lookup(approval.fields, "approved") != Some(Bool(true)) ==>
      ValidateControls(policy, metrics, approval, manifest).Err?
  {
    ControlsHoldExactly(policy, metrics, approval, manifest);
    NotTrueLists(metrics, policy.gates);
    if key in policy.gates && Lookup(metrics, key) != Some(Bool(true)) {
      assert key in NotTrue(metrics, policy.gates);
    }
  }

  /** Which check speaks first when several fail. */
  lemma ChecksInOrder(policy: Policy, metrics: map<string, Value>, approval: Approval, manifest: Option<string>)
    requires GatesPassed(policy, metrics)
    ensures var r, rec := ValidateControls(policy, metrics, approval, manifest), ApprovalRecord(approval);
      && (Lookup(rec, "approved") != Some(Bool(true)) <==> r == Err(NotApproved))
      && (r != Err(NotApproved) && !HasField(rec, "approval_id") <==> r == Err(NoApprovalId))
      && (r !in {Err(NotApproved), Err(NoApprovalId)} && !HasField(rec, "operator_id") <==> r == Err(NoOperatorId))
      && (r.Err? && r.error in {NoApprovalTime, NoRollbackManifest} ==> HasRoles(rec))
      && (r == Err(NoRollbackManifest) <==> ApprovalComplete(rec) && manifest in {None, Some("")})
  {
    ControlsHold(policy, metrics, approval, manifest);
    NotTrueLists(metrics, policy.gates);
    match Lookup<string, Value>(metrics, "quality_source_coverage") {
      case Some(Dict(coverage)) => NotTrueLists(coverage, policy.coverage);
      case _ =>
    }
    var rec := ApprovalRecord(approval);
    FilledFields(rec, "approval_id");
    FilledFields(rec, "operator_id");
    FilledFields(rec, "approved_at");
  }

  /** What the program's own policy asks of the metrics, by name. */
  lemma {:induction false} MeshPolicyAsksFor(metrics: map<string, Value>)
    ensures
      var gates := {
        "model_kernel_passed", "live_serving_smoke_passed", "response_eval_passed", "judge_rubric_passed",
        "red_team_regression_passed", "curated_quality_training_passed"
      };
      var keys := {
        "has_runtime_session", "has_runtime_event", "has_incident_corpus", "has_preference_rows", "has_eval_rows",
        "has_red_team_rows", "has_non_bootstrap_training_source"
      };
      GatesPassed(MESH_POLICY, metrics) <==>
        && (forall g :: g in gates ==> Lookup(metrics, g) == Some(Bool(true)))
        && "quality_source_coverage" in metrics && metrics["quality_source_coverage"].Dict?
        && (forall k :: k in keys ==> Lookup(metrics["quality_source_coverage"].entries, k) == Some(Bool(true)))
  {
    assert forall g :: g in MESH_POLICY.gates <==> g in {
      "model_kernel_passed", "live_serving_smoke_passed", "response_eval_passed", "judge_rubric_passed",
      "red_team_regression_passed", "curated_quality_training_passed"};
    assert forall k :: k in MESH_POLICY.coverage <==> k in {
      "has_runtime_session", "has_runtime_event", "has_incident_corpus", "has_preference_rows", "has_eval_rows",
      "has_red_team_rows", "has_non_bootstrap_training_source"};
  }

  function Annotate(
      metadata: map<string, Value>, rec: map<string, Value>, manifest: Option<string>, metrics: map<string, Value>)
    : map<string, Value>
  {
    metadata
      ["promotion_approval" := Dict(rec)]
      ["rollback_manifest_ref" := if manifest.Some? then Str(manifest.value) else Null]
      ["promotion_gate_metrics" := Dict(metrics)]
  }

  function DecidedState(decision: string): State {
    if decision == "canary" then Canary else Production
  }

  /** The fields a promotion writes on the artifact itself. */
  function Promoted(
      a: Artifact, gate: GateResult, rec: map<string, Value>, manifest: Option<string>, previous: Option<string>)
    : Artifact
  {
    a.(
      state := DecidedState(gate.decision),
      evalReport := Some(gate.id),
      rollbackTo := previous,
      metadata := Annotate(a.metadata, rec, manifest, gate.metrics))
  }

  /** The fields of a promoted artifact: canary for the decision canary and production for any other, the gate result,
      the rollback pointer, three entries of the metadata, and nothing else. */
  lemma PromotedInFull(
      a: Artifact, gate: GateResult, rec: map<string, Value>, manifest: Option<string>, previous: Option<string>,
      a': Artifact)
    requires a' == Promoted(a, gate, rec, manifest, previous)
    ensures a'.state == if gate.decision == "canary" then Canary else Production
    ensures a'.evalReport == Some(gate.id) && a'.rollbackTo == previous
    ensures a'.id == a.id && a'.kind == a.kind && a'.tenant == a.tenant && a'.task == a.task
    ensures a'.metadata.Keys ==
      a.metadata.Keys + {"promotion_approval", "rollback_manifest_ref", "promotion_gate_metrics"}
    ensures a'.metadata["promotion_approval"] == Dict(rec)
    ensures a'.metadata["rollback_manifest_ref"] == if manifest.Some? then Str(manifest.value) else Null
    ensures a'.metadata["promotion_gate_metrics"] == Dict(gate.metrics)
    ensures forall k :: k in a.metadata ==>
      k in {"promotion_approval", "rollback_manifest_ref", "promotion_gate_metrics"}
      || a'.metadata[k] == a.metadata[k]
  {
  }

  lemma {:induction false} PromotionLeavesRecord(
      policy: Policy, a: Artifact, gate: GateResult, approval: Approval, manifest: Option<string>,
      previous: Option<string>)
    requires ValidateControls(policy, gate.metrics, approval, manifest).Ok?
    ensures HasPromotionRecord(policy, Promoted(a, gate, ApprovalRecord(approval), manifest, previous))
  {
    ControlsHold(policy, gate.metrics, approval, manifest);
    var m := Annotate(a.metadata, ApprovalRecord(approval), manifest, gate.metrics);
    assert Lookup(m, "promotion_gate_metrics") == Some(Dict(gate.metrics));
    assert Lookup(m, "promotion_approval") == Some(Dict(ApprovalRecord(approval)));
    assert Lookup(m, "rollback_manifest_ref") == Some(Str(manifest.value));
  }
}
