/** The persisted registry and its relation to the in-memory catalog. */
module Registry {
  import opened Values
  import opened Promotion
  import opened ModelCatalog

  /** The decoded registry file: artifact rows, alias targets, and the newest gate results first. */
  datatype State = State(artifacts: map<string, Artifact>, aliases: map<string, string>, results: seq<GateResult>)

  const MAX_RESULTS := 1000

  function Checks(policy: Policy, r: State, p: PromoteArgs): Result<map<string, Value>, Error> {
    if p.gate.candidate != p.id then Err(WrongCandidate)
    else if p.gate.decision !in {"canary", "promote"} then Err(GateBlocks)
    else
      match ValidateControls(policy, p.gate.metrics, p.approval, p.manifest)
      case Err(e) => Err(e)
      case Ok(rec) => if p.id !in r.artifacts then Err(UnknownKey(p.id)) else Ok(rec)
  }

  function Latest(results: seq<GateResult>, gate: GateResult): seq<GateResult> {
    var all := [gate] + results;
    if |all| > MAX_RESULTS then all[..MAX_RESULTS] else all
  }

  function WithRowState(arts: map<string, Artifact>, id: string, s: Promotion.State): map<string, Artifact> {
    if id in arts then arts[id := arts[id].(state := s)] else arts
  }

  function Promoting(r: State, p: PromoteArgs, rec: map<string, Value>): State
    requires p.id in r.artifacts
  {
    var previous := Lookup(r.aliases, p.alias);
    var a := Promoted(r.artifacts[p.id], p.gate, rec, p.manifest, previous);
    var arts := r.artifacts[p.id := a];
    State(
      if a.state == Production && previous.Some? then WithRowState(arts, previous.value, Retired) else arts,
      r.aliases[p.alias := p.id],
      Latest(r.results, p.gate))
  }

  function RowsAfterPromote(policy: Policy, r: State, p: PromoteArgs): Result<State, Error> {
    match Checks(policy, r, p)
    case Err(e) => Err(e)
    case Ok(rec) => Ok(Promoting(r, p, rec))
  }

  function RowsAfterRollback(r: State, alias: string): Result<State, Error> {
    if alias !in r.aliases then Err(UnknownKey(alias))
    else
      var current := r.aliases[alias];
      if current !in r.artifacts then Err(UnknownKey(current))
      else
        var back := r.artifacts[current].rollbackTo;
        if Missing(back) then Err(NoRollbackTarget)
        else if back.value !in r.artifacts then Err(UnknownKey(back.value))
        else Ok(r.(
          artifacts := WithRowState(WithRowState(r.artifacts, current, Retired), back.value, Production),
          aliases := r.aliases[alias := back.value]))
  }

  /** The registry checks whose gate result it is, the decision and the controls before it looks for the artifact. */
  lemma PromotionChecks(policy: Policy, r: State, p: PromoteArgs)
    ensures p.gate.candidate != p.id ==> RowsAfterPromote(policy, r, p) == Err(WrongCandidate)
    ensures p.gate.candidate == p.id && p.gate.decision !in {"canary", "promote"} ==>
      RowsAfterPromote(policy, r, p) == Err(GateBlocks)
    ensures p.gate.candidate == p.id && p.gate.decision in {"canary", "promote"} ==>
      match ValidateControls(policy, p.gate.metrics, p.approval, p.manifest)
      case Err(e) => RowsAfterPromote(policy, r, p) == Err(e)
      case Ok(_) =>
        if p.id in r.artifacts then RowsAfterPromote(policy, r, p).Ok?
        else RowsAfterPromote(policy, r, p) == Err(UnknownKey(p.id))
  {
  }

  /** What a promotion that passes writes: the row of the artifact, with whatever the alias held as its rollback
      pointer, retired at once if the alias held the artifact itself and it goes to production; and the alias. */
  lemma PromotionWrites(policy: Policy, r: State, p: PromoteArgs, r': State, held: Option<string>)
    requires RowsAfterPromote(policy, r, p) == Ok(r') && p.id in r.artifacts
    requires held == if p.alias in r.aliases then Some(r.aliases[p.alias]) else None
    ensures r'.aliases == r.aliases[p.alias := p.id] && r'.artifacts.Keys == r.artifacts.Keys
    ensures var a := Promoted(r.artifacts[p.id], p.gate, ApprovalRecord(p.approval), p.manifest, held);
      r'.artifacts[p.id] == if p.gate.decision != "canary" && held == Some(p.id) then a.(state := Retired) else a
  {
    ControlsHoldExactly(policy, p.gate.metrics, p.approval, p.manifest);
  }

  /** Of the other rows only the one the alias held changes, and the gate results are the newest thousand. */
  lemma PromotionKeepsOthers(policy: Policy, r: State, p: PromoteArgs, r': State)
    requires RowsAfterPromote(policy, r, p) == Ok(r') && p.id in r.artifacts
    ensures r'.artifacts.Keys == r.artifacts.Keys
    ensures forall id :: id in r.artifacts && id != p.id ==>
      r'.artifacts[id] ==
        if p.gate.decision != "canary" && p.alias in r.aliases && r.aliases[p.alias] == id
        then r.artifacts[id].(state := Retired)
        else r.artifacts[id]
    ensures |r'.results| == if |r.results| < 1000 then |r.results| + 1 else 1000
    ensures r'.results[0] == p.gate && forall i :: 1 <= i < |r'.results| ==> r'.results[i] == r.results[i - 1]
  {
  }

  /** What a rollback writes, and when it is refused. */
  lemma RollbackWrites(r: State, alias: string)
    ensures alias !in r.aliases ==> RowsAfterRollback(r, alias) == Err(UnknownKey(alias))
    ensures alias in r.aliases && r.aliases[alias] !in r.artifacts ==>
      RowsAfterRollback(r, alias) == Err(UnknownKey(r.aliases[alias]))
    ensures alias in r.aliases && r.aliases[alias] in r.artifacts ==>
      var current := r.aliases[alias];
      var back := r.artifacts[current].rollbackTo;
      if back == None || back == Some("") then RowsAfterRollback(r, alias) == Err(NoRollbackTarget)
      else if back.value !in r.artifacts then RowsAfterRollback(r, alias) == Err(UnknownKey(back.value))
      else
        && RowsAfterRollback(r, alias).Ok?
        && var r' := RowsAfterRollback(r, alias).value;
          && r'.aliases == r.aliases[alias := back.value] && r'.results == r.results
          && r'.artifacts.Keys == r.artifacts.Keys
          && forall id :: id in r.artifacts ==>
               r'.artifacts[id] ==
                 if id == back.value then r.artifacts[id].(state := Production)
                 else if id == current then r.artifacts[id].(state := Retired)
                 else r.artifacts[id]
  {
  }

  /** Rows are plain dictionaries: they are read out, changed and written back, under one lock per call. */
  class MeshBrainRegistry {
    const policy: Policy
    var artifacts: map<string, Artifact>
    var aliases: map<string, string>
    var results: seq<GateResult>

    constructor ()
      ensures View() == State(map[], map[], []) && policy == MESH_POLICY
    {
      policy := MESH_POLICY;
      artifacts, aliases, results := map[], map[], [];
    }

    function View(): State
      reads this
    {
      State(artifacts, aliases, results)
    }

    lemma ViewInFull()
      ensures View().artifacts == artifacts && View().aliases == aliases && View().results == results
    {
    }

    method RegisterArtifact(a: Artifact)
      modifies this
      ensures View() == old(View()).(artifacts := old(artifacts)[a.id := a])
    {
      artifacts := artifacts[a.id := a];
    }

    method PromoteArtifact(p: PromoteArgs) returns (r: Result<Artifact, Error>)
      modifies this
      ensures match RowsAfterPromote(policy, old(View()), p)
        case Ok(s) =>
          && View() == s
          && r == Ok(Promoted(old(artifacts)[p.id], p.gate, ApprovalRecord(p.approval), p.manifest,
            Lookup(old(aliases), p.alias)))
        case Err(e) => View() == old(View()) && r == Err(e)
    {
      if p.gate.candidate != p.id {
        return Err(WrongCandidate);
      }
      if p.gate.decision !in {"canary", "promote"} {
        return Err(GateBlocks);
      }
      var checked := ValidateControls(policy, p.gate.metrics, p.approval, p.manifest);
      if checked.Err? {
        return Err(checked.error);
      }
      if p.id !in artifacts {
        return Err(UnknownKey(p.id));
      }
      var previous := Lookup(aliases, p.alias);
      var artifact := artifacts[p.id];
      artifact := artifact.(
        state := DecidedState(p.gate.decision), evalReport := Some(p.gate.id), rollbackTo := previous);
      artifact := artifact.(metadata := Annotate(artifact.metadata, checked.value, p.manifest, p.gate.metrics));
      artifacts := artifacts[p.id := artifact];
      if artifact.state == Production && previous.Some? && previous.value in artifacts {
        var replaced := artifacts[previous.value];
        artifacts := artifacts[previous.value := replaced.(state := Retired)];
      }
      aliases := aliases[p.alias := p.id];
      results := Latest(results, p.gate);
      r := Ok(artifact);
    }

    method Rollback(alias: string) returns (r: Result<Artifact, Error>)
      modifies this
      ensures match RowsAfterRollback(old(View()), alias)
        case Ok(s) => View() == s && r == Ok(artifacts[aliases[alias]])
        case Err(e) => View() == old(View()) && r == Err(e)
    {
      if alias !in aliases {
        return Err(UnknownKey(alias));
      }
      var currentId := aliases[alias];
      if currentId !in artifacts {
        return Err(UnknownKey(currentId));
      }
      var current := artifacts[currentId];
      if Missing(current.rollbackTo) {
        return Err(NoRollbackTarget);
      }
      var backId := current.rollbackTo.value;
      if backId !in artifacts {
        return Err(UnknownKey(backId));
      }
      var restored := artifacts[backId].(state := Production);
      artifacts := artifacts[currentId := current.(state := Retired)];
      artifacts := artifacts[backId := restored];
      aliases := aliases[alias := backId];
      r := Ok(restored);
    }
  }

  // ---- simulation ----

  /** Same artifacts, field by field, and the same alias targets. */
  ghost predicate Matches(c: Catalog, r: State) {
    && c.artifacts == r.artifacts
    && r.aliases.Keys == c.aliases.Keys
    && forall a :: a in c.aliases ==> r.aliases[a] == c.aliases[a].target
  }

  /** The alias already points at the artifact to be promoted. */
  predicate AlreadyHeld(c: Catalog, p: PromoteArgs) {
    p.alias in c.aliases && c.aliases[p.alias].target == p.id
  }

  lemma ChecksAgree(c: Catalog, r: State, p: PromoteArgs)
    requires Matches(c, r)
    ensures CheckPromotion(c, p).Ok? <==> Checks(c.policy, r, p).Ok?
    ensures CheckPromotion(c, p).Ok? ==> CheckPromotion(c, p) == Checks(c.policy, r, p)
  {
  }

  lemma {:induction false} PromotingAgrees(c: Catalog, r: State, p: PromoteArgs, rec: map<string, Value>)
    requires WellFormed(c) && Matches(c, r) && p.id in c.artifacts && !AlreadyHeld(c, p)
    ensures Matches(ModelCatalog.Promoting(c, p, rec), Promoting(r, p, rec))
  {
    assert PreviousFor(c, p.id, p.alias) == Lookup(r.aliases, p.alias);
  }

  /** Promoting what the alias already holds always makes the two differ: the registry points the artifact at itself. */
  lemma HeldPromotionDiverges(c: Catalog, r: State, p: PromoteArgs, rec: map<string, Value>)
    requires Matches(c, r) && p.id in c.artifacts && AlreadyHeld(c, p) && c.aliases[p.alias].previous != Some(p.id)
    ensures !Matches(ModelCatalog.Promoting(c, p, rec), Promoting(r, p, rec))
    ensures Promoting(r, p, rec).artifacts[p.id].rollbackTo == Some(p.id)
    ensures p.gate.decision != "canary" ==> Promoting(r, p, rec).artifacts[p.id].state == Retired
  {
    assert ModelCatalog.Promoting(c, p, rec).artifacts[p.id].rollbackTo == c.aliases[p.alias].previous;
  }

  /** A passing promotion keeps catalog and registry in step exactly when the alias does not hold the artifact yet. */
  lemma {:induction false} PromotionKeepsStepExactly(c: Catalog, r: State, p: PromoteArgs)
    requires WellFormed(c) && Matches(c, r) && CheckPromotion(c, p).Ok?
    requires p.alias in c.aliases ==> c.aliases[p.alias].previous != Some(c.aliases[p.alias].target)
    ensures RowsAfterPromote(c.policy, r, p).Ok?
    ensures Matches(ModelCatalog.AfterPromote(c, p).value, RowsAfterPromote(c.policy, r, p).value)
      <==> !(p.alias in c.aliases && c.aliases[p.alias].target == p.id)
  {
    ChecksAgree(c, r, p);
    var rec := CheckPromotion(c, p).value;
    if AlreadyHeld(c, p) {
      HeldPromotionDiverges(c, r, p, rec);
    } else {
      PromotingAgrees(c, r, p, rec);
    }
  }

  lemma RollbackAgrees(c: Catalog, r: State, alias: string)
    requires WellFormed(c) && Matches(c, r)
    ensures ModelCatalog.AfterRollback(c, alias).Ok? <==> RowsAfterRollback(r, alias).Ok?
    ensures ModelCatalog.AfterRollback(c, alias).Ok? ==>
      Matches(ModelCatalog.AfterRollback(c, alias).value, RowsAfterRollback(r, alias).value)
  {
  }

  // ---- runs ----

  function Settle(r: State, result: Result<State, Error>): State {
    match result
    case Ok(r') => r'
    case Err(_) => r
  }

  /** The registry has no retire. */
  function Step(policy: Policy, r: State, op: Op): State
    requires !op.DoRetire?
  {
    match op
    case DoRegister(a) => r.(artifacts := r.artifacts[a.id := a])
    case DoPromote(p) => Settle(r, RowsAfterPromote(policy, r, p))
    case DoRollback(alias) => Settle(r, RowsAfterRollback(r, alias))
  }

  function Run(policy: Policy, r: State, ops: seq<Op>): State
    requires forall i :: 0 <= i < |ops| ==> !ops[i].DoRetire?
  {
    if ops == [] then r else Step(policy, Run(policy, r, ops[..|ops| - 1]), ops[|ops| - 1])
  }

  ghost predicate NeverHeld(c: Catalog, ops: seq<Op>)
    decreases |ops|
  {
    ops == [] || (NeverHeld(c, ops[..|ops| - 1])
                  && (ops[|ops| - 1].DoPromote? ==>
                    !AlreadyHeld(ModelCatalog.Run(c, ops[..|ops| - 1]), ops[|ops| - 1].p)))
  }

  predicate Accepted(c: Catalog, op: Op)
    requires !op.DoRetire?
  {
    match op
    case DoRegister(_) => true
    case DoPromote(p) => ModelCatalog.AfterPromote(c, p).Ok?
    case DoRollback(alias) => ModelCatalog.AfterRollback(c, alias).Ok?
  }

  predicate AcceptedByRegistry(policy: Policy, r: State, op: Op)
    requires !op.DoRetire?
  {
    match op
    case DoRegister(_) => true
    case DoPromote(p) => RowsAfterPromote(policy, r, p).Ok?
    case DoRollback(alias) => RowsAfterRollback(r, alias).Ok?
  }

  lemma {:induction false} StepAgrees(c: Catalog, r: State, op: Op)
    requires WellFormed(c) && Matches(c, r) && !op.DoRetire?
    requires op.DoPromote? ==> !AlreadyHeld(c, op.p)
    ensures Accepted(c, op) <==> AcceptedByRegistry(c.policy, r, op)
    ensures Matches(ModelCatalog.Step(c, op), Step(c.policy, r, op))
  {
    match op
    case DoRegister(a) =>
    case DoPromote(p) =>
      ChecksAgree(c, r, p);
      if CheckPromotion(c, p).Ok? {
        PromotingAgrees(c, r, p, CheckPromotion(c, p).value);
      }
    case DoRollback(alias) => RollbackAgrees(c, r, alias);
  }

  lemma {:induction false} RunsStayInStep(c: Catalog, r: State, ops: seq<Op>)
    requires WellFormed(c) && Matches(c, r) && NeverHeld(c, ops)
    requires forall i :: 0 <= i < |ops| ==> !ops[i].DoRetire?
    ensures var c', r' := ModelCatalog.Run(c, ops), Run(c.policy, r, ops);
      WellFormed(c') && c'.policy == c.policy && Matches(c', r')
    decreases |ops|
  {
    if ops != [] {
      var before, op := ops[..|ops| - 1], ops[|ops| - 1];
      RunsStayInStep(c, r, before);
      OneMoreStep(ModelCatalog.Run(c, before), Run(c.policy, r, before), op);
    }
  }

  lemma {:induction false} OneMoreStep(c: Catalog, r: State, op: Op)
    requires WellFormed(c) && Matches(c, r) && !op.DoRetire?
    requires op.DoPromote? ==> !AlreadyHeld(c, op.p)
    ensures var c', r' := ModelCatalog.Step(c, op), Step(c.policy, r, op);
      WellFormed(c') && c'.policy == c.policy && Matches(c', r')
  {
    StepKeepsWellFormed(c, op);
    StepAgrees(c, r, op);
    KeepsPolicy(c, op);
  }

  lemma KeepsPolicy(c: Catalog, op: Op)
    ensures ModelCatalog.Step(c, op).policy == c.policy
  {
  }

  /** Main result: over every run without a held promotion, the registry simulates the catalog: it has the same
      artifacts and the same alias targets, and the next call succeeds on one exactly when it succeeds on the other. */
  lemma {:induction false} RegistrySimulatesCatalog(
      c: Catalog, r: State, ops: seq<Op>, next: Op, c': Catalog, r': State)
    requires WellFormed(c) && Matches(c, r) && NeverHeld(c, ops) && !next.DoRetire?
    requires forall i :: 0 <= i < |ops| ==> !ops[i].DoRetire?
    requires c' == ModelCatalog.Run(c, ops) && r' == Run(c.policy, r, ops)
    ensures WellFormed(c') && c'.policy == c.policy
    ensures r'.artifacts == c'.artifacts && r'.aliases.Keys == c'.aliases.Keys
    ensures forall a :: a in c'.aliases ==> r'.aliases[a] == c'.aliases[a].target
    ensures next.DoPromote? ==>
      (ModelCatalog.AfterPromote(c', next.p).Ok? <==> RowsAfterPromote(c.policy, r', next.p).Ok?)
    ensures next.DoRollback? ==>
      (ModelCatalog.AfterRollback(c', next.alias).Ok? <==> RowsAfterRollback(r', next.alias).Ok?)
  {
    RunsStayInStep(c, r, ops);
    AcceptanceAgrees(c', r', next);
  }

  lemma AcceptanceAgrees(c: Catalog, r: State, op: Op)
    requires WellFormed(c) && Matches(c, r) && !op.DoRetire?
    ensures Accepted(c, op) <==> AcceptedByRegistry(c.policy, r, op)
  {
    match op
    case DoRegister(a) =>
    case DoPromote(p) => ChecksAgree(c, r, p);
    case DoRollback(alias) => RollbackAgrees(c, r, alias);
  }

  /** A new catalog and a new registry are in step. */
  lemma EmptyMatches(policy: Policy)
    ensures Matches(Empty(policy), State(map[], map[], []))
  {
  }
}
