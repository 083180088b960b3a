/** The in-memory model catalog: its transitions on values, and the class whose methods perform them in place. */
module ModelCatalog {
  import opened Values
  import opened Promotion

  datatype AliasRow = AliasRow(alias: string, target: string, previous: Option<string>, state: State)

  /** Artifacts by id, their insertion order, alias rows, and the promotion policy, which never changes. */
  datatype Catalog = Catalog(
    policy: Policy, artifacts: map<string, Artifact>, order: seq<string>, aliases: map<string, AliasRow>)

  function Empty(policy: Policy): Catalog {
    Catalog(policy, map[], [], map[])
  }

  datatype PromoteArgs = PromoteArgs(
    id: string, gate: GateResult, alias: string, approval: Approval, manifest: Option<string>)

  ghost predicate WellFormed(c: Catalog) {
    && (forall id :: id in c.artifacts ==> c.artifacts[id].id == id)
    && (forall id :: id in c.order <==> id in c.artifacts)
    && (forall a :: a in c.aliases ==> c.aliases[a].alias == a && c.aliases[a].target in c.artifacts)
  }

  // ---- transitions ----

  function AfterRegister(c: Catalog, a: Artifact): Catalog {
    c.(artifacts := c.artifacts[a.id := a],
       order := if a.id in c.artifacts then c.order else c.order + [a.id])
  }

  /** The id that a promotion under alias records as its rollback target. */
  function PreviousFor(c: Catalog, id: string, alias: string): Option<string> {
    if alias !in c.aliases then None
    else if c.aliases[alias].target == id then c.aliases[alias].previous
    else Some(c.aliases[alias].target)
  }

  function CheckPromotion(c: Catalog, p: PromoteArgs): Result<map<string, Value>, Error> {
    if p.id !in c.artifacts then Err(UnknownKey(p.id))
    else if p.gate.candidate != p.id then Err(WrongCandidate)
    else if p.gate.decision !in {"canary", "promote"} then Err(GateBlocks)
    else ValidateControls(c.policy, p.gate.metrics, p.approval, p.manifest)
  }

  lemma ChecksReadOnlyMembership(c: Catalog, c': Catalog, p: PromoteArgs)
    requires c.policy == c'.policy
    requires p.id in c.artifacts <==> p.id in c'.artifacts
    ensures CheckPromotion(c, p) == CheckPromotion(c', p)
  {
  }

  /** First the artifact itself is written. */
  function Recorded(c: Catalog, p: PromoteArgs, rec: map<string, Value>): Catalog
    requires p.id in c.artifacts
  {
    c.(artifacts := c.artifacts[p.id :=
      Promoted(c.artifacts[p.id], p.gate, rec, p.manifest, PreviousFor(c, p.id, p.alias))])
  }

  /** Then a new production artifact retires the one its alias pointed at. */
  function Replacing(c: Catalog, p: PromoteArgs): Catalog
    requires p.id in c.artifacts
  {
    if c.artifacts[p.id].state == Production && p.alias in c.aliases
      && c.aliases[p.alias].target != p.id && c.aliases[p.alias].target in c.artifacts
    then WithState(c, c.aliases[p.alias].target, Retired)
    else c
  }

  function WithState(c: Catalog, id: string, s: State): Catalog
    requires id in c.artifacts
  {
    c.(artifacts := c.artifacts[id := c.artifacts[id].(state := s)])
  }

  /** Last the alias row is written. */
  function Pointed(c: Catalog, p: PromoteArgs): Catalog
    requires p.id in c.artifacts
  {
    c.(aliases := c.aliases[p.alias := AliasRow(p.alias, p.id, PreviousFor(c, p.id, p.alias), c.artifacts[p.id].state)])
  }

  function Promoting(c: Catalog, p: PromoteArgs, rec: map<string, Value>): Catalog
    requires p.id in c.artifacts
  {
    Pointed(Replacing(Recorded(c, p, rec), p), p)
  }

  function AfterPromote(c: Catalog, p: PromoteArgs): Result<Catalog, Error> {
    match CheckPromotion(c, p)
    case Err(e) => Err(e)
    case Ok(rec) => Ok(Promoting(c, p, rec))
  }

  function RollingBack(c: Catalog, alias: string, current: string, back: string): Catalog
    requires current in c.artifacts && back in c.artifacts
  {
    WithState(WithState(c, current, Retired), back, Production)
      .(aliases := c.aliases[alias := AliasRow(alias, back, Some(current), Production)])
  }

  function AfterRollback(c: Catalog, alias: string): Result<Catalog, Error> {
    if alias !in c.aliases then Err(UnknownKey(alias))
    else
      var current := c.aliases[alias].target;
      if current !in c.artifacts then Err(UnknownKey(current))
      else
        var back := c.artifacts[current].rollbackTo;
        if Missing(back) then Err(NoRollbackTarget)
        else if back.value !in c.artifacts then Err(UnknownKey(back.value))
        else Ok(RollingBack(c, alias, current, back.value))
  }

  function WithoutTarget(aliases: map<string, AliasRow>, id: string): map<string, AliasRow> {
    map a | a in aliases && aliases[a].target != id :: aliases[a]
  }

  function AfterRetire(c: Catalog, id: string): Result<Catalog, Error> {
    if id !in c.artifacts then Err(UnknownKey(id))
    else Ok(WithState(c, id, Retired).(aliases := WithoutTarget(c.aliases, id)))
  }

  // ---- runs ----

  datatype Op =
    | DoRegister(a: Artifact)
    | DoPromote(p: PromoteArgs)
    | DoRollback(alias: string)
    | DoRetire(id: string)

  /** A call that raises leaves the catalog as it was. */
  function Settle(c: Catalog, r: Result<Catalog, Error>): Catalog {
    match r
    case Ok(c') => c'
    case Err(_) => c
  }

  function Step(c: Catalog, op: Op): Catalog {
    match op
    case DoRegister(a) => AfterRegister(c, a)
    case DoPromote(p) => Settle(c, AfterPromote(c, p))
    case DoRollback(alias) => Settle(c, AfterRollback(c, alias))
    case DoRetire(id) => Settle(c, AfterRetire(c, id))
  }

  function Run(c: Catalog, ops: seq<Op>): Catalog {
    if ops == [] then c else Step(Run(c, ops[..|ops| - 1]), ops[|ops| - 1])
  }

  // ---- the transitions, field by field ----

  /** A promotion is checked in this order: the artifact, whose gate result it is, the decision, the controls. */
  lemma PromotionChecks(c: Catalog, p: PromoteArgs)
    ensures p.id !in c.artifacts ==> AfterPromote(c, p) == Err(UnknownKey(p.id))
    ensures p.id in c.artifacts && p.gate.candidate != p.id ==> AfterPromote(c, p) == Err(WrongCandidate)
    ensures p.id in c.artifacts && p.gate.candidate == p.id && p.gate.decision !in {"canary", "promote"} ==>
      AfterPromote(c, p) == Err(GateBlocks)
    ensures p.id in c.artifacts && p.gate.candidate == p.id && p.gate.decision in {"canary", "promote"} ==>
      match ValidateControls(c.policy, p.gate.metrics, p.approval, p.manifest)
      case Err(e) => AfterPromote(c, p) == Err(e)
      case Ok(_) => AfterPromote(c, p).Ok?
  {
  }

  /** What a promotion that passes writes on the artifact and in the alias row. The rollback pointer is what the alias
      pointed at, or what its row recorded if that is the artifact itself. */
  lemma PromotionWrites(c: Catalog, p: PromoteArgs, c': Catalog, previous: Option<string>)
    requires AfterPromote(c, p) == Ok(c') && p.id in c.artifacts
    requires previous ==
      if p.alias !in c.aliases then None
      else if c.aliases[p.alias].target == p.id then c.aliases[p.alias].previous
      else Some(c.aliases[p.alias].target)
    ensures c'.policy == c.policy && c'.order == c.order && c'.artifacts.Keys == c.artifacts.Keys
    ensures c'.artifacts[p.id] ==
      Promoted(c.artifacts[p.id], p.gate, ApprovalRecord(p.approval), p.manifest, previous)
    ensures c'.aliases == c.aliases[p.alias :=
      AliasRow(p.alias, p.id, previous, if p.gate.decision == "canary" then Canary else Production)]
  {
    ControlsHoldExactly(c.policy, p.gate.metrics, p.approval, p.manifest);
  }

  /** Besides, only a promotion to production changes anything: it retires what the alias pointed at. */
  lemma PromotionKeepsOthers(c: Catalog, p: PromoteArgs, c': Catalog, id: string)
    requires AfterPromote(c, p) == Ok(c') && id in c.artifacts && id != p.id
    ensures id in c'.artifacts
    ensures p.gate.decision != "canary" && p.alias in c.aliases && c.aliases[p.alias].target == id ==>
      c'.artifacts[id] == c.artifacts[id].(state := Retired)
    ensures p.gate.decision == "canary" || p.alias !in c.aliases || c.aliases[p.alias].target != id ==>
      c'.artifacts[id] == c.artifacts[id]
  {
  }

  /** A rollback makes what the current artifact records the alias target again, in production, retires the current
      one, and touches nothing else; it is refused without a row or without a recorded artifact. */
  lemma RollbackWrites(c: Catalog, alias: string)
    requires WellFormed(c)
    ensures alias !in c.aliases ==> AfterRollback(c, alias) == Err(UnknownKey(alias))
    ensures alias in c.aliases ==>
      var current := c.aliases[alias].target;
      var back := c.artifacts[current].rollbackTo;
      if back == None || back == Some("") then AfterRollback(c, alias) == Err(NoRollbackTarget)
      else if back.value !in c.artifacts then AfterRollback(c, alias) == Err(UnknownKey(back.value))
      else
        && AfterRollback(c, alias).Ok?
        && var c' := AfterRollback(c, alias).value;
          && c'.policy == c.policy && c'.order == c.order && c'.artifacts.Keys == c.artifacts.Keys
          && c'.aliases == c.aliases[alias := AliasRow(alias, back.value, Some(current), Production)]
          && forall id :: id in c.artifacts ==>
               c'.artifacts[id] ==
                 if id == back.value then c.artifacts[id].(state := Production)
                 else if id == current then c.artifacts[id].(state := Retired)
                 else c.artifacts[id]
  {
  }

  /** Retiring changes one state and deletes exactly the rows that point at the artifact; registering puts one artifact
      under its id, at the end of the order if the id is new. */
  lemma RetirementAndRegistrationWrite(c: Catalog, id: string, a: Artifact)
    ensures id !in c.artifacts ==> AfterRetire(c, id) == Err(UnknownKey(id))
    ensures id in c.artifacts ==>
      && AfterRetire(c, id).Ok?
      && var c' := AfterRetire(c, id).value;
        && c'.policy == c.policy && c'.order == c.order
        && c'.artifacts == c.artifacts[id := c.artifacts[id].(state := Retired)]
        && (forall row :: row in c'.aliases <==> row in c.aliases && c.aliases[row].target != id)
        && (forall row :: row in c'.aliases ==> c'.aliases[row] == c.aliases[row])
    ensures var c' := AfterRegister(c, a);
      && c'.policy == c.policy && c'.aliases == c.aliases
      && c'.artifacts == c.artifacts[a.id := a]
      && c'.order == (if a.id in c.artifacts then c.order else c.order + [a.id])
  {
  }

  /** A run goes on from where it is: an accepted call has its effect, a refused one none. */
  lemma RunGoesOn(c: Catalog, ops: seq<Op>, op: Op, before: Catalog, after: Catalog)
    requires before == Run(c, ops) && after == Run(c, ops + [op])
    ensures op.DoRegister? ==> after == AfterRegister(before, op.a)
    ensures op.DoPromote? ==>
      after == if AfterPromote(before, op.p).Ok? then AfterPromote(before, op.p).value else before
    ensures op.DoRollback? ==>
      after == if AfterRollback(before, op.alias).Ok? then AfterRollback(before, op.alias).value else before
    ensures op.DoRetire? ==>
      after == if AfterRetire(before, op.id).Ok? then AfterRetire(before, op.id).value else before
    ensures Run(c, []) == c
  {
    assert (ops + [op])[..|ops|] == ops;
  }

  /** The last step of a promotion, from what the first two leave. */
  lemma PromotingInSteps(c: Catalog, p: PromoteArgs, rec: map<string, Value>, m: Catalog)
    requires p.id in c.artifacts && m == Replacing(Recorded(c, p, rec), p)
    ensures p.id in m.artifacts
    ensures Promoting(c, p, rec) ==
      m.(aliases := m.aliases[p.alias :=
        AliasRow(p.alias, p.id, PreviousFor(c, p.id, p.alias), m.artifacts[p.id].state)])
  {
  }

  lemma {:induction false} PromotingKeepsWellFormed(c: Catalog, p: PromoteArgs, rec: map<string, Value>)
    requires WellFormed(c) && p.id in c.artifacts
    ensures WellFormed(Promoting(c, p, rec))
  {
  }

  lemma {:induction false} StepKeepsWellFormed(c: Catalog, op: Op)
    requires WellFormed(c)
    ensures WellFormed(Step(c, op))
  {
    if op.DoPromote? && CheckPromotion(c, op.p).Ok? {
      PromotingKeepsWellFormed(c, op.p, CheckPromotion(c, op.p).value);
    }
  }

  // ---- in place ----

  class ModelArtifact {
    const id: string
    const kind: string
    const tenant: Option<string>
    const task: Option<string>
    var state: State
    var evalReport: Option<string>
    var rollbackTo: Option<string>
    var metadata: map<string, Value>

    constructor (a: Artifact)
      ensures Row() == a
    {
      id, kind, tenant, task := a.id, a.kind, a.tenant, a.task;
      state, evalReport, rollbackTo, metadata := a.state, a.evalReport, a.rollbackTo, a.metadata;
    }

    function Row(): Artifact
      reads this
    {
      Artifact(id, kind, tenant, task, state, evalReport, rollbackTo, metadata)
    }

    method RecordPromotion(
        gate: GateResult, rec: map<string, Value>, manifest: Option<string>, previous: Option<string>)
      modifies this
      ensures Row() == Promoted(old(Row()), gate, rec, manifest, previous)
      ensures state == (if gate.decision == "canary" then Canary else Production) && evalReport == Some(gate.id)
      ensures rollbackTo == previous
      ensures metadata == old(metadata)["promotion_approval" := Dict(rec)]
        ["rollback_manifest_ref" := if manifest.Some? then Str(manifest.value) else Null]
        ["promotion_gate_metrics" := Dict(gate.metrics)]
    {
      state := if gate.decision == "canary" then Canary else Production;
      evalReport := Some(gate.id);
      rollbackTo := previous;
      metadata := metadata["promotion_approval" := Dict(rec)];
      metadata := metadata["rollback_manifest_ref" := if manifest.Some? then Str(manifest.value) else Null];
      metadata := metadata["promotion_gate_metrics" := Dict(gate.metrics)];
    }

    method SetState(s: State)
      modifies this`state
      ensures Row() == old(Row()).(state := s) && state == s
    {
      state := s;
    }
  }

  class MeshBrainModelCatalog {
    /** The catalog as a value. */
    ghost var model: Catalog

    const policy: Policy
    var artifacts: map<string, ModelArtifact>
    var order: seq<string>
    var aliases: map<string, AliasRow>

    ghost predicate Valid()
      reads this, artifacts.Values
    {
      && policy == model.policy
      && artifacts.Keys == model.artifacts.Keys
      && (forall id :: id in artifacts ==> artifacts[id].id == id && artifacts[id].Row() == model.artifacts[id])
      && order == model.order
      && aliases == model.aliases
      && WellFormed(model)
    }

    /** The fields hold the catalog: the same policy, order and alias rows, and under every id the object with the
        artifact of that id. */
    lemma ValidInFull(id: string)
      requires Valid()
      ensures policy == model.policy && order == model.order && aliases == model.aliases
      ensures id in artifacts <==> id in model.artifacts
      ensures id in artifacts ==>
        var a, row := artifacts[id], model.artifacts[id];
        && a.id == id == row.id && a.kind == row.kind && a.tenant == row.tenant && a.task == row.task
        && a.state == row.state && a.evalReport == row.evalReport && a.rollbackTo == row.rollbackTo
        && a.metadata == row.metadata
    {
      if id in artifacts {
        assert artifacts[id].Row() == model.artifacts[id];
      }
    }

    constructor ()
      ensures Valid() && model == Empty(MESH_POLICY)
    {
      policy, model := MESH_POLICY, Empty(MESH_POLICY);
      artifacts, order, aliases := map[], [], map[];
    }

    method RegisterArtifact(artifact: ModelArtifact)
      requires Valid()
      modifies this
      ensures Valid() && model == AfterRegister(old(model), artifact.Row())
      ensures artifacts == old(artifacts)[artifact.id := artifact] && aliases == old(aliases)
    {
      if artifact.id !in artifacts {
        order := order + [artifact.id];
      }
      artifacts := artifacts[artifact.id := artifact];
      model := AfterRegister(model, artifact.Row());
    }

    method RequireArtifact(id: string) returns (r: Result<ModelArtifact, Error>)
      requires Valid()
      ensures if id in artifacts then r == Ok(artifacts[id]) else r == Err(UnknownKey(id))
    {
      if id in artifacts {
        r := Ok(artifacts[id]);
      } else {
        r := Err(UnknownKey(id));
      }
    }

    method CheckedControls(p: PromoteArgs) returns (r: Result<map<string, Value>, Error>)
      requires Valid()
      ensures r == CheckPromotion(model, p)
    {
      var found := RequireArtifact(p.id);
      if found.Err? {
        return Err(found.error);
      }
      if p.gate.candidate != p.id {
        return Err(WrongCandidate);
      }
      if p.gate.decision !in {"canary", "promote"} {
        return Err(GateBlocks);
      }
      r := ValidateControls(policy, p.gate.metrics, p.approval, p.manifest);
    }

    /** Promotes in place; a refused promotion changes nothing. */
    method Promote(p: PromoteArgs) returns (r: Result<AliasRow, Error>)
      requires Valid()
      modifies this, artifacts.Values
      ensures Valid()
      ensures match AfterPromote(old(model), p)
        case Ok(c) => model == c && r == Ok(c.aliases[p.alias])
        case Err(e) => model == old(model) && r == Err(e)
    {
      var checked := CheckedControls(p);
      if checked.Err? {
        return Err(checked.error);
      }
      var row := WritePromotion(p, checked.value);
      r := Ok(row);
    }

    /** Changes the state of one artifact and nothing else. */
    method SetStateOf(id: string, s: State)
      requires Valid() && id in artifacts
      modifies this`model, artifacts[id]
      ensures Valid() && model == WithState(old(model), id, s)
    {
      artifacts[id].SetState(s);
      model := WithState(model, id, s);
    }

    /** Writes a promotion on one artifact and nothing else. */
    method RecordOn(p: PromoteArgs, rec: map<string, Value>, previous: Option<string>)
      requires Valid() && p.id in artifacts && previous == PreviousFor(model, p.id, p.alias)
      modifies this`model, artifacts[p.id]
      ensures Valid() && model == Recorded(old(model), p, rec)
      ensures artifacts[p.id].state == DecidedState(p.gate.decision)
    {
      artifacts[p.id].RecordPromotion(p.gate, rec, p.manifest, previous);
      model := Recorded(model, p, rec);
    }

    method PutAlias(row: AliasRow)
      requires Valid() && row.target in artifacts
      modifies this`model, this`aliases
      ensures Valid() && model == old(model).(aliases := old(model).aliases[row.alias := row])
    {
      aliases := aliases[row.alias := row];
      model := model.(aliases := model.aliases[row.alias := row]);
    }

    /** The row the alias has now, and the id that a promotion under it records. */
    method PreviousRow(id: string, alias: string) returns (previous: Option<AliasRow>, previousId: Option<string>)
      requires Valid()
      ensures previous == Lookup(model.aliases, alias) && previousId == PreviousFor(model, id, alias)
    {
      previous := Lookup(aliases, alias);
      previousId := None;
      if previous.Some? {
        previousId := if previous.value.target == id then previous.value.previous else Some(previous.value.target);
      }
    }

    method WritePromotion(p: PromoteArgs, rec: map<string, Value>) returns (row: AliasRow)
      requires Valid() && p.id in artifacts
      modifies this, artifacts.Values
      ensures Valid()
      ensures model == Promoting(old(model), p, rec) && row == model.aliases[p.alias]
    {
      var previous, previousId := PreviousRow(p.id, p.alias);
      RecordOn(p, rec, previousId);
      RetireReplaced(p, previous);
      PromotingInSteps(old(model), p, rec, model);
      row := AliasRow(p.alias, p.id, previousId, artifacts[p.id].state);
      PutAlias(row);
    }

    /** A new production artifact retires the one its alias pointed at. */
    method RetireReplaced(p: PromoteArgs, previous: Option<AliasRow>)
      requires Valid() && p.id in artifacts && previous == Lookup(model.aliases, p.alias)
      modifies this`model, artifacts.Values
      ensures Valid() && model == Replacing(old(model), p)
    {
      if artifacts[p.id].state == Production && previous.Some? && previous.value.target != p.id {
        SetStateOf(previous.value.target, Retired);
      }
    }

    method Rollback(alias: string) returns (r: Result<AliasRow, Error>)
      requires Valid()
      modifies this, artifacts.Values
      ensures Valid()
      ensures match AfterRollback(old(model), alias)
        case Ok(c) => model == c && r == Ok(c.aliases[alias])
        case Err(e) => model == old(model) && r == Err(e)
    {
      if alias !in aliases {
        return Err(UnknownKey(alias));
      }
      var current := artifacts[aliases[alias].target];
      if Missing(current.rollbackTo) {
        return Err(NoRollbackTarget);
      }
      var target := RequireArtifact(current.rollbackTo.value);
      if target.Err? {
        return Err(target.error);
      }
      var restored := target.value;
      SetStateOf(current.id, Retired);
      SetStateOf(restored.id, Production);
      var row := AliasRow(alias, restored.id, Some(current.id), Production);
      PutAlias(row);
      r := Ok(row);
    }

    /** Retires an artifact and deletes, one by one, the aliases that point at it. */
    method Retire(id: string) returns (r: Result<ModelArtifact, Error>)
      requires Valid()
      modifies this, artifacts.Values
      ensures Valid()
      ensures match AfterRetire(old(model), id)
        case Ok(c) => model == c && r.Ok? && r.value.id == id
        case Err(e) => model == old(model) && r == Err(e)
    {
      r := RequireArtifact(id);
      if r.Err? {
        return;
      }
      SetStateOf(id, Retired);
      DropRows(id);
    }

    method DropRows(id: string)
      requires Valid()
      modifies this`aliases, this`model
      ensures Valid() && model == old(model).(aliases := WithoutTarget(old(model).aliases, id))
    {
      DropAliases(id);
      model := model.(aliases := WithoutTarget(model.aliases, id));
    }

    /** Deletes, one by one, the aliases that point at an artifact. */
    method DropAliases(id: string)
      modifies this`aliases
      ensures aliases == WithoutTarget(old(aliases), id)
    {
      var remaining := aliases.Keys;
      while remaining != {}
        invariant remaining <= aliases.Keys
        invariant aliases ==
          map a | a in old(aliases) && (a in remaining || old(aliases)[a].target != id) :: old(aliases)[a]
        decreases remaining
      {
        var alias :| alias in remaining;
        remaining := remaining - {alias};
        if aliases[alias].target == id {
          aliases := aliases - {alias};
        }
      }
    }
  }
}
