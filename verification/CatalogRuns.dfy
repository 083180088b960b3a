/** What every run of catalog calls keeps. */
module CatalogRuns {
  import opened Values
  import opened Promotion
  import opened ModelCatalog

  /** An id that names an artifact satisfying ok. */
  ghost predicate Names(c: Catalog, id: string, ok: Artifact -> bool) {
    id in c.artifacts && ok(c.artifacts[id])
  }

  /** The whole-run invariant, for any property ok of artifacts that a promotion establishes. */
  ghost predicate Audited(c: Catalog, ok: Artifact -> bool) {
    && WellFormed(c)
    && (forall id :: id in c.artifacts && Live(c.artifacts[id].state) ==> ok(c.artifacts[id]))
    && (forall id :: id in c.artifacts && c.artifacts[id].rollbackTo.Some? ==>
          c.artifacts[id].rollbackTo.value != id && Names(c, c.artifacts[id].rollbackTo.value, ok))
    && (forall a :: a in c.aliases ==> Names(c, c.aliases[a].target, ok))
    && (forall a :: a in c.aliases && c.aliases[a].previous.Some? ==>
          c.aliases[a].previous.value != c.aliases[a].target && Names(c, c.aliases[a].previous.value, ok))
  }

  /** ok does not look at the state. */
  ghost predicate IgnoresState(ok: Artifact -> bool) {
    forall a: Artifact, s: State :: ok(a.(state := s)) == ok(a)
  }

  lemma StateChangeKeepsNames(c: Catalog, id: string, s: State, ok: Artifact -> bool, other: string)
    requires IgnoresState(ok) && id in c.artifacts && Names(c, other, ok)
    ensures Names(WithState(c, id, s), other, ok)
  {
  }

  lemma {:induction false} RetiringKeepsAudited(c: Catalog, id: string, ok: Artifact -> bool)
    requires IgnoresState(ok) && Audited(c, ok) && id in c.artifacts
    ensures Audited(WithState(c, id, Retired), ok)
  {
    var c' := WithState(c, id, Retired);
    forall other | Names(c, other, ok) ensures Names(c', other, ok) {
      StateChangeKeepsNames(c, id, Retired, ok, other);
    }
  }

  lemma {:induction false} RevivingKeepsAudited(c: Catalog, id: string, ok: Artifact -> bool)
    requires IgnoresState(ok) && Audited(c, ok) && Names(c, id, ok)
    ensures Audited(WithState(c, id, Production), ok)
  {
    var c' := WithState(c, id, Production);
    forall other | Names(c, other, ok) ensures Names(c', other, ok) {
      StateChangeKeepsNames(c, id, Production, ok, other);
    }
  }

  lemma {:induction false} RecordingKeepsAudited(
      c: Catalog, p: PromoteArgs, rec: map<string, Value>, ok: Artifact -> bool)
    requires Audited(c, ok) && p.id in c.artifacts
    requires ok(Recorded(c, p, rec).artifacts[p.id])
    ensures Audited(Recorded(c, p, rec), ok)
  {
    var c' := Recorded(c, p, rec);
    forall other | Names(c, other, ok) ensures Names(c', other, ok) {
    }
    var previous := PreviousFor(c, p.id, p.alias);
    assert previous.Some? ==> previous.value != p.id && Names(c, previous.value, ok);
  }

  /** The part of the invariant that speaks of one alias row. */
  ghost predicate RowAudited(c: Catalog, row: AliasRow, ok: Artifact -> bool) {
    && Names(c, row.target, ok)
    && (row.previous.Some? ==> row.previous.value != row.target && Names(c, row.previous.value, ok))
  }

  lemma PuttingRowKeepsAudited(c: Catalog, row: AliasRow, ok: Artifact -> bool)
    requires Audited(c, ok) && Names(c, row.target, ok)
    requires row.previous.Some? ==> row.previous.value != row.target && Names(c, row.previous.value, ok)
    ensures Audited(c.(aliases := c.aliases[row.alias := row]), ok)
  {
    var c' := c.(aliases := c.aliases[row.alias := row]);
    forall other ensures Names(c, other, ok) == Names(c', other, ok) {
    }
    assert WellFormed(c');
    forall a | a in c'.aliases ensures RowAudited(c', c'.aliases[a], ok) {
      if a != row.alias {
        assert RowAudited(c, c.aliases[a], ok);
      }
    }
  }

  lemma {:induction false} PromotingKeepsAudited(
      c: Catalog, p: PromoteArgs, rec: map<string, Value>, ok: Artifact -> bool)
    requires IgnoresState(ok) && Audited(c, ok) && p.id in c.artifacts
    requires ok(Recorded(c, p, rec).artifacts[p.id])
    ensures Audited(Promoting(c, p, rec), ok)
  {
    RecordingKeepsAudited(c, p, rec, ok);
    var recorded := Recorded(c, p, rec);
    var settled := Replacing(recorded, p);
    if settled != recorded {
      RetiringKeepsAudited(recorded, recorded.aliases[p.alias].target, ok);
      StateChangeKeepsNames(recorded, recorded.aliases[p.alias].target, Retired, ok, p.id);
    }
    PuttingRowKeepsAudited(settled, Pointed(settled, p).aliases[p.alias], ok);
  }

  lemma {:induction false} RollingBackKeepsAudited(c: Catalog, alias: string, ok: Artifact -> bool)
    requires IgnoresState(ok) && Audited(c, ok) && AfterRollback(c, alias).Ok?
    ensures Audited(AfterRollback(c, alias).value, ok)
  {
    var current := c.aliases[alias].target;
    var back := c.artifacts[current].rollbackTo.value;
    RetiringKeepsAudited(c, current, ok);
    var retired := WithState(c, current, Retired);
    StateChangeKeepsNames(c, current, Retired, ok, back);
    StateChangeKeepsNames(c, current, Retired, ok, current);
    RevivingKeepsAudited(retired, back, ok);
    StateChangeKeepsNames(retired, back, Production, ok, back);
    StateChangeKeepsNames(retired, back, Production, ok, current);
    PuttingRowKeepsAudited(WithState(retired, back, Production), AliasRow(alias, back, Some(current), Production), ok);
  }

  lemma {:induction false} RetireKeepsAudited(c: Catalog, id: string, ok: Artifact -> bool)
    requires IgnoresState(ok) && Audited(c, ok) && AfterRetire(c, id).Ok?
    ensures Audited(AfterRetire(c, id).value, ok)
  {
    RetiringKeepsAudited(c, id, ok);
    var retired, c' := WithState(c, id, Retired), AfterRetire(c, id).value;
    forall other | Names(retired, other, ok) ensures Names(c', other, ok) {
    }
  }

  /** Another artifact's rollback pointer, or an alias row, names the id. */
  ghost predicate Referenced(c: Catalog, id: string) {
    || (exists other :: other in c.artifacts && other != id && c.artifacts[other].rollbackTo == Some(id))
    || (exists a :: a in c.aliases && (c.aliases[a].target == id || c.aliases[a].previous == Some(id)))
  }

  /** What a registration must bring: the property, if the artifact is live or its id is named already; and a rollback
      pointer, if it has one, to another artifact with the property. */
  ghost predicate Harmless(c: Catalog, a: Artifact, ok: Artifact -> bool) {
    && (Live(a.state) || Referenced(c, a.id) ==> ok(a))
    && (a.rollbackTo.Some? ==> a.rollbackTo.value != a.id && Names(c, a.rollbackTo.value, ok))
  }

  lemma {:induction false} HarmlessKeepsAudited(c: Catalog, a: Artifact, ok: Artifact -> bool)
    requires Audited(c, ok) && Harmless(c, a, ok)
    ensures Audited(AfterRegister(c, a), ok)
  {
    var c' := AfterRegister(c, a);
    forall other | Names(c, other, ok) && (other == a.id ==> ok(a)) ensures Names(c', other, ok) {
    }
    forall id | id in c'.artifacts && c'.artifacts[id].rollbackTo.Some?
      ensures c'.artifacts[id].rollbackTo.value != id && Names(c', c'.artifacts[id].rollbackTo.value, ok)
    {
      if id != a.id && c.artifacts[id].rollbackTo == Some(a.id) {
        assert Referenced(c, a.id);
      }
    }
    forall alias | alias in c.aliases && (c.aliases[alias].target == a.id || c.aliases[alias].previous == Some(a.id))
      ensures ok(a)
    {
      assert Referenced(c, a.id);
    }
  }

  lemma {:induction false} AuditedNeedsHarmless(c: Catalog, a: Artifact, ok: Artifact -> bool)
    requires Audited(c, ok) && Audited(AfterRegister(c, a), ok)
    ensures Harmless(c, a, ok)
  {
    var c' := AfterRegister(c, a);
    if Referenced(c, a.id) {
      if other :| other in c.artifacts && other != a.id && c.artifacts[other].rollbackTo == Some(a.id) {
        assert c'.artifacts[other].rollbackTo == Some(a.id);
      }
      assert Names(c', a.id, ok);
    }
    assert c'.artifacts[a.id] == a;
    if a.rollbackTo.Some? {
      var back := a.rollbackTo.value;
      assert back != a.id && Names(c', back, ok);
      assert c'.artifacts[back] == c.artifacts[back];
    }
  }

  /** Registering anything, a known id included, keeps the invariant exactly when it is harmless. */
  lemma {:induction false} RegistrationKeepsAuditedExactly(c: Catalog, a: Artifact, ok: Artifact -> bool)
    requires Audited(c, ok)
    ensures Audited(AfterRegister(c, a), ok) <==> Harmless(c, a, ok)
  {
    if Harmless(c, a, ok) {
      HarmlessKeepsAudited(c, a, ok);
    }
    if Audited(AfterRegister(c, a), ok) {
      AuditedNeedsHarmless(c, a, ok);
    }
  }

  /** Only a promotion that passes its checks has to establish ok. */
  ghost predicate Establishes(c: Catalog, op: Op, ok: Artifact -> bool) {
    op.DoPromote? && CheckPromotion(c, op.p).Ok? ==>
      ok(Recorded(c, op.p, CheckPromotion(c, op.p).value).artifacts[op.p.id])
  }

  lemma {:induction false} StepKeepsAudited(c: Catalog, op: Op, ok: Artifact -> bool)
    requires IgnoresState(ok) && Audited(c, ok) && Establishes(c, op, ok)
    ensures Audited(Step(c, op), ok) <==> (op.DoRegister? ==> Harmless(c, op.a, ok))
  {
    match op
    case DoRegister(a) => RegistrationKeepsAuditedExactly(c, a, ok);
    case DoPromote(p) =>
      if CheckPromotion(c, p).Ok? {
        PromotingKeepsAudited(c, p, CheckPromotion(c, p).value, ok);
      } else {
        assert Step(c, op) == c;
      }
    case DoRollback(alias) =>
      if AfterRollback(c, alias).Ok? {
        RollingBackKeepsAudited(c, alias, ok);
      } else {
        assert Step(c, op) == c;
      }
    case DoRetire(id) =>
      if AfterRetire(c, id).Ok? {
        RetireKeepsAudited(c, id, ok);
      } else {
        assert Step(c, op) == c;
      }
  }

  function Recordedness(policy: Policy): Artifact -> bool {
    (a: Artifact) => HasPromotionRecord(policy, a)
  }

  lemma {:induction false} PassedPromotionEstablishes(c: Catalog, op: Op)
    ensures Establishes(c, op, Recordedness(c.policy))
  {
    if op.DoPromote? && CheckPromotion(c, op.p).Ok? {
      var p := op.p;
      ControlsHoldExactly(c.policy, p.gate.metrics, p.approval, p.manifest);
      PromotionLeavesRecord(c.policy, c.artifacts[p.id], p.gate, p.approval, p.manifest, PreviousFor(c, p.id, p.alias));
    }
  }

  lemma RecordIgnoresState(policy: Policy)
    ensures IgnoresState(Recordedness(policy))
  {
  }

  lemma StepKeepsPolicy(c: Catalog, op: Op)
    ensures Step(c, op).policy == c.policy
  {
  }

  /** Every registration of the run is harmless when it happens; every other call is unrestricted. */
  ghost predicate HarmlessRun(c: Catalog, ops: seq<Op>)
    decreases |ops|
  {
    ops == [] || (
      var before, op := ops[..|ops| - 1], ops[|ops| - 1];
      HarmlessRun(c, before) && (op.DoRegister? ==> Harmless(Run(c, before), op.a, Recordedness(c.policy))))
  }

  ghost predicate AuditedThroughout(c: Catalog, ops: seq<Op>)
    decreases |ops|
  {
    Audited(Run(c, ops), Recordedness(c.policy)) && (ops == [] || AuditedThroughout(c, ops[..|ops| - 1]))
  }

  lemma {:induction false} RunKeepsPolicy(c: Catalog, ops: seq<Op>)
    ensures Run(c, ops).policy == c.policy
    decreases |ops|
  {
    if ops != [] {
      RunKeepsPolicy(c, ops[..|ops| - 1]);
      StepKeepsPolicy(Run(c, ops[..|ops| - 1]), ops[|ops| - 1]);
    }
  }

  /** Main result: whatever is called in whatever order and however often it is refused, the following holds all through
      a run exactly when its registrations are harmless: each artifact in canary or production carries a promotion
      record that passed every control; alias targets and rollback pointers name registered artifacts with such records,
      none points at itself, and no row's previous is its current. Rollback makes only such artifacts live again. */
  lemma {:induction false} RunKeepsAuditedExactly(c: Catalog, ops: seq<Op>)
    requires Audited(c, Recordedness(c.policy))
    ensures AuditedThroughout(c, ops) <==> HarmlessRun(c, ops)
    decreases |ops|
  {
    if ops != [] {
      var before, op := Run(c, ops[..|ops| - 1]), ops[|ops| - 1];
      RunKeepsAuditedExactly(c, ops[..|ops| - 1]);
      RunKeepsPolicy(c, ops[..|ops| - 1]);
      PassedPromotionEstablishes(before, op);
      RecordIgnoresState(c.policy);
      if AuditedThroughout(c, ops[..|ops| - 1]) {
        StepKeepsAudited(before, op, Recordedness(c.policy));
        assert Run(c, ops) == Step(before, op);
      }
    }
  }

  /** In plain terms: after any run with harmless registrations, whatever is in canary or production has a gate result
      and carries metrics that hold the boolean true under every gate, an approval that approves and says by whom and
      when, and a manifest. */
  lemma LiveArtifactsPassed(c: Catalog, ops: seq<Op>, s: Catalog, id: string)
    requires Audited(c, Recordedness(c.policy)) && HarmlessRun(c, ops) && s == Run(c, ops)
    requires id in s.artifacts && s.artifacts[id].state in {Canary, Production}
    ensures s.artifacts[id].evalReport.Some?
    ensures var m := s.artifacts[id].metadata;
      && "promotion_gate_metrics" in m && m["promotion_gate_metrics"].Dict?
      && (forall g :: g in c.policy.gates ==>
            Lookup(m["promotion_gate_metrics"].entries, g) == Some(Bool(true)))
      && "promotion_approval" in m && m["promotion_approval"].Dict?
      && Lookup(m["promotion_approval"].entries, "approved") == Some(Bool(true))
      && HasField(m["promotion_approval"].entries, "approval_id")
      && HasField(m["promotion_approval"].entries, "operator_id")
      && HasField(m["promotion_approval"].entries, "approved_at")
      && "rollback_manifest_ref" in m && m["rollback_manifest_ref"].Str? && m["rollback_manifest_ref"].s != ""
  {
    RunKeepsAuditedExactly(c, ops);
    assert Recordedness(c.policy)(s.artifacts[id]);
    var m := s.artifacts[id].metadata;
    FilledFields(m["promotion_approval"].entries, "approval_id");
    FilledFields(m["promotion_approval"].entries, "operator_id");
    FilledFields(m["promotion_approval"].entries, "approved_at");
  }

  /** And every alias points at a registered artifact that carries the record, its row records another such artifact or
      none, and so does every rollback pointer. */
  lemma PointersHold(c: Catalog, ops: seq<Op>, s: Catalog)
    requires Audited(c, Recordedness(c.policy)) && HarmlessRun(c, ops) && s == Run(c, ops)
    ensures forall a :: a in s.aliases ==>
      && s.aliases[a].target in s.artifacts && HasPromotionRecord(c.policy, s.artifacts[s.aliases[a].target])
      && s.aliases[a].previous != Some(s.aliases[a].target)
      && (s.aliases[a].previous.Some? ==>
            && s.aliases[a].previous.value in s.artifacts
            && HasPromotionRecord(c.policy, s.artifacts[s.aliases[a].previous.value]))
    ensures forall id :: id in s.artifacts && s.artifacts[id].rollbackTo.Some? ==>
      && s.artifacts[id].rollbackTo.value != id && s.artifacts[id].rollbackTo.value in s.artifacts
      && HasPromotionRecord(c.policy, s.artifacts[s.artifacts[id].rollbackTo.value])
  {
    RunKeepsAuditedExactly(c, ops);
    forall id | Names(s, id, Recordedness(c.policy)) ensures HasPromotionRecord(c.policy, s.artifacts[id]) {
      assert Recordedness(c.policy)(s.artifacts[id]);
    }
  }

  /** A new id in state registered that points nowhere is always harmless. */
  lemma NewIsHarmless(c: Catalog, a: Artifact, ok: Artifact -> bool)
    requires Audited(c, ok) && a.id !in c.artifacts && a.state == Registered && a.rollbackTo == None
    ensures Harmless(c, a, ok)
  {
    assert !Names(c, a.id, ok);
  }

  lemma EmptyIsAudited(policy: Policy)
    ensures Audited(Empty(policy), Recordedness(policy))
  {
  }

  /** What a harmful registration does: registering a promoted id again and rolling back onto it puts into production an
      artifact whose record is gone. This happens for every two promotions that pass. */
  lemma {:induction false} ReRegisteringLosesTheRecord(c: Catalog, pa: PromoteArgs, pb: PromoteArgs, blank: Artifact)
    requires pa.id != pb.id && pa.id != "" && pa.alias == pb.alias && pa.alias !in c.aliases
    requires CheckPromotion(c, pa).Ok? && CheckPromotion(c, pb).Ok?
    requires blank.id == pa.id && blank.metadata == map[]
    ensures var replaced := Step(Step(Step(c, DoPromote(pa)), DoPromote(pb)), DoRegister(blank));
      var c' := Step(replaced, DoRollback(pa.alias));
      pa.id in c'.artifacts && c'.artifacts[pa.id].state == Production
        && !HasPromotionRecord(c.policy, c'.artifacts[pa.id])
  {
    var c1 := Promoting(c, pa, CheckPromotion(c, pa).value);
    ChecksReadOnlyMembership(c, c1, pb);
    var c2 := Promoting(c1, pb, CheckPromotion(c1, pb).value);
    TwoPromotions(c, c1, pa, pb, CheckPromotion(c, pa).value, CheckPromotion(c1, pb).value);
    BlankAfterRollback(AfterRegister(c2, blank), pa.alias, pb.id, blank);
  }

  lemma TwoPromotions(
      c: Catalog, c1: Catalog, pa: PromoteArgs, pb: PromoteArgs, ra: map<string, Value>, rb: map<string, Value>)
    requires pa.id != pb.id && pa.alias == pb.alias && pa.id in c.artifacts && pb.id in c.artifacts
    requires c1 == Promoting(c, pa, ra) && pb.id in c1.artifacts
    ensures var c2 := Promoting(c1, pb, rb);
      c2.aliases[pa.alias].target == pb.id && pb.id in c2.artifacts && c2.artifacts[pb.id].rollbackTo == Some(pa.id)
  {
  }

  lemma {:induction false} BlankAfterRollback(c: Catalog, alias: string, current: string, blank: Artifact)
    requires alias in c.aliases && c.aliases[alias].target == current && current in c.artifacts && current != blank.id
    requires c.artifacts[current].rollbackTo == Some(blank.id) && blank.id != ""
    requires blank.id in c.artifacts && c.artifacts[blank.id] == blank && blank.metadata == map[]
    ensures var c' := Step(c, DoRollback(alias));
      blank.id in c'.artifacts && c'.artifacts[blank.id] == blank.(state := Production)
    ensures !HasPromotionRecord(c.policy, blank.(state := Production))
  {
  }

  // ---- one artifact in production ----

  /** An artifact of a set, such as the adapters of one tenant and task, that is in production. */
  predicate InProduction(c: Catalog, id: string, mine: set<string>) {
    id in mine && id in c.artifacts && c.artifacts[id].state == Production
  }

  ghost predicate AtMostOne(c: Catalog, mine: set<string>) {
    forall x, y :: InProduction(c, x, mine) && InProduction(c, y, mine) ==> x == y
  }

  predicate IsTarget(c: Catalog, alias: string, id: string) {
    alias in c.aliases && c.aliases[alias].target == id
  }

  lemma StateAfterPromoting(c: Catalog, p: PromoteArgs, rec: map<string, Value>, id: string)
    requires p.id in c.artifacts && id in c.artifacts
    ensures var c' := Promoting(c, p, rec);
      && c'.artifacts.Keys == c.artifacts.Keys && c'.policy == c.policy
      && c'.aliases.Keys == c.aliases.Keys + {p.alias} && c'.aliases[p.alias].target == p.id
      && c'.artifacts[id].state ==
           if id == p.id then DecidedState(p.gate.decision)
           else if IsTarget(c, p.alias, id) && DecidedState(p.gate.decision) == Production then Retired
           else c.artifacts[id].state
  {
  }

  /** A promotion to production leaves at most one artifact of the set there exactly when everything of the set that was
      there is the promoted artifact or what the alias points at. */
  lemma PromotionLeavesOneExactly(c: Catalog, p: PromoteArgs, mine: set<string>, c': Catalog)
    requires CheckPromotion(c, p).Ok? && p.gate.decision == "promote" && p.id in mine
    requires c' == Step(c, DoPromote(p))
    ensures
      var a, a' := c.artifacts, c'.artifacts;
      (forall x, y ::
        x in mine && x in a' && a'[x].state == Production && y in mine && y in a' && a'[y].state == Production ==>
          x == y)
      <==>
      (forall x :: x in mine && x in a && a[x].state == Production ==>
        x == p.id || (p.alias in c.aliases && c.aliases[p.alias].target == x))
  {
    PromotionLeavesOne(c, p, mine);
    OneInPlainTerms(c', mine);
    forall x ensures InProduction(c, x, mine) <==> x in mine && x in c.artifacts && c.artifacts[x].state == Production {
    }
  }

  lemma OneInPlainTerms(c: Catalog, mine: set<string>)
    ensures
      var a := c.artifacts;
      AtMostOne(c, mine) <==>
        forall x, y ::
          x in mine && x in a && a[x].state == Production && y in mine && y in a && a[y].state == Production ==> x == y
  {
    forall x ensures InProduction(c, x, mine) <==> x in mine && x in c.artifacts && c.artifacts[x].state == Production {
    }
  }

  lemma {:induction false} PromotionLeavesOne(c: Catalog, p: PromoteArgs, mine: set<string>)
    requires CheckPromotion(c, p).Ok? && p.gate.decision == "promote" && p.id in mine
    ensures AtMostOne(Step(c, DoPromote(p)), mine)
       <==> forall x :: InProduction(c, x, mine) ==> x == p.id || IsTarget(c, p.alias, x)
  {
    var c' := Step(c, DoPromote(p));
    forall x | x in c.artifacts
      ensures InProduction(c', x, mine) <==>
        x == p.id || (InProduction(c, x, mine) && !IsTarget(c, p.alias, x))
    {
      StateAfterPromoting(c, p, CheckPromotion(c, p).value, x);
    }
    assert InProduction(c', p.id, mine);
    if AtMostOne(c', mine) {
      forall x | InProduction(c, x, mine) ensures x == p.id || IsTarget(c, p.alias, x) {
        assert InProduction(c', x, mine) ==> x == p.id;
      }
    }
  }

  /** The id that a call puts into production, if it is accepted. */
  function Enters(c: Catalog, op: Op): Option<string> {
    match op
    case DoRegister(a) => if a.state == Production then Some(a.id) else None
    case DoPromote(p) =>
      if CheckPromotion(c, p).Ok? && DecidedState(p.gate.decision) == Production then Some(p.id) else None
    case DoRollback(alias) =>
      if AfterRollback(c, alias).Ok? then c.artifacts[c.aliases[alias].target].rollbackTo else None
    case DoRetire(_) => None
  }

  /** The calls that take an artifact out of production while another one enters: both act through the alias. */
  predicate Leaves(c: Catalog, op: Op, id: string) {
    match op
    case DoRegister(_) => false
    case DoPromote(p) => IsTarget(c, p.alias, id)
    case DoRollback(alias) => IsTarget(c, alias, id)
    case DoRetire(_) => false
  }

  predicate EntersSet(c: Catalog, op: Op, mine: set<string>) {
    Enters(c, op).Some? && Enters(c, op).value in mine
  }

  /** If one of the set enters, everything of the set that is in production enters or leaves. */
  ghost predicate MakesRoom(c: Catalog, op: Op, mine: set<string>) {
    EntersSet(c, op, mine) ==>
      forall x :: InProduction(c, x, mine) ==> x == Enters(c, op).value || Leaves(c, op, x)
  }

  lemma StateAfterRollback(c: Catalog, alias: string, id: string)
    requires AfterRollback(c, alias).Ok? && id in c.artifacts
    ensures var current := c.aliases[alias].target; var c' := AfterRollback(c, alias).value;
      && c'.artifacts.Keys == c.artifacts.Keys
      && c'.artifacts[id].state ==
           if c.artifacts[current].rollbackTo == Some(id) then Production
           else if id == current then Retired
           else c.artifacts[id].state
  {
  }

  /** Who of the set is in production after a call, against who was there before. */
  ghost predicate ProductionMoves(c: Catalog, op: Op, mine: set<string>, x: string) {
    var before, after := InProduction(c, x, mine), InProduction(Step(c, op), x, mine);
    && (Enters(c, op) == Some(x) && x in mine ==> after)
    && (after && Enters(c, op) != Some(x) ==> before)
    && (before && Enters(c, op).Some? && Enters(c, op) != Some(x) ==> (after <==> !Leaves(c, op, x)))
  }

  lemma PromotionMoves(c: Catalog, p: PromoteArgs, mine: set<string>, x: string)
    ensures ProductionMoves(c, DoPromote(p), mine, x)
  {
    if CheckPromotion(c, p).Ok? && x in c.artifacts {
      StateAfterPromoting(c, p, CheckPromotion(c, p).value, x);
    }
  }

  lemma RollbackMoves(c: Catalog, alias: string, mine: set<string>, x: string)
    ensures ProductionMoves(c, DoRollback(alias), mine, x)
  {
    if AfterRollback(c, alias).Ok? && x in c.artifacts {
      StateAfterRollback(c, alias, x);
    }
  }

  lemma {:induction false} ProductionAfter(c: Catalog, op: Op, mine: set<string>, x: string)
    ensures ProductionMoves(c, op, mine, x)
  {
    match op
    case DoRegister(a) =>
    case DoPromote(p) => PromotionMoves(c, p, mine, x);
    case DoRollback(alias) => RollbackMoves(c, alias, mine, x);
    case DoRetire(id) =>
  }

  lemma {:induction false} NoEntrantKeepsOne(c: Catalog, op: Op, mine: set<string>)
    requires AtMostOne(c, mine) && !EntersSet(c, op, mine)
    ensures AtMostOne(Step(c, op), mine)
  {
    var c' := Step(c, op);
    forall x | InProduction(c', x, mine) ensures InProduction(c, x, mine) {
      ProductionAfter(c, op, mine, x);
    }
  }

  lemma {:induction false} EntrantLeavesOneExactly(c: Catalog, op: Op, mine: set<string>)
    requires EntersSet(c, op, mine)
    ensures AtMostOne(Step(c, op), mine) <==> MakesRoom(c, op, mine)
  {
    var c', entering := Step(c, op), Enters(c, op).value;
    ProductionAfter(c, op, mine, entering);
    forall x ensures InProduction(c', x, mine) <==> x == entering || (InProduction(c, x, mine) && !Leaves(c, op, x)) {
      ProductionAfter(c, op, mine, x);
    }
  }

  lemma {:induction false} StepLeavesOneExactly(c: Catalog, op: Op, mine: set<string>)
    requires AtMostOne(c, mine)
    ensures AtMostOne(Step(c, op), mine) <==> MakesRoom(c, op, mine)
  {
    if EntersSet(c, op, mine) {
      EntrantLeavesOneExactly(c, op, mine);
    } else {
      NoEntrantKeepsOne(c, op, mine);
    }
  }

  ghost predicate RoomThroughout(c: Catalog, ops: seq<Op>, mine: set<string>)
    decreases |ops|
  {
    ops == [] || (
      var before := ops[..|ops| - 1];
      RoomThroughout(c, before, mine) && MakesRoom(Run(c, before), ops[|ops| - 1], mine))
  }

  ghost predicate OneThroughout(c: Catalog, ops: seq<Op>, mine: set<string>)
    decreases |ops|
  {
    AtMostOne(Run(c, ops), mine) && (ops == [] || OneThroughout(c, ops[..|ops| - 1], mine))
  }

  /** Main result: all through a run at most one artifact of the set is in production exactly when every call that puts
      one of them there finds the others gone, or retires them through its alias. */
  lemma {:induction false} RunKeepsOneExactly(c: Catalog, ops: seq<Op>, mine: set<string>)
    requires AtMostOne(c, mine)
    ensures OneThroughout(c, ops, mine) <==> RoomThroughout(c, ops, mine)
    ensures
      var a := Run(c, ops).artifacts;
      OneThroughout(c, ops, mine) ==>
        forall x, y ::
          x in mine && x in a && a[x].state == Production && y in mine && y in a && a[y].state == Production ==> x == y
    decreases |ops|
  {
    OneInPlainTerms(Run(c, ops), mine);
    if ops != [] {
      var before := ops[..|ops| - 1];
      RunKeepsOneExactly(c, before, mine);
      if OneThroughout(c, before, mine) {
        StepLeavesOneExactly(Run(c, before), ops[|ops| - 1], mine);
        assert Run(c, ops) == Step(Run(c, before), ops[|ops| - 1]);
      }
    }
  }

  /** So an artifact that goes to canary first and is then promoted leaves the older production artifact in production:
      afterwards both are, for every catalog and every two promotions that pass. */
  lemma {:induction false} CanaryThenPromoteLeavesTwo(c: Catalog, canary: PromoteArgs, promote: PromoteArgs)
    requires canary.id == promote.id && canary.alias == promote.alias && canary.alias in c.aliases
    requires CheckPromotion(c, canary).Ok? && CheckPromotion(c, promote).Ok?
    requires canary.gate.decision == "canary" && promote.gate.decision == "promote"
    requires var older := c.aliases[canary.alias].target;
      older != canary.id && older in c.artifacts && c.artifacts[older].state == Production
    ensures var older := c.aliases[canary.alias].target;
      var c' := Step(Step(c, DoPromote(canary)), DoPromote(promote));
      && older in c'.artifacts && c'.artifacts[older].state == Production
      && promote.id in c'.artifacts && c'.artifacts[promote.id].state == Production
        && c'.aliases[promote.alias].target == promote.id
  {
    var older := c.aliases[canary.alias].target;
    var c1 := Promoting(c, canary, CheckPromotion(c, canary).value);
    StateAfterPromoting(c, canary, CheckPromotion(c, canary).value, older);
    ChecksReadOnlyMembership(c, c1, promote);
    StateAfterPromoting(c1, promote, CheckPromotion(c1, promote).value, older);
    StateAfterPromoting(c1, promote, CheckPromotion(c1, promote).value, promote.id);
  }
}
