/** Which artifacts a request is routed to, and how that follows the aliases of the catalog. */
module Routes {
  import opened Values
  import opened Promotion
  import opened ModelCatalog

  datatype Request = Request(tenant: string, task: string)

  datatype Route = Route(adapters: seq<string>, model: Option<string>)

  datatype Resolution = Resolution(alias: string, target: Option<string>, route: Route)

  predicate IsAdapter(kind: string) {
    kind in {"tenant_adapter", "task_adapter", "policy_adapter", "quantized_checkpoint"}
  }

  predicate Fits(a: Artifact, q: Request) {
    (a.tenant == None || a.tenant == Some(q.tenant)) && (a.task == None || a.task == Some(q.task))
  }

  function Filter(keep: Artifact -> bool, arts: seq<Artifact>): seq<Artifact> {
    if arts == [] then [] else (if keep(arts[0]) then [arts[0]] else []) + Filter(keep, arts[1..])
  }

  function Ids(arts: seq<Artifact>): seq<string> {
    if arts == [] then [] else [arts[0].id] + Ids(arts[1..])
  }

  lemma {:induction false} FilterKeeps(keep: Artifact -> bool, arts: seq<Artifact>)
    ensures forall a :: a in Filter(keep, arts) <==> a in arts && keep(a)
  {
    if arts != [] {
      FilterKeeps(keep, arts[1..]);
      assert forall a :: a in arts <==> a == arts[0] || a in arts[1..];
    }
  }

  /** Artifacts are kept or dropped one by one, in order. */
  lemma {:induction false} FilterInOrder(keep: Artifact -> bool, a: seq<Artifact>, b: seq<Artifact>)
    ensures Filter(keep, a + b) == Filter(keep, a) + Filter(keep, b)
  {
    if a == [] {
      assert a + b == b;
    } else {
      var first := if keep(a[0]) then [a[0]] else [];
      FilterInOrder(keep, a[1..], b);
      FilterOfCons(keep, a[0], a[1..] + b);
      FilterOfCons(keep, a[0], a[1..]);
      assert a + b == [a[0]] + (a[1..] + b) && a == [a[0]] + a[1..];
      Regroup(first, Filter(keep, a[1..]), Filter(keep, b));
    }
  }

  lemma FilterOfCons(keep: Artifact -> bool, a: Artifact, rest: seq<Artifact>)
    ensures Filter(keep, [a] + rest) == (if keep(a) then [a] else []) + Filter(keep, rest)
  {
    assert ([a] + rest)[1..] == rest;
  }

  lemma Regroup(a: seq<Artifact>, b: seq<Artifact>, c: seq<Artifact>)
    ensures a + (b + c) == (a + b) + c
  {
  }

  lemma {:induction false} IdsOf(arts: seq<Artifact>, id: string)
    ensures id in Ids(arts) <==> exists a :: a in arts && a.id == id
  {
    if arts != [] {
      IdsOf(arts[1..], id);
      assert forall a :: a in arts <==> a == arts[0] || a in arts[1..];
    }
  }

  function IsLive(): Artifact -> bool { (a: Artifact) => Live(a.state) }

  function IsBase(): Artifact -> bool { (a: Artifact) => a.kind == "base_model" }

  function FittingAdapter(q: Request): Artifact -> bool { (a: Artifact) => IsAdapter(a.kind) && Fits(a, q) }

  function AdapterKind(): Artifact -> bool { (a: Artifact) => IsAdapter(a.kind) }

  /** The first live base model, then the live adapters that fit. */
  function SelectArtifacts(q: Request, arts: seq<Artifact>): seq<Artifact> {
    var candidates := Filter(IsLive(), arts);
    var bases := Filter(IsBase(), candidates);
    (if bases == [] then [] else [bases[0]]) + Filter(FittingAdapter(q), candidates)
  }

  function SelectServingRoute(q: Request, arts: seq<Artifact>): Route {
    var selected := SelectArtifacts(q, arts);
    var bases := Filter(IsBase(), selected);
    Route(Ids(Filter(AdapterKind(), selected)), if bases == [] then None else Some(bases[0].id))
  }

  /** The adapters of a route are those artifacts in canary or production that are of an adapter kind and whose tenant
      and task are each the request's or none; its model is a base model in canary or production, given exactly when
      there is one. */
  lemma {:induction false} RouteIsExact(q: Request, arts: seq<Artifact>)
    ensures forall id :: id in SelectServingRoute(q, arts).adapters <==>
      exists a :: a in arts && a.id == id
        && a.state in {Canary, Production}
        && a.kind in {"tenant_adapter", "task_adapter", "policy_adapter", "quantized_checkpoint"}
        && a.tenant in {None, Some(q.tenant)} && a.task in {None, Some(q.task)}
    ensures SelectServingRoute(q, arts).model.Some? ==>
      exists a :: a in arts && a.id == SelectServingRoute(q, arts).model.value
        && a.state in {Canary, Production} && a.kind == "base_model"
    ensures SelectServingRoute(q, arts).model == None <==>
      !exists a :: a in arts && a.state in {Canary, Production} && a.kind == "base_model"
  {
    RouteFollows(q, arts);
  }

  lemma {:induction false} RouteFollows(q: Request, arts: seq<Artifact>)
    ensures forall id :: id in SelectServingRoute(q, arts).adapters <==>
      exists a :: a in arts && a.id == id && Live(a.state) && IsAdapter(a.kind) && Fits(a, q)
    ensures SelectServingRoute(q, arts).model.Some? ==>
      exists a :: a in arts && a.id == SelectServingRoute(q, arts).model.value && Live(a.state)
        && a.kind == "base_model"
    ensures SelectServingRoute(q, arts).model == None
      <==> !exists a :: a in arts && Live(a.state) && a.kind == "base_model"
  {
    var candidates := Filter(IsLive(), arts);
    FilterKeeps(IsLive(), arts);
    var bases, adapters := Filter(IsBase(), candidates), Filter(FittingAdapter(q), candidates);
    FilterKeeps(IsBase(), candidates);
    FilterKeeps(FittingAdapter(q), candidates);
    var selected := SelectArtifacts(q, arts);
    FilterKeeps(AdapterKind(), selected);
    FilterKeeps(IsBase(), selected);
    forall id ensures id in SelectServingRoute(q, arts).adapters <==>
      exists a :: a in arts && a.id == id && Live(a.state) && IsAdapter(a.kind) && Fits(a, q)
    {
      IdsOf(Filter(AdapterKind(), selected), id);
      if a :| a in arts && a.id == id && Live(a.state) && IsAdapter(a.kind) && Fits(a, q) {
        assert a in adapters && a in selected;
      }
    }
    if bases != [] {
      assert bases[0] in bases && bases[0] in selected;
    } else {
      forall a ensures !(a in arts && Live(a.state) && a.kind == "base_model") {
        assert a !in bases;
      }
    }
    var chosen := Filter(IsBase(), selected);
    if chosen != [] {
      assert chosen[0] in chosen;
    }
  }

  lemma {:induction false} FilterAgain(keep: Artifact -> bool, again: Artifact -> bool, arts: seq<Artifact>)
    ensures (forall a :: keep(a) ==> again(a)) ==> Filter(again, Filter(keep, arts)) == Filter(keep, arts)
    ensures (forall a :: keep(a) ==> !again(a)) ==> Filter(again, Filter(keep, arts)) == []
  {
    if arts != [] {
      FilterAgain(keep, again, arts[1..]);
      FilterInOrder(again, if keep(arts[0]) then [arts[0]] else [], Filter(keep, arts[1..]));
    }
  }

  lemma {:induction false} IdsInOrder(a: seq<Artifact>, b: seq<Artifact>)
    ensures Ids(a + b) == Ids(a) + Ids(b)
  {
    if a == [] {
      assert a + b == b;
    } else {
      assert (a + b)[1..] == a[1..] + b;
      IdsInOrder(a[1..], b);
    }
  }

  lemma RouteOf(q: Request, arts: seq<Artifact>)
    ensures var live := Filter(IsLive(), arts);
      && SelectServingRoute(q, arts).adapters == Ids(Filter(FittingAdapter(q), live))
      && SelectServingRoute(q, arts).model ==
           if Filter(IsBase(), live) == [] then None else Some(Filter(IsBase(), live)[0].id)
  {
    var live := Filter(IsLive(), arts);
    var bases, adapters := Filter(IsBase(), live), Filter(FittingAdapter(q), live);
    var first := if bases == [] then [] else [bases[0]];
    FilterKeeps(IsBase(), live);
    if bases != [] {
      assert bases[0] in bases;
      FilterOne(AdapterKind(), bases[0]);
      FilterOne(IsBase(), bases[0]);
    }
    FilterInOrder(AdapterKind(), first, adapters);
    FilterInOrder(IsBase(), first, adapters);
    FilterAgain(FittingAdapter(q), AdapterKind(), live);
    FilterAgain(FittingAdapter(q), IsBase(), live);
    assert SelectArtifacts(q, arts) == first + adapters;
    assert Filter(AdapterKind(), first + adapters) == adapters;
    assert Filter(IsBase(), first + adapters) == first;
  }

  lemma FilterOne(keep: Artifact -> bool, a: Artifact)
    ensures Filter(keep, [a]) == if keep(a) then [a] else []
  {
  }

  /** Routes read the artifacts from first to last: adapters keep their order, and the first base model that is there is
      the model. */
  lemma {:induction false} RouteInOrder(q: Request, a: seq<Artifact>, b: seq<Artifact>)
    ensures SelectServingRoute(q, a + b).adapters ==
      SelectServingRoute(q, a).adapters + SelectServingRoute(q, b).adapters
    ensures SelectServingRoute(q, a + b).model ==
      if SelectServingRoute(q, a).model.Some? then SelectServingRoute(q, a).model else SelectServingRoute(q, b).model
  {
    RouteOf(q, a);
    RouteOf(q, b);
    RouteOf(q, a + b);
    var la, lb := Filter(IsLive(), a), Filter(IsLive(), b);
    FilterInOrder(IsLive(), a, b);
    FilterInOrder(FittingAdapter(q), la, lb);
    FilterInOrder(IsBase(), la, lb);
    IdsInOrder(Filter(FittingAdapter(q), la), Filter(FittingAdapter(q), lb));
  }

  // ---- resolving through the catalog ----

  function AliasFor(q: Request): string { q.tenant + "/" + q.task }

  function InOrder(c: Catalog, ids: seq<string>): seq<Artifact>
    requires forall id :: id in ids ==> id in c.artifacts
  {
    if ids == [] then [] else [c.artifacts[ids[0]]] + InOrder(c, ids[1..])
  }

  lemma {:induction false} InOrderMembers(c: Catalog, ids: seq<string>)
    requires forall id :: id in ids ==> id in c.artifacts
    ensures forall a :: a in InOrder(c, ids) <==> exists id :: id in ids && c.artifacts[id] == a
  {
    if ids != [] {
      InOrderMembers(c, ids[1..]);
      assert forall id :: id in ids <==> id == ids[0] || id in ids[1..];
    }
  }

  function ActiveFor(q: Request): Artifact -> bool { (a: Artifact) => Live(a.state) && Fits(a, q) }

  function ResolveRoute(c: Catalog, q: Request): Resolution
    requires WellFormed(c)
  {
    var alias := AliasFor(q);
    var active := Filter(ActiveFor(q), InOrder(c, c.order));
    Resolution(alias, if alias in c.aliases then Some(c.aliases[alias].target) else None, SelectServingRoute(q, active))
  }

  /** A registered, live base model that fits. */
  predicate IsBaseFor(c: Catalog, id: string, q: Request) {
    id in c.artifacts && Live(c.artifacts[id].state) && Fits(c.artifacts[id], q) && c.artifacts[id].kind == "base_model"
  }

  /** The adapters of a resolved route are exactly the registered artifacts in canary or production of an adapter kind
      whose tenant and task are each the request's or none; its model is such a base model, given exactly when there is
      one; its alias is tenant, slash, task, and its target what that alias points at. */
  lemma {:induction false} ResolvedRouteIsExact(c: Catalog, q: Request, r: Resolution)
    requires WellFormed(c) && r == ResolveRoute(c, q)
    ensures forall id :: id in r.route.adapters <==>
      && id in c.artifacts
      && c.artifacts[id].state in {Canary, Production}
      && c.artifacts[id].kind in {"tenant_adapter", "task_adapter", "policy_adapter", "quantized_checkpoint"}
      && c.artifacts[id].tenant in {None, Some(q.tenant)} && c.artifacts[id].task in {None, Some(q.task)}
    ensures r.route.model.Some? ==>
      && r.route.model.value in c.artifacts
      && var a := c.artifacts[r.route.model.value];
        && a.kind == "base_model" && a.state in {Canary, Production}
        && a.tenant in {None, Some(q.tenant)} && a.task in {None, Some(q.task)}
    ensures r.route.model == None <==>
      !exists id :: id in c.artifacts
        && c.artifacts[id].kind == "base_model" && c.artifacts[id].state in {Canary, Production}
        && c.artifacts[id].tenant in {None, Some(q.tenant)} && c.artifacts[id].task in {None, Some(q.task)}
    ensures r.alias == q.tenant + "/" + q.task
    ensures r.target == if r.alias in c.aliases then Some(c.aliases[r.alias].target) else None
  {
    ResolvedRouteFollows(c, q);
    if r.route.model.Some? {
      assert IsBaseFor(c, r.route.model.value, q);
    }
    forall id ensures IsBaseFor(c, id, q) <==>
      && id in c.artifacts
      && c.artifacts[id].kind == "base_model" && c.artifacts[id].state in {Canary, Production}
      && c.artifacts[id].tenant in {None, Some(q.tenant)} && c.artifacts[id].task in {None, Some(q.task)}
    {
    }
  }

  lemma {:induction false} ResolvedRouteFollows(c: Catalog, q: Request)
    requires WellFormed(c)
    ensures forall id :: id in ResolveRoute(c, q).route.adapters <==>
      id in c.artifacts && Live(c.artifacts[id].state) && IsAdapter(c.artifacts[id].kind) && Fits(c.artifacts[id], q)
    ensures ResolveRoute(c, q).route.model.Some? ==>
      var id := ResolveRoute(c, q).route.model.value;
      IsBaseFor(c, id, q)
    ensures ResolveRoute(c, q).route.model == None <==> forall id :: !IsBaseFor(c, id, q)
  {
    var all := InOrder(c, c.order);
    var active := Filter(ActiveFor(q), all);
    InOrderMembers(c, c.order);
    FilterKeeps(ActiveFor(q), all);
    RouteFollows(q, active);
    forall id | id in c.artifacts && Live(c.artifacts[id].state) && IsAdapter(c.artifacts[id].kind)
      && Fits(c.artifacts[id], q)
      ensures id in ResolveRoute(c, q).route.adapters
    {
      assert c.artifacts[id] in active;
    }
    forall id | IsBaseFor(c, id, q) ensures ResolveRoute(c, q).route.model.Some? {
      var a := c.artifacts[id];
      assert a in active && Live(a.state) && a.kind == "base_model";
    }
    if ResolveRoute(c, q).route.model.Some? {
      assert IsBaseFor(c, ResolveRoute(c, q).route.model.value, q);
    }
  }

  // ---- promotions under an artifact's own alias ----

  function OwnAlias(a: Artifact): Option<string> {
    if a.tenant.Some? && a.task.Some? then Some(AliasFor(Request(a.tenant.value, a.task.value))) else None
  }

  ghost predicate Owned(c: Catalog, id: string, alias: Option<string>) {
    id in c.artifacts && OwnAlias(c.artifacts[id]) == alias
  }

  /** The row points at a live artifact of its own alias, shows its state, and what it replaced is of that alias too. */
  ghost predicate RowInSync(c: Catalog, alias: string)
    requires alias in c.aliases
  {
    var row := c.aliases[alias];
    && Owned(c, row.target, Some(alias))
    && row.state == c.artifacts[row.target].state
    && Live(row.state)
    && (row.previous.Some? ==> Owned(c, row.previous.value, Some(alias)))
  }

  ghost predicate PointerInSync(c: Catalog, id: string)
    requires id in c.artifacts
  {
    c.artifacts[id].rollbackTo.Some? ==> Owned(c, c.artifacts[id].rollbackTo.value, OwnAlias(c.artifacts[id]))
  }

  ghost predicate InSync(c: Catalog) {
    && WellFormed(c)
    && (forall a :: a in c.aliases ==> RowInSync(c, a))
    && (forall id :: id in c.artifacts ==> PointerInSync(c, id))
  }

  ghost predicate UnderOwnAlias(c: Catalog, op: Op) {
    match op
    case DoRegister(a) => a.id !in c.artifacts && a.rollbackTo == None
    case DoPromote(p) => p.id in c.artifacts ==> OwnAlias(c.artifacts[p.id]) == Some(p.alias)
    case DoRollback(_) => true
    case DoRetire(_) => true
  }

  /** No operation on a registered artifact changes whose it is. */
  ghost predicate SameOwners(c: Catalog, c': Catalog) {
    && c'.artifacts.Keys == c.artifacts.Keys
    && forall id :: id in c.artifacts ==> OwnAlias(c'.artifacts[id]) == OwnAlias(c.artifacts[id])
  }

  lemma OwnedStays(c: Catalog, c': Catalog, id: string, alias: Option<string>)
    requires SameOwners(c, c') && Owned(c, id, alias)
    ensures Owned(c', id, alias)
  {
  }

  lemma PromotingEffect(c: Catalog, p: PromoteArgs, rec: map<string, Value>)
    requires p.id in c.artifacts
    ensures var c', previous := Promoting(c, p, rec), PreviousFor(c, p.id, p.alias);
      && SameOwners(c, c')
      && c'.artifacts[p.id].state == DecidedState(p.gate.decision)
      && c'.aliases == c.aliases[p.alias := AliasRow(p.alias, p.id, previous, c'.artifacts[p.id].state)]
  {
  }

  lemma PromotingEffectAt(c: Catalog, p: PromoteArgs, rec: map<string, Value>, id: string)
    requires p.id in c.artifacts && id in c.artifacts
    ensures var c' := Promoting(c, p, rec);
      && id in c'.artifacts
      && c'.artifacts[id].rollbackTo
        == (if id == p.id then PreviousFor(c, p.id, p.alias) else c.artifacts[id].rollbackTo)
      && (id != p.id && !(p.alias in c.aliases && c.aliases[p.alias].target == id) ==>
        c'.artifacts[id] == c.artifacts[id])
  {
  }

  lemma {:induction false} PromotingKeepsRow(c: Catalog, p: PromoteArgs, rec: map<string, Value>, alias: string)
    requires InSync(c) && p.id in c.artifacts && OwnAlias(c.artifacts[p.id]) == Some(p.alias)
    requires alias in Promoting(c, p, rec).aliases
    ensures RowInSync(Promoting(c, p, rec), alias)
  {
    PromotingEffect(c, p, rec);
    var c' := Promoting(c, p, rec);
    if p.alias in c.aliases {
      assert RowInSync(c, p.alias);
    }
    if alias != p.alias {
      assert RowInSync(c, alias);
    }
    var row := c'.aliases[alias];
    PromotingEffectAt(c, p, rec, row.target);
    OwnedStays(c, c', row.target, Some(alias));
    if row.previous.Some? {
      OwnedStays(c, c', row.previous.value, Some(alias));
    }
  }

  lemma {:induction false} PromotingKeepsPointer(c: Catalog, p: PromoteArgs, rec: map<string, Value>, id: string)
    requires InSync(c) && p.id in c.artifacts && OwnAlias(c.artifacts[p.id]) == Some(p.alias) && id in c.artifacts
    ensures id in Promoting(c, p, rec).artifacts && PointerInSync(Promoting(c, p, rec), id)
  {
    PromotingEffect(c, p, rec);
    PromotingEffectAt(c, p, rec, id);
    assert PointerInSync(c, id);
    if p.alias in c.aliases {
      assert RowInSync(c, p.alias);
    }
    var back := Promoting(c, p, rec).artifacts[id].rollbackTo;
    if back.Some? {
      OwnedStays(c, Promoting(c, p, rec), back.value, OwnAlias(c.artifacts[id]));
    }
  }

  lemma {:induction false} PromotingKeepsSync(c: Catalog, p: PromoteArgs, rec: map<string, Value>)
    requires InSync(c) && p.id in c.artifacts && OwnAlias(c.artifacts[p.id]) == Some(p.alias)
    ensures InSync(Promoting(c, p, rec))
  {
    PromotingKeepsWellFormed(c, p, rec);
    PromotingEffect(c, p, rec);
    var c' := Promoting(c, p, rec);
    forall a | a in c'.aliases ensures RowInSync(c', a) {
      PromotingKeepsRow(c, p, rec, a);
    }
    forall id | id in c'.artifacts ensures PointerInSync(c', id) {
      PromotingKeepsPointer(c, p, rec, id);
    }
  }

  lemma RollbackEffect(c: Catalog, alias: string, current: string, back: string)
    requires current in c.artifacts && back in c.artifacts
    ensures var c' := RollingBack(c, alias, current, back);
      && SameOwners(c, c')
      && c'.artifacts[back].state == Production
      && c'.aliases == c.aliases[alias := AliasRow(alias, back, Some(current), Production)]
      && (forall id :: id in c.artifacts ==> c'.artifacts[id].rollbackTo == c.artifacts[id].rollbackTo)
      && (forall id :: id in c.artifacts && id != current && id != back ==> c'.artifacts[id] == c.artifacts[id])
  {
  }

  lemma RollbackKeepsRow(c: Catalog, alias: string, current: string, back: string, a: string)
    requires InSync(c) && Owned(c, current, Some(alias)) && Owned(c, back, Some(alias))
    requires a in RollingBack(c, alias, current, back).aliases
    ensures RowInSync(RollingBack(c, alias, current, back), a)
  {
    RollbackEffect(c, alias, current, back);
    var c' := RollingBack(c, alias, current, back);
    if a != alias {
      assert RowInSync(c, a);
    }
    var row := c'.aliases[a];
    OwnedStays(c, c', row.target, Some(a));
    if row.previous.Some? {
      OwnedStays(c, c', row.previous.value, Some(a));
    }
  }

  lemma RollbackKeepsPointer(c: Catalog, alias: string, current: string, back: string, id: string)
    requires InSync(c) && current in c.artifacts && back in c.artifacts && id in c.artifacts
    ensures id in RollingBack(c, alias, current, back).artifacts
      && PointerInSync(RollingBack(c, alias, current, back), id)
  {
    RollbackEffect(c, alias, current, back);
    assert PointerInSync(c, id);
    if c.artifacts[id].rollbackTo.Some? {
      OwnedStays(c, RollingBack(c, alias, current, back), c.artifacts[id].rollbackTo.value, OwnAlias(c.artifacts[id]));
    }
  }

  lemma RollingBackKeepsSync(c: Catalog, alias: string, current: string, back: string)
    requires InSync(c) && Owned(c, current, Some(alias)) && Owned(c, back, Some(alias))
    requires WellFormed(RollingBack(c, alias, current, back))
    ensures InSync(RollingBack(c, alias, current, back))
  {
    var c' := RollingBack(c, alias, current, back);
    forall a | a in c'.aliases ensures RowInSync(c', a) {
      RollbackKeepsRow(c, alias, current, back, a);
    }
    forall id | id in c'.artifacts ensures PointerInSync(c', id) {
      assert id in c.artifacts;
      RollbackKeepsPointer(c, alias, current, back, id);
    }
  }

  lemma {:induction false} RollbackKeepsSync(c: Catalog, alias: string)
    requires InSync(c) && AfterRollback(c, alias).Ok?
    ensures InSync(AfterRollback(c, alias).value)
  {
    var current := c.aliases[alias].target;
    var back := c.artifacts[current].rollbackTo.value;
    assert RowInSync(c, alias) && PointerInSync(c, current);
    StepKeepsWellFormed(c, DoRollback(alias));
    RollingBackKeepsSync(c, alias, current, back);
  }

  lemma RegisterKeepsSync(c: Catalog, a: Artifact)
    requires InSync(c) && a.id !in c.artifacts && a.rollbackTo == None
    ensures InSync(AfterRegister(c, a))
  {
    var c' := AfterRegister(c, a);
    StepKeepsWellFormed(c, DoRegister(a));
    forall alias | alias in c'.aliases ensures RowInSync(c', alias) {
      assert RowInSync(c, alias);
    }
    forall id | id in c'.artifacts ensures PointerInSync(c', id) {
      if id != a.id {
        assert PointerInSync(c, id);
      }
    }
  }

  lemma {:induction false} RetireKeepsSync(c: Catalog, id: string)
    requires InSync(c) && id in c.artifacts
    ensures InSync(AfterRetire(c, id).value)
  {
    var c' := AfterRetire(c, id).value;
    StepKeepsWellFormed(c, DoRetire(id));
    forall alias | alias in c'.aliases ensures RowInSync(c', alias) {
      assert RowInSync(c, alias);
    }
    forall other | other in c'.artifacts ensures PointerInSync(c', other) {
      assert PointerInSync(c, other);
    }
  }

  lemma {:induction false} StepKeepsSync(c: Catalog, op: Op)
    requires InSync(c) && UnderOwnAlias(c, op)
    ensures InSync(Step(c, op))
  {
    match op
    case DoRegister(a) => RegisterKeepsSync(c, a);
    case DoPromote(p) =>
      if CheckPromotion(c, p).Ok? {
        PromotingKeepsSync(c, p, CheckPromotion(c, p).value);
      }
    case DoRollback(alias) =>
      if AfterRollback(c, alias).Ok? {
        RollbackKeepsSync(c, alias);
      }
    case DoRetire(id) =>
      if id in c.artifacts {
        RetireKeepsSync(c, id);
      }
  }

  ghost predicate OwnAliasRun(c: Catalog, ops: seq<Op>)
    decreases |ops|
  {
    ops == [] || (OwnAliasRun(c, ops[..|ops| - 1]) && UnderOwnAlias(Run(c, ops[..|ops| - 1]), ops[|ops| - 1]))
  }

  lemma {:induction false} RunStaysInSync(c: Catalog, ops: seq<Op>)
    requires InSync(c) && OwnAliasRun(c, ops)
    ensures InSync(Run(c, ops))
    decreases |ops|
  {
    if ops != [] {
      RunStaysInSync(c, ops[..|ops| - 1]);
      StepKeepsSync(Run(c, ops[..|ops| - 1]), ops[|ops| - 1]);
    }
  }

  /** Main result: over every run that promotes artifacts only under their own alias, every row points at a registered
      artifact in canary or production, shows its state, and is filed under tenant, slash, task of that artifact. */
  lemma {:induction false} RunKeepsSync(c: Catalog, ops: seq<Op>, c': Catalog, alias: string)
    requires InSync(c) && OwnAliasRun(c, ops) && c' == Run(c, ops)
    ensures InSync(c')
    ensures alias in c'.aliases ==>
      && c'.aliases[alias].target in c'.artifacts
      && var a := c'.artifacts[c'.aliases[alias].target];
        && a.state == c'.aliases[alias].state && a.state in {Canary, Production}
        && a.tenant.Some? && a.task.Some? && alias == a.tenant.value + "/" + a.task.value
  {
    RunStaysInSync(c, ops);
    if alias in c'.aliases {
      assert RowInSync(c', alias) && Owned(c', c'.aliases[alias].target, Some(alias));
    }
  }

  /** Two tenant/task pairs share an alias with the same tenant only if they are the same pair. */
  lemma SameTenantSameTask(q: Request, r: Request)
    requires AliasFor(q) == AliasFor(r) && q.tenant == r.tenant
    ensures q == r
  {
    var n := |q.tenant| + 1;
    assert AliasFor(q)[n..] == q.task && AliasFor(r)[n..] == r.task;
  }

  predicate HasSlash(s: string) { exists i :: 0 <= i < |s| && s[i] == '/' }

  lemma LongerTenantHasSlash(q: Request, r: Request)
    requires AliasFor(q) == AliasFor(r) && |q.tenant| < |r.tenant|
    ensures HasSlash(r.tenant)
  {
    assert AliasFor(q)[|q.tenant|] == '/';
    assert AliasFor(r)[|q.tenant|] == r.tenant[|q.tenant|];
  }

  /** Tenants without a slash are told apart by the alias. */
  lemma AliasTellsTenants(q: Request, r: Request)
    requires AliasFor(q) == AliasFor(r) && !HasSlash(q.tenant) && !HasSlash(r.tenant)
    ensures q == r
  {
    if |q.tenant| < |r.tenant| {
      LongerTenantHasSlash(q, r);
    } else if |r.tenant| < |q.tenant| {
      LongerTenantHasSlash(r, q);
    } else {
      SameLengthSamePair(q, r);
    }
  }

  /** Main result: the adapter an alias points at is served to a request for that alias exactly when its tenant is the
      tenant of the request; it always is when tenants have no slash. */
  lemma {:induction false} AliasTargetIsServedExactly(c: Catalog, q: Request)
    requires InSync(c) && AliasFor(q) in c.aliases && IsAdapter(c.artifacts[c.aliases[AliasFor(q)].target].kind)
    ensures RowInSync(c, AliasFor(q))
    ensures var id := c.aliases[AliasFor(q)].target;
      && ResolveRoute(c, q).target == Some(id)
      && (id in ResolveRoute(c, q).route.adapters <==> c.artifacts[id].tenant == Some(q.tenant))
      && (!HasSlash(q.tenant) && !HasSlash(c.artifacts[id].tenant.value) ==> id in ResolveRoute(c, q).route.adapters)
  {
    var id := c.aliases[AliasFor(q)].target;
    assert RowInSync(c, AliasFor(q));
    assert Owned(c, id, Some(AliasFor(q)));
    var own := Request(c.artifacts[id].tenant.value, c.artifacts[id].task.value);
    ResolvedRouteFollows(c, q);
    if own.tenant == q.tenant {
      SameTenantSameTask(own, q);
    }
    if !HasSlash(q.tenant) && !HasSlash(own.tenant) {
      AliasTellsTenants(own, q);
    }
  }

  // ---- which aliases are shared ----

  lemma {:induction false} SplitAt(q: Request, text: string, i: nat)
    requires i < |text| && text[i] == '/' && AliasFor(q) == text
    ensures AliasFor(Request(text[..i], text[i + 1..])) == AliasFor(q)
  {
    assert text == text[..i] + "/" + text[i + 1..];
  }

  /** Another pair with the same alias, from a slash in the tenant or in the task. */
  lemma {:induction false} OtherSpelling(q: Request) returns (r: Request)
    requires HasSlash(q.tenant) || HasSlash(q.task)
    ensures AliasFor(r) == AliasFor(q) && r.tenant != q.tenant
  {
    var text, n := AliasFor(q), |q.tenant|;
    var i: nat;
    if HasSlash(q.tenant) {
      var k :| 0 <= k < n && q.tenant[k] == '/';
      i := k;
    } else {
      var k :| 0 <= k < |q.task| && q.task[k] == '/';
      i := n + 1 + k;
    }
    assert text[i] == '/';
    SplitAt(q, text, i);
    r := Request(text[..i], text[i + 1..]);
    assert |r.tenant| != n;
  }

  lemma LongerOtherTaskHasSlash(q: Request, r: Request)
    requires AliasFor(q) == AliasFor(r) && |q.tenant| < |r.tenant|
    ensures HasSlash(q.task)
  {
    assert AliasFor(r)[|r.tenant|] == '/';
    assert AliasFor(q)[|r.tenant|] == q.task[|r.tenant| - |q.tenant| - 1];
  }

  lemma SameLengthSamePair(q: Request, r: Request)
    requires AliasFor(q) == AliasFor(r) && |q.tenant| == |r.tenant|
    ensures q == r
  {
    assert AliasFor(q)[..|q.tenant|] == q.tenant && AliasFor(r)[..|r.tenant|] == r.tenant;
    SameTenantSameTask(q, r);
  }

  lemma SharedHasSlash(q: Request, r: Request)
    requires AliasFor(q) == AliasFor(r)
    ensures q == r || HasSlash(q.tenant) || HasSlash(q.task)
  {
    if |q.tenant| < |r.tenant| {
      LongerOtherTaskHasSlash(q, r);
    } else if |r.tenant| < |q.tenant| {
      LongerTenantHasSlash(r, q);
    } else {
      SameLengthSamePair(q, r);
    }
  }

  /** A pair shares its alias with another pair exactly when its tenant or its task has a slash. */
  lemma {:induction false} AliasIsSharedExactly(q: Request)
    ensures (exists r :: r != q && AliasFor(r) == AliasFor(q)) <==> '/' in q.tenant || '/' in q.task
  {
    assert ('/' in q.tenant <==> HasSlash(q.tenant)) && ('/' in q.task <==> HasSlash(q.task));
    if r :| r != q && AliasFor(r) == AliasFor(q) {
      SharedHasSlash(q, r);
    }
    if HasSlash(q.tenant) || HasSlash(q.task) {
      var r := OtherSpelling(q);
    }
  }

  /** One adapter of a tenant and a task in production, under its own alias. */
  function Lone(r: Request): Catalog {
    var id, alias := "adapter", AliasFor(r);
    Catalog(
      MESH_POLICY,
      map[id := Artifact(id, "tenant_adapter", Some(r.tenant), Some(r.task), Production, None, None, map[])],
      [id],
      map[alias := AliasRow(alias, id, None, Production)])
  }

  lemma LoneIsInSync(r: Request)
    ensures InSync(Lone(r)) && IsAdapter(Lone(r).artifacts["adapter"].kind)
  {
  }

  /** The alias of the request points at an adapter that the request's route leaves out. */
  ghost predicate Misses(c: Catalog, q: Request) {
    && InSync(c)
    && AliasFor(q) in c.aliases
    && IsAdapter(c.artifacts[c.aliases[AliasFor(q)].target].kind)
    && c.aliases[AliasFor(q)].target !in ResolveRoute(c, q).route.adapters
  }

  lemma {:induction false} LoneMisses(q: Request, r: Request)
    requires AliasFor(r) == AliasFor(q) && r.tenant != q.tenant
    ensures Misses(Lone(r), q)
  {
    LoneIsInSync(r);
    AliasTargetIsServedExactly(Lone(r), q);
  }

  /** Main result on aliases: a request can miss the adapter its alias points at exactly when its tenant or its task has
      a slash. */
  lemma {:induction false} AliasCanMissExactly(q: Request)
    ensures (exists c :: Misses(c, q)) <==> '/' in q.tenant || '/' in q.task
  {
    assert ('/' in q.tenant <==> HasSlash(q.tenant)) && ('/' in q.task <==> HasSlash(q.task));
    if c :| Misses(c, q) {
      AliasTargetIsServedExactly(c, q);
      var a := c.artifacts[c.aliases[AliasFor(q)].target];
      assert RowInSync(c, AliasFor(q)) && Owned(c, c.aliases[AliasFor(q)].target, Some(AliasFor(q)));
      var own := Request(a.tenant.value, a.task.value);
      assert own != q && AliasFor(own) == AliasFor(q);
      AliasIsSharedExactly(q);
    }
    if HasSlash(q.tenant) || HasSlash(q.task) {
      var r := OtherSpelling(q);
      LoneMisses(q, r);
    }
  }

  /** The exception is real: two pairs spell one alias, and the adapter of one is not served to the other. */
  lemma {:induction false} SlashedTenantsCollide()
    ensures AliasFor(Request("a/b", "c")) == AliasFor(Request("a", "b/c"))
    ensures Misses(Lone(Request("a/b", "c")), Request("a", "b/c"))
  {
    assert AliasFor(Request("a/b", "c")) == "a/b/c";
    assert AliasFor(Request("a", "b/c")) == "a/b/c";
    LoneMisses(Request("a", "b/c"), Request("a/b", "c"));
  }

  lemma EmptyIsInSync(policy: Policy)
    ensures InSync(Empty(policy))
  {
  }
}
