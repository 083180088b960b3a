/** The serving fabric: quotas, pools, the canary overlay, and adapters swapped while it runs. */
module Serving {
  import opened Values
  import opened Promotion
  import opened ModelCatalog
  import opened Routes

  datatype Pool = Pool(id: string, backend: string, healthy: bool)

  datatype Message = Message(role: string, content: string)

  /** Tools appear only through their printed form; hasFormat says that a response format was given. */
  datatype ChatRequest = ChatRequest(
    tenant: string, task: string, tier: string, messages: seq<Message>, tools: seq<string>, hasFormat: bool,
    stream: bool)

  datatype Quota = Quota(maxRequests: int, maxTokens: int, usedRequests: int, usedTokens: int)

  datatype Error =
    | QuotaExceeded
    | UnhealthyPool(id: string)
    | UnknownTier(tier: string)
    | NotAnAdapter
    | UnknownArtifact(id: string)
    | BadWeight

  datatype Plan = Plan(
    pool: string, backend: string, model: Option<string>, adapters: seq<string>, streaming: bool, structured: bool,
    tokens: nat, quota: Option<Quota>)

  type EightDigits = x: int | 0 <= x <= 0xFFFFFFFF

  /** What the fabric is configured with: pools by hardware tier, the share of canary traffic, the default backend of a
      tier, and the first eight hexadecimal digits of a request's digest. */
  datatype Setup = Setup(
    pools: map<string, Pool>, weight: real, defaultBackend: string -> Option<string>,
    digest: (string, seq<Message>, string) -> EightDigits)

  function Chars(messages: seq<Message>): nat {
    if messages == [] then 0 else |messages[0].content| + Chars(messages[1..])
  }

  function ToolChars(tools: seq<string>): nat {
    if tools == [] then 0 else |tools[0]| + ToolChars(tools[1..])
  }

  function EstimatedTokens(q: ChatRequest): (tokens: nat)
    ensures tokens >= 1
  {
    var quarter := (Chars(q.messages) + ToolChars(q.tools)) / 4;
    if quarter > 1 then quarter else 1
  }

  /** Characters add up, and four of them are a token; no request is free. */
  lemma {:induction false} CharsAddUp(a: seq<Message>, b: seq<Message>)
    ensures Chars(a + b) == Chars(a) + Chars(b)
    ensures forall m: Message :: Chars([m]) == |m.content|
  {
    if a == [] {
      assert a + b == b;
    } else {
      assert (a + b)[1..] == a[1..] + b;
      CharsAddUp(a[1..], b);
    }
    forall m: Message ensures Chars([m]) == |m.content| {
      assert [m][1..] == [];
    }
  }

  lemma {:induction false} ToolCharsAddUp(a: seq<string>, b: seq<string>)
    ensures ToolChars(a + b) == ToolChars(a) + ToolChars(b)
    ensures forall t: string :: ToolChars([t]) == |t|
  {
    if a == [] {
      assert a + b == b;
    } else {
      assert (a + b)[1..] == a[1..] + b;
      ToolCharsAddUp(a[1..], b);
    }
    forall t: string ensures ToolChars([t]) == |t| {
      assert [t][1..] == [];
    }
  }

  lemma TokensExactly(q: ChatRequest)
    ensures var chars := Chars(q.messages) + ToolChars(q.tools);
      if chars < 4 then EstimatedTokens(q) == 1
      else 4 * EstimatedTokens(q) <= chars < 4 * EstimatedTokens(q) + 4
  {
  }

  // ---- quotas ----

  predicate Admits(quota: Quota, tokens: int) {
    quota.usedRequests + 1 <= quota.maxRequests && quota.usedTokens + tokens <= quota.maxTokens
  }

  function Charged(quota: Quota, tokens: int): Quota {
    quota.(usedRequests := quota.usedRequests + 1, usedTokens := quota.usedTokens + tokens)
  }

  class TenantQuota {
    const maxRequests: int
    const maxTokens: int
    var usedRequests: int
    var usedTokens: int

    constructor (quota: Quota)
      ensures Figures() == quota
    {
      maxRequests, maxTokens, usedRequests, usedTokens :=
        quota.maxRequests, quota.maxTokens, quota.usedRequests, quota.usedTokens;
    }

    function Figures(): Quota
      reads this
    {
      Quota(maxRequests, maxTokens, usedRequests, usedTokens)
    }

    method Consume(tokens: int) returns (ok: bool)
      modifies this
      ensures ok <==> Admits(old(Figures()), tokens)
      ensures Figures() == if ok then Charged(old(Figures()), tokens) else old(Figures())
      ensures ok <==> old(usedRequests) + 1 <= maxRequests && old(usedTokens) + tokens <= maxTokens
      ensures usedRequests == old(usedRequests) + if ok then 1 else 0
      ensures usedTokens == old(usedTokens) + if ok then tokens else 0
    {
      ok := usedRequests + 1 <= maxRequests && usedTokens + tokens <= maxTokens;
      if ok {
        usedRequests := usedRequests + 1;
        usedTokens := usedTokens + tokens;
      }
    }
  }

  // ---- which artifacts serve a request ----

  function Bucket(setup: Setup, q: ChatRequest): real {
    setup.digest(q.tenant, q.messages, q.task) as real / 0xFFFFFFFF as real
  }

  function Context(q: ChatRequest): Request { Request(q.tenant, q.task) }

  function FittingIn(q: Request, state: State): Artifact -> bool { (a: Artifact) => a.state == state && Fits(a, q) }

  /** The place an artifact takes in a route. */
  datatype Slot = Slot(kind: string, tenant: Option<string>, task: Option<string>)

  function SlotOf(a: Artifact): Slot { Slot(a.kind, a.tenant, a.task) }

  function Slots(arts: seq<Artifact>): set<Slot> {
    set a | a in arts :: SlotOf(a)
  }

  function Outside(slots: set<Slot>): Artifact -> bool { (a: Artifact) => SlotOf(a) !in slots }

  function Prefer(preferred: seq<Artifact>, fallback: seq<Artifact>): seq<Artifact> {
    preferred + Filter(Outside(Slots(preferred)), fallback)
  }

  predicate OnCanary(setup: Setup, arts: seq<Artifact>, q: ChatRequest) {
    Filter(FittingIn(Context(q), Canary), arts) != [] && Bucket(setup, q) < setup.weight
  }

  function Serving(setup: Setup, arts: seq<Artifact>, q: ChatRequest): seq<Artifact> {
    var production := Filter(FittingIn(Context(q), Production), arts);
    if OnCanary(setup, arts, q) then Prefer(Filter(FittingIn(Context(q), Canary), arts), production) else production
  }

  /** The overlay covers exactly the slots of both lists, keeps every preferred artifact, and keeps a fallback artifact
      exactly when its slot is free. */
  lemma OverlayIsExact(preferred: seq<Artifact>, fallback: seq<Artifact>)
    ensures Slots(Prefer(preferred, fallback)) == Slots(preferred) + Slots(fallback)
    ensures forall a ::
      a in Prefer(preferred, fallback) <==> a in preferred || (a in fallback && SlotOf(a) !in Slots(preferred))
    ensures preferred <= Prefer(preferred, fallback)
  {
    FilterKeeps(Outside(Slots(preferred)), fallback);
    var free := Filter(Outside(Slots(preferred)), fallback);
    assert forall a :: a in preferred + free <==> a in preferred || a in free;
    forall slot | slot in Slots(preferred) + Slots(fallback)
      ensures slot in Slots(Prefer(preferred, fallback))
    {
      var a :| SlotOf(a) == slot && (a in preferred || a in fallback);
      if slot !in Slots(preferred) {
        assert a in free;
      }
    }
  }

  lemma SameSlot(arts: seq<Artifact>, a: Artifact)
    ensures SlotOf(a) in Slots(arts) <==>
      exists c :: c in arts && c.kind == a.kind && c.tenant == a.tenant && c.task == a.task
  {
    if SlotOf(a) in Slots(arts) {
      var c :| c in arts && SlotOf(c) == SlotOf(a);
      assert c.kind == a.kind && c.tenant == a.tenant && c.task == a.task;
    }
    if c :| c in arts && c.kind == a.kind && c.tenant == a.tenant && c.task == a.task {
      assert SlotOf(c) == SlotOf(a);
    }
  }

  /** A request on canary is served every fitting canary artifact, and a fitting production artifact exactly if no
      fitting canary is of its kind, tenant and task; so no such place is lost. */
  lemma {:induction false} CanaryOverlayIsExact(setup: Setup, arts: seq<Artifact>, q: ChatRequest, a: Artifact)
    requires OnCanary(setup, arts, q)
    ensures a in Serving(setup, arts, q) <==>
      && a in arts
      && a.tenant in {None, Some(q.tenant)} && a.task in {None, Some(q.task)}
      && (a.state == Production ==>
            forall c :: c in arts && c.state == Canary && c.kind == a.kind ==> c.tenant != a.tenant || c.task != a.task)
      && a.state in {Canary, Production}
    ensures
      (a in arts && a.state in {Canary, Production} && a.tenant in {None, Some(q.tenant)}
        && a.task in {None, Some(q.task)}) ==>
        exists b :: b in Serving(setup, arts, q) && b.kind == a.kind && b.tenant == a.tenant && b.task == a.task
  {
    var canary, production :=
      Filter(FittingIn(Context(q), Canary), arts), Filter(FittingIn(Context(q), Production), arts);
    OverlayIsExact(canary, production);
    FilterKeeps(FittingIn(Context(q), Canary), arts);
    FilterKeeps(FittingIn(Context(q), Production), arts);
    SameSlot(canary, a);
    SameSlot(Serving(setup, arts, q), a);
  }

  /** When a request is on canary: some fitting artifact is in canary, and the first eight digits of its digest, as a
      share of the greatest such number, are below the weight. */
  lemma OnCanaryExactly(setup: Setup, arts: seq<Artifact>, q: ChatRequest)
    ensures OnCanary(setup, arts, q) <==>
      && (exists a ::
            a in arts && a.state == Canary && a.tenant in {None, Some(q.tenant)} && a.task in {None, Some(q.task)})
      && setup.digest(q.tenant, q.messages, q.task) as real < setup.weight * 4294967295.0
  {
    var canary := Filter(FittingIn(Context(q), Canary), arts);
    FilterKeeps(FittingIn(Context(q), Canary), arts);
    if canary != [] {
      assert canary[0] in canary;
    }
    ShareBelow(setup.digest(q.tenant, q.messages, q.task) as real, 4294967295.0, setup.weight);
  }

  lemma ShareBelow(n: real, most: real, weight: real)
    requires most > 0.0
    ensures n / most < weight <==> n < weight * most
  {
    assert (n / most) * most == n;
    if n / most < weight {
      assert (weight - n / most) * most > 0.0;
    } else {
      assert (n / most - weight) * most >= 0.0;
    }
  }

  lemma ServingIsLiveAndFits(setup: Setup, arts: seq<Artifact>, q: ChatRequest)
    ensures forall a :: a in Serving(setup, arts, q) ==> a in arts && Live(a.state) && Fits(a, Context(q))
    ensures !OnCanary(setup, arts, q) ==>
      forall a :: a in Serving(setup, arts, q) <==> a in arts && a.state == Production && Fits(a, Context(q))
  {
    var canary, production :=
      Filter(FittingIn(Context(q), Canary), arts), Filter(FittingIn(Context(q), Production), arts);
    FilterKeeps(FittingIn(Context(q), Canary), arts);
    FilterKeeps(FittingIn(Context(q), Production), arts);
    OverlayIsExact(canary, production);
  }

  /** Raising the weight never moves a request off canary. */
  lemma WeightIsMonotone(low: Setup, high: Setup, arts: seq<Artifact>, q: ChatRequest)
    requires high == low.(weight := high.weight) && low.weight <= high.weight
    ensures OnCanary(low, arts, q) ==> OnCanary(high, arts, q)
  {
  }

  /** At weight one every request goes to canary except those with the greatest digest; at weight zero none does. */
  lemma FullWeightMissesExactly(setup: Setup, arts: seq<Artifact>, q: ChatRequest)
    requires exists a ::
      a in arts && a.state == Canary && a.tenant in {None, Some(q.tenant)} && a.task in {None, Some(q.task)}
    ensures 0.0 <= Bucket(setup, q) <= 1.0
    ensures setup.weight == 1.0 ==>
      (OnCanary(setup, arts, q) <==> setup.digest(q.tenant, q.messages, q.task) != 0xFFFFFFFF)
    ensures setup.weight == 0.0 ==> !OnCanary(setup, arts, q)
  {
    var n := setup.digest(q.tenant, q.messages, q.task);
    assert n as real <= 0xFFFFFFFF as real;
    OnCanaryExactly(setup, arts, q);
  }

  // ---- planning ----

  function SelectPool(setup: Setup, tier: string): Result<Pool, Error> {
    if tier in setup.pools then
      if setup.pools[tier].healthy then Ok(setup.pools[tier]) else Err(UnhealthyPool(setup.pools[tier].id))
    else
      match setup.defaultBackend(tier)
      case Some(backend) => Ok(Pool("pool_" + tier, backend, true))
      case None => Err(UnknownTier(tier))
  }

  /** The pool of a request; the capability report that follows raises for a tier no backend serves. */
  function CheckedPool(setup: Setup, tier: string): Result<Pool, Error> {
    match SelectPool(setup, tier)
    case Err(e) => Err(e)
    case Ok(pool) => if setup.defaultBackend(tier) == None then Err(UnknownTier(tier)) else Ok(pool)
  }

  function Planned(setup: Setup, arts: seq<Artifact>, q: ChatRequest, pool: Pool, quota: Option<Quota>): Plan {
    var route := SelectServingRoute(Context(q), Serving(setup, arts, q));
    Plan(pool.id, pool.backend, route.model, route.adapters, q.stream, q.hasFormat || q.tools != [],
      EstimatedTokens(q), quota)
  }

  /** The tenant's quota afterwards, and the plan or the error. The quota is charged before the pool is looked at. */
  function PlanChat(
      setup: Setup, arts: seq<Artifact>, quota: Option<Quota>, q: ChatRequest)
    : (Option<Quota>, Result<Plan, Error>)
  {
    if quota.Some? && !Admits(quota.value, EstimatedTokens(q)) then (quota, Err(QuotaExceeded))
    else
      var charged := if quota.Some? then Some(Charged(quota.value, EstimatedTokens(q))) else None;
      match CheckedPool(setup, q.tier)
      case Err(e) => (charged, Err(e))
      case Ok(pool) => (charged, Ok(Planned(setup, arts, q, pool, charged)))
  }

  /** A tenant pays without getting a plan exactly when the request fits the quota, and its pool is not healthy or no
      backend serves its tier. */
  lemma PaysForNothingExactly(setup: Setup, arts: seq<Artifact>, quota: Quota, q: ChatRequest)
    ensures PlanChat(setup, arts, Some(quota), q).0 != Some(quota) && PlanChat(setup, arts, Some(quota), q).1.Err? <==>
      && quota.usedRequests < quota.maxRequests
      && quota.usedTokens + EstimatedTokens(q) <= quota.maxTokens
      && ((q.tier in setup.pools && !setup.pools[q.tier].healthy) || setup.defaultBackend(q.tier) == None)
  {
    assert Charged(quota, EstimatedTokens(q)).usedRequests != quota.usedRequests;
  }

  /** Why a request gets no plan, in the order of the checks; the quota is charged as soon as it admits the request. */
  lemma PlanIsRefusedExactly(setup: Setup, arts: seq<Artifact>, quota: Option<Quota>, q: ChatRequest)
    ensures var (after, r) := PlanChat(setup, arts, quota, q);
      var n := EstimatedTokens(q);
      if quota.Some? && (quota.value.usedRequests + 1 > quota.value.maxRequests
        || quota.value.usedTokens + n > quota.value.maxTokens)
      then r == Err(QuotaExceeded) && after == quota
      else
        && (quota == None ==> after == None)
        && (quota.Some? ==> after == Some(Quota(quota.value.maxRequests, quota.value.maxTokens,
              quota.value.usedRequests + 1, quota.value.usedTokens + n)))
        && (if q.tier in setup.pools && !setup.pools[q.tier].healthy
            then r == Err(UnhealthyPool(setup.pools[q.tier].id))
            else if setup.defaultBackend(q.tier) == None then r == Err(UnknownTier(q.tier))
            else r.Ok?)
  {
  }

  /** A plan names the healthy pool of its tier, or the default pool of a tier without one; it says how the request is
      answered, what it was charged, and what is left of the quota. */
  lemma PlanIsExact(setup: Setup, arts: seq<Artifact>, quota: Option<Quota>, q: ChatRequest, plan: Plan)
    requires PlanChat(setup, arts, quota, q).1 == Ok(plan)
    ensures q.tier in setup.pools ==>
      && setup.pools[q.tier].healthy
      && plan.pool == setup.pools[q.tier].id && plan.backend == setup.pools[q.tier].backend
    ensures q.tier !in setup.pools ==>
      plan.pool == "pool_" + q.tier && setup.defaultBackend(q.tier) == Some(plan.backend)
    ensures plan.streaming == q.stream && plan.structured == (q.hasFormat || q.tools != [])
    ensures plan.tokens == EstimatedTokens(q) && plan.quota == PlanChat(setup, arts, quota, q).0
  {
  }

  /** Main result on plans: whatever a plan names is in canary or production and its tenant and task are each those of
      the request or none; off canary its adapters are exactly the production artifacts of an adapter kind of which
      that is true. */
  lemma {:induction false} PlanNamesExactly(
      setup: Setup, arts: seq<Artifact>, quota: Option<Quota>, q: ChatRequest, plan: Plan)
    requires PlanChat(setup, arts, quota, q).1 == Ok(plan)
    ensures forall id :: id in plan.adapters ==>
      exists a :: a in arts && a.id == id
        && a.state in {Canary, Production}
        && a.kind in {"tenant_adapter", "task_adapter", "policy_adapter", "quantized_checkpoint"}
        && a.tenant in {None, Some(q.tenant)} && a.task in {None, Some(q.task)}
    ensures plan.model.Some? ==>
      exists a :: a in arts && a.id == plan.model.value
        && a.state in {Canary, Production} && a.kind == "base_model"
        && a.tenant in {None, Some(q.tenant)} && a.task in {None, Some(q.task)}
    ensures !OnCanary(setup, arts, q) ==> forall id :: id in plan.adapters <==>
      exists a :: a in arts && a.id == id
        && a.state == Production
        && a.kind in {"tenant_adapter", "task_adapter", "policy_adapter", "quantized_checkpoint"}
        && a.tenant in {None, Some(q.tenant)} && a.task in {None, Some(q.task)}
  {
    forall id | id in plan.adapters {
      AdaptersAreLive(setup, arts, q, id);
    }
    if plan.model.Some? {
      ModelIsLive(setup, arts, q, plan.model.value);
    }
    if !OnCanary(setup, arts, q) {
      forall id {
        ProductionIsNamed(setup, arts, q, id);
      }
    }
  }

  lemma AdaptersAreLive(setup: Setup, arts: seq<Artifact>, q: ChatRequest, id: string)
    requires id in SelectServingRoute(Context(q), Serving(setup, arts, q)).adapters
    ensures
      exists a :: a in arts && a.id == id
        && a.state in {Canary, Production}
        && a.kind in {"tenant_adapter", "task_adapter", "policy_adapter", "quantized_checkpoint"}
        && a.tenant in {None, Some(q.tenant)} && a.task in {None, Some(q.task)}
  {
    ServingIsLiveAndFits(setup, arts, q);
    RouteFollows(Context(q), Serving(setup, arts, q));
    var a :| a in Serving(setup, arts, q) && a.id == id && IsAdapter(a.kind) && Fits(a, Context(q));
    assert a in arts;
  }

  lemma ModelIsLive(setup: Setup, arts: seq<Artifact>, q: ChatRequest, id: string)
    requires SelectServingRoute(Context(q), Serving(setup, arts, q)).model == Some(id)
    ensures
      exists a :: a in arts && a.id == id
        && a.state in {Canary, Production} && a.kind == "base_model"
        && a.tenant in {None, Some(q.tenant)} && a.task in {None, Some(q.task)}
  {
    ServingIsLiveAndFits(setup, arts, q);
    RouteFollows(Context(q), Serving(setup, arts, q));
    var a :| a in Serving(setup, arts, q) && a.id == id && a.kind == "base_model";
    assert a in arts;
  }

  lemma ProductionIsNamed(setup: Setup, arts: seq<Artifact>, q: ChatRequest, id: string)
    requires !OnCanary(setup, arts, q)
    ensures id in SelectServingRoute(Context(q), Serving(setup, arts, q)).adapters <==>
      exists a :: a in arts && a.id == id
        && a.state == Production
        && a.kind in {"tenant_adapter", "task_adapter", "policy_adapter", "quantized_checkpoint"}
        && a.tenant in {None, Some(q.tenant)} && a.task in {None, Some(q.task)}
  {
    ServingIsLiveAndFits(setup, arts, q);
    RouteFollows(Context(q), Serving(setup, arts, q));
    if a :| a in arts && a.id == id && a.state == Production && IsAdapter(a.kind) && Fits(a, Context(q)) {
      assert a in Serving(setup, arts, q);
    }
  }

  /** On canary its adapters are exactly those of the overlay. */
  lemma CanaryPlanNamesExactly(
      setup: Setup, arts: seq<Artifact>, quota: Option<Quota>, q: ChatRequest, plan: Plan, id: string)
    requires PlanChat(setup, arts, quota, q).1 == Ok(plan) && OnCanary(setup, arts, q)
    ensures id in plan.adapters <==>
      exists a :: a in Serving(setup, arts, q) && a.id == id
        && a.kind in {"tenant_adapter", "task_adapter", "policy_adapter", "quantized_checkpoint"}
  {
    ServingIsLiveAndFits(setup, arts, q);
    RouteFollows(Context(q), Serving(setup, arts, q));
  }

  /** A fitting canary adapter is served to every request on canary. */
  lemma {:induction false} CanaryIsServed(
      setup: Setup, arts: seq<Artifact>, quota: Option<Quota>, q: ChatRequest, a: Artifact)
    requires PlanChat(setup, arts, quota, q).1.Ok? && a in arts && a.state == Canary
    requires a.kind in {"tenant_adapter", "task_adapter", "policy_adapter", "quantized_checkpoint"}
    requires a.tenant in {None, Some(q.tenant)} && a.task in {None, Some(q.task)}
    requires setup.digest(q.tenant, q.messages, q.task) as real < setup.weight * 4294967295.0
    ensures a.id in PlanChat(setup, arts, quota, q).1.value.adapters
  {
    OnCanaryExactly(setup, arts, q);
    CanaryOverlayIsExact(setup, arts, q, a);
    CanaryPlanNamesExactly(setup, arts, quota, q, PlanChat(setup, arts, quota, q).1.value, a.id);
  }

  // ---- swapping adapters ----

  function OtherThan(id: string): Artifact -> bool { (a: Artifact) => a.id != id }

  /** A swap is refused for anything but an adapter; otherwise it drops whatever has the id and puts the artifact
      last. */
  lemma SwapIsExact(arts: seq<Artifact>, a: Artifact)
    ensures a.kind !in {"tenant_adapter", "task_adapter", "policy_adapter", "quantized_checkpoint"} ==>
      Swapped(arts, a) == Err(NotAnAdapter)
    ensures a.kind in {"tenant_adapter", "task_adapter", "policy_adapter", "quantized_checkpoint"} ==>
      && Swapped(arts, a).Ok?
      && var after := Swapped(arts, a).value;
        && after[|after| - 1] == a
        && (forall b :: b in after[..|after| - 1] <==> b in arts && b.id != a.id)
        && (forall k :: 0 <= k < |after| - 1 ==> after[k].id != a.id)
  {
    FilterKeeps(OtherThan(a.id), arts);
    var kept := Filter(OtherThan(a.id), arts);
    assert (kept + [a])[..|kept|] == kept;
    assert forall k :: 0 <= k < |kept| ==> kept[k] in kept;
  }

  function Swapped(arts: seq<Artifact>, a: Artifact): Result<seq<Artifact>, Error> {
    if !IsAdapter(a.kind) then Err(NotAnAdapter) else Ok(Filter(OtherThan(a.id), arts) + [a])
  }

  /** The first place with the id, or the length. */
  function Find(arts: seq<Artifact>, id: string): (at: nat)
    ensures at <= |arts| && (at < |arts| ==> arts[at].id == id) && forall i :: 0 <= i < at ==> arts[i].id != id
  {
    if arts == [] || arts[0].id == id then 0 else 1 + Find(arts[1..], id)
  }

  /** An artifact after a rollback in which it is retired, restored, both, or neither. */
  function Switched(a: Artifact, retired: bool, restored: bool): Artifact {
    if restored then a.(state := Production) else if retired then a.(state := Retired) else a
  }

  /** The first places of the two ids. */
  function Places(arts: seq<Artifact>, current: string, back: string): (r: Result<(nat, nat), Error>)
    ensures r.Ok? ==> r.value.0 < |arts| && r.value.1 < |arts|
  {
    var i, j := Find(arts, current), Find(arts, back);
    if i == |arts| then Err(UnknownArtifact(current))
    else if j == |arts| then Err(UnknownArtifact(back))
    else Ok((i, j))
  }

  function RolledBack(arts: seq<Artifact>, current: string, back: string): Result<seq<Artifact>, Error> {
    match Places(arts, current, back)
    case Err(e) => Err(e)
    case Ok(places) => Ok(SwitchedAt(arts, places.0, places.1))
  }

  function SwitchedAt(arts: seq<Artifact>, i: nat, j: nat): seq<Artifact>
    requires i < |arts| && j < |arts|
  {
    var retired := arts[i := arts[i].(state := Retired)];
    retired[j := retired[j].(state := Production)]
  }

  /** A rollback needs both artifacts. */
  lemma RollbackNeedsBoth(arts: seq<Artifact>, current: string, back: string)
    ensures (forall a :: a in arts ==> a.id != current) ==>
      RolledBack(arts, current, back) == Err(UnknownArtifact(current))
    ensures (exists a :: a in arts && a.id == current) && (forall a :: a in arts ==> a.id != back) ==>
      RolledBack(arts, current, back) == Err(UnknownArtifact(back))
  {
    var i, j := Find(arts, current), Find(arts, back);
    assert i < |arts| ==> arts[i] in arts;
    assert j < |arts| ==> arts[j] in arts;
  }

  /** It retires the first artifact with the one id, then puts the first with the other into production, and touches
      nothing else. */
  lemma RollbackIsExact(arts: seq<Artifact>, current: string, back: string, i: nat, j: nat)
    requires i < |arts| && arts[i].id == current && forall k :: 0 <= k < i ==> arts[k].id != current
    requires j < |arts| && arts[j].id == back && forall k :: 0 <= k < j ==> arts[k].id != back
    ensures RolledBack(arts, current, back).Ok?
    ensures var after := RolledBack(arts, current, back).value;
      && |after| == |arts|
      && forall k :: 0 <= k < |arts| ==>
           after[k] == arts[k].(state := if k == j then Production else if k == i then Retired else arts[k].state)
  {
    assert Find(arts, current) == i && Find(arts, back) == j;
  }

  predicate DistinctIds(arts: seq<Artifact>) {
    forall i, j :: 0 <= i < j < |arts| ==> arts[i].id != arts[j].id
  }

  /** A swapped-in production adapter is in every plan off canary that it fits. */
  lemma SwappedIsServed(
      setup: Setup, arts: seq<Artifact>, a: Artifact, quota: Option<Quota>, q: ChatRequest, after: seq<Artifact>)
    requires Swapped(arts, a) == Ok(after) && a.state == Production
    requires a.tenant in {None, Some(q.tenant)} && a.task in {None, Some(q.task)}
    requires PlanChat(setup, after, quota, q).1.Ok? && !OnCanary(setup, after, q)
    ensures a.id in PlanChat(setup, after, quota, q).1.value.adapters
  {
    SwapIsExact(arts, a);
    PlanNamesExactly(setup, after, quota, q, PlanChat(setup, after, quota, q).1.value);
    assert a in after;
  }

  /** Rolling back moves every fitting plan off canary from the current adapter to the earlier one. */
  lemma {:induction false} RollbackMovesPlans(
      setup: Setup, arts: seq<Artifact>, current: string, back: string, quota: Option<Quota>, q: ChatRequest,
      after: seq<Artifact>, restored: Artifact)
    requires DistinctIds(arts) && current != back && RolledBack(arts, current, back) == Ok(after)
    requires PlanChat(setup, after, quota, q).1.Ok? && !OnCanary(setup, after, q)
    requires restored in arts && restored.id == back
    requires restored.kind in {"tenant_adapter", "task_adapter", "policy_adapter", "quantized_checkpoint"}
    requires restored.tenant in {None, Some(q.tenant)} && restored.task in {None, Some(q.task)}
    ensures back in PlanChat(setup, after, quota, q).1.value.adapters
    ensures current !in PlanChat(setup, after, quota, q).1.value.adapters
  {
    RollbackSwitches(arts, current, back);
    PlanNamesExactly(setup, after, quota, q, PlanChat(setup, after, quota, q).1.value);
    assert arts[Find(arts, back)] == restored && after[Find(arts, back)] in after;
  }

  lemma RollbackSwitches(arts: seq<Artifact>, current: string, back: string)
    requires DistinctIds(arts) && current != back && RolledBack(arts, current, back).Ok?
    ensures var arts' := RolledBack(arts, current, back).value; var j := Find(arts, back);
      && |arts'| == |arts| && j < |arts| && arts'[j] == arts[j].(state := Production)
      && forall a :: a in arts' && a.id == current ==> a.state == Retired
  {
    var arts' := RolledBack(arts, current, back).value;
    var i, j := Find(arts, current), Find(arts, back);
    forall a | a in arts' && a.id == current ensures a.state == Retired {
      var k :| 0 <= k < |arts'| && arts'[k] == a;
      assert arts[k].id == current;
    }
  }

  // ---- runs ----

  datatype Fabric = Fabric(setup: Setup, artifacts: seq<Artifact>, quotas: map<string, Quota>)

  datatype Call = PlanFor(q: ChatRequest) | Swap(a: Artifact) | RollBack(current: string, back: string)

  function PutQuota(quotas: map<string, Quota>, tenant: string, quota: Option<Quota>): map<string, Quota> {
    if quota.Some? then quotas[tenant := quota.value] else quotas
  }

  function QuotaOf(f: Fabric, tenant: string): Option<Quota> {
    if tenant in f.quotas then Some(f.quotas[tenant]) else None
  }

  function Answer(f: Fabric, q: ChatRequest): (Option<Quota>, Result<Plan, Error>) {
    PlanChat(f.setup, f.artifacts, QuotaOf(f, q.tenant), q)
  }

  function Step(f: Fabric, call: Call): Fabric {
    match call
    case PlanFor(q) => f.(quotas := PutQuota(f.quotas, q.tenant, Answer(f, q).0))
    case Swap(a) => if Swapped(f.artifacts, a).Ok? then f.(artifacts := Swapped(f.artifacts, a).value) else f
    case RollBack(current, back) =>
      if RolledBack(f.artifacts, current, back).Ok?
      then f.(artifacts := RolledBack(f.artifacts, current, back).value)
      else f
  }

  function Run(f: Fabric, calls: seq<Call>): Fabric {
    if calls == [] then f else Step(Run(f, calls[..|calls| - 1]), calls[|calls| - 1])
  }

  /** Plans and tokens of one tenant: what its quota admitted, and what was then issued as plans. */
  datatype Tally = Tally(admitted: nat, admittedTokens: nat, issued: nat, issuedTokens: nat)

  function Added(t: Tally, f: Fabric, call: Call, tenant: string): Tally {
    if !call.PlanFor? || call.q.tenant != tenant || Answer(f, call.q).1 == Err(QuotaExceeded) then t
    else
      var tokens := EstimatedTokens(call.q);
      var paid := t.(admitted := t.admitted + 1, admittedTokens := t.admittedTokens + tokens);
      if Answer(f, call.q).1.Ok? then paid.(issued := t.issued + 1, issuedTokens := t.issuedTokens + tokens) else paid
  }

  function TallyOf(f: Fabric, calls: seq<Call>, tenant: string): Tally {
    if calls == [] then Tally(0, 0, 0, 0)
    else Added(TallyOf(f, calls[..|calls| - 1], tenant), Run(f, calls[..|calls| - 1]), calls[|calls| - 1], tenant)
  }

  /** What one call adds to the tally of a tenant. */
  lemma TallyGoesOn(f: Fabric, calls: seq<Call>, call: Call, tenant: string, before: Fabric, t: Tally, t': Tally)
    requires before == Run(f, calls) && t == TallyOf(f, calls, tenant) && t' == TallyOf(f, calls + [call], tenant)
    ensures TallyOf(f, [], tenant) == Tally(0, 0, 0, 0)
    ensures !call.PlanFor? || call.q.tenant != tenant ==> t' == t
    ensures call.PlanFor? && call.q.tenant == tenant ==>
      var n, r := EstimatedTokens(call.q), PlanChat(before.setup, before.artifacts, QuotaOf(before, tenant), call.q).1;
      && (r == Err(QuotaExceeded) ==> t' == t)
      && (r != Err(QuotaExceeded) ==>
            t'.admitted == t.admitted + 1 && t'.admittedTokens == t.admittedTokens + n)
      && (r.Ok? ==> t'.issued == t.issued + 1 && t'.issuedTokens == t.issuedTokens + n)
      && (r.Err? ==> t'.issued == t.issued && t'.issuedTokens == t.issuedTokens)
  {
    assert (calls + [call])[..|calls|] == calls;
  }

  /** What one call does to the fabric. */
  lemma RunGoesOn(f: Fabric, calls: seq<Call>, call: Call, before: Fabric, after: Fabric)
    requires before == Run(f, calls) && after == Run(f, calls + [call])
    ensures after.setup == before.setup && Run(f, []) == f
    ensures call.PlanFor? ==>
      && after.artifacts == before.artifacts
      && after.quotas ==
           if call.q.tenant !in before.quotas then before.quotas
           else
             before.quotas[call.q.tenant := PlanChat(before.setup, before.artifacts,
               Some(before.quotas[call.q.tenant]), call.q).0.value]
    ensures !call.PlanFor? ==> after.quotas == before.quotas
    ensures call.Swap? ==>
      after.artifacts ==
        if Swapped(before.artifacts, call.a).Ok? then Swapped(before.artifacts, call.a).value else before.artifacts
    ensures call.RollBack? ==>
      after.artifacts ==
        if RolledBack(before.artifacts, call.current, call.back).Ok?
        then RolledBack(before.artifacts, call.current, call.back).value
        else before.artifacts
  {
    assert (calls + [call])[..|calls|] == calls;
    if call.PlanFor? && call.q.tenant in before.quotas {
      AnswerCharges(before.setup, before.artifacts, before.quotas[call.q.tenant], call.q);
    }
  }

  /** One call charges the tenant's quota by what it adds to the tally, within the limits. */
  lemma StepCharges(f: Fabric, call: Call, tenant: string, t: Tally)
    requires tenant in f.quotas
    ensures var before, t' := f.quotas[tenant], Added(t, f, call, tenant);
      && tenant in Step(f, call).quotas
      && Step(f, call).quotas[tenant] == before.(
           usedRequests := before.usedRequests + t'.admitted - t.admitted,
           usedTokens := before.usedTokens + t'.admittedTokens - t.admittedTokens)
      && (t' != t ==> Admits(before, t'.admittedTokens - t.admittedTokens) && t'.admitted == t.admitted + 1)
      && t'.issued - t.issued <= t'.admitted - t.admitted
      && t'.issuedTokens - t.issuedTokens <= t'.admittedTokens - t.admittedTokens
  {
    if call.PlanFor? && call.q.tenant == tenant {
      AnswerCharges(f.setup, f.artifacts, f.quotas[tenant], call.q);
    }
  }

  lemma AnswerCharges(setup: Setup, arts: seq<Artifact>, quota: Quota, q: ChatRequest)
    ensures PlanChat(setup, arts, Some(quota), q).1 == Err(QuotaExceeded) <==> !Admits(quota, EstimatedTokens(q))
    ensures PlanChat(setup, arts, Some(quota), q).0 ==
      Some(if Admits(quota, EstimatedTokens(q)) then Charged(quota, EstimatedTokens(q)) else quota)
  {
  }

  /** Main result on quotas: after any calls in any order, the counters of a tenant with a quota have grown by exactly
      the charges admitted, plans issued are among them, and once anything was admitted neither limit is exceeded. */
  lemma {:induction false} QuotaIsKept(f: Fabric, calls: seq<Call>, tenant: string)
    requires tenant in f.quotas
    ensures var before, f', t := f.quotas[tenant], Run(f, calls), TallyOf(f, calls, tenant);
      && tenant in f'.quotas
      && f'.quotas[tenant] ==
           before.(usedRequests := before.usedRequests + t.admitted, usedTokens := before.usedTokens + t.admittedTokens)
      && t.issued <= t.admitted && t.issuedTokens <= t.admittedTokens
      && (t.admitted > 0 ==>
            before.usedRequests + t.admitted <= before.maxRequests
              && before.usedTokens + t.admittedTokens <= before.maxTokens)
    decreases |calls|
  {
    if calls != [] {
      var earlier := calls[..|calls| - 1];
      QuotaIsKept(f, earlier, tenant);
      StepCharges(Run(f, earlier), calls[|calls| - 1], tenant, TallyOf(f, earlier, tenant));
    }
  }

  /** A fresh quota bounds the plans and the tokens a tenant ever gets. */
  lemma {:induction false} FreshQuotaBoundsPlans(f: Fabric, calls: seq<Call>, tenant: string)
    requires tenant in f.quotas && f.quotas[tenant].usedRequests == 0 && f.quotas[tenant].usedTokens == 0
    requires f.quotas[tenant].maxRequests >= 0 && f.quotas[tenant].maxTokens >= 0
    ensures TallyOf(f, calls, tenant).issued <= f.quotas[tenant].maxRequests
    ensures TallyOf(f, calls, tenant).issuedTokens <= f.quotas[tenant].maxTokens
  {
    QuotaIsKept(f, calls, tenant);
    NothingWithoutAdmission(f, calls, tenant);
  }

  lemma {:induction false} NothingWithoutAdmission(f: Fabric, calls: seq<Call>, tenant: string)
    ensures TallyOf(f, calls, tenant).admitted == 0 ==> TallyOf(f, calls, tenant) == Tally(0, 0, 0, 0)
    decreases |calls|
  {
    if calls != [] {
      NothingWithoutAdmission(f, calls[..|calls| - 1], tenant);
    }
  }

  // ---- in place ----

  function Rows(arts: seq<ModelArtifact>): (rows: seq<Artifact>)
    reads arts
    ensures |rows| == |arts| && forall i :: 0 <= i < |arts| ==> rows[i] == arts[i].Row()
  {
    if arts == [] then [] else [arts[0].Row()] + Rows(arts[1..])
  }

  /** No artifact object is listed twice. */
  predicate Unshared(arts: seq<ModelArtifact>) {
    forall i, j :: 0 <= i < j < |arts| ==> arts[i] != arts[j]
  }

  lemma RowsLast(arts: seq<ModelArtifact>, a: ModelArtifact)
    ensures Rows(arts + [a]) == Rows(arts) + [a.Row()]
  {
  }

  /** The listed artifacts with another id. */
  function Others(arts: seq<ModelArtifact>, id: string): seq<ModelArtifact> {
    if arts == [] then [] else if arts[0].id != id then [arts[0]] + Others(arts[1..], id) else Others(arts[1..], id)
  }

  lemma {:induction false} OthersRows(arts: seq<ModelArtifact>, id: string)
    ensures Rows(Others(arts, id)) == Filter(OtherThan(id), Rows(arts))
  {
    if arts != [] {
      OthersRows(arts[1..], id);
      var rest := Others(arts[1..], id);
      assert Rows(arts) == [arts[0].Row()] + Rows(arts[1..]);
      assert ([arts[0]] + rest)[1..] == rest;
      assert Rows(arts)[1..] == Rows(arts[1..]);
    }
  }

  lemma SwitchedRows(objects: seq<ModelArtifact>, before: seq<Artifact>, after: seq<Artifact>, i: nat, j: nat)
    requires |objects| == |before| == |after| && i < |objects| && j < |objects|
    requires forall k :: 0 <= k < |objects| ==>
      after[k] == Switched(before[k], objects[k] == objects[i], objects[k] == objects[j])
    ensures Unshared(objects) ==> after == SwitchedAt(before, i, j)
  {
    if Unshared(objects) {
      assert forall k :: 0 <= k < |objects| ==>
        (objects[k] == objects[i] <==> k == i) && (objects[k] == objects[j] <==> k == j);
    }
  }

  class MeshBrainServingFabric {
    const setup: Setup
    var artifacts: seq<ModelArtifact>
    const quotas: map<string, TenantQuota>

    /** Refuses a canary weight outside the unit interval. */
    static method Create(setup: Setup, artifacts: seq<ModelArtifact>, quotas: map<string, TenantQuota>)
      returns (r: Result<MeshBrainServingFabric, Error>)
      ensures r.Ok? <==> 0.0 <= setup.weight <= 1.0
      ensures r.Ok? ==>
        fresh(r.value) && r.value.setup == setup && r.value.artifacts == artifacts && r.value.quotas == quotas
    {
      if !(0.0 <= setup.weight <= 1.0) {
        return Err(BadWeight);
      }
      var fabric := new MeshBrainServingFabric(setup, artifacts, quotas);
      r := Ok(fabric);
    }

    constructor (setup: Setup, artifacts: seq<ModelArtifact>, quotas: map<string, TenantQuota>)
      ensures this.setup == setup && this.artifacts == artifacts && this.quotas == quotas
    {
      this.setup, this.artifacts, this.quotas := setup, artifacts, quotas;
    }

    function Figures(tenant: string): Option<Quota>
      reads this, quotas.Values
    {
      if tenant in quotas then Some(quotas[tenant].Figures()) else None
    }

    /** Charges the tenant's quota, and only that, whether or not a plan comes of it. */
    method PlanChatCompletion(q: ChatRequest) returns (r: Result<Plan, Error>)
      modifies if q.tenant in quotas then {quotas[q.tenant]} else {}
      ensures (Figures(q.tenant), r) == PlanChat(setup, Rows(artifacts), old(Figures(q.tenant)), q)
    {
      var tokens := EstimatedTokens(q);
      var quota := None;
      if q.tenant in quotas {
        var ok := quotas[q.tenant].Consume(tokens);
        if !ok {
          return Err(QuotaExceeded);
        }
        quota := Some(quotas[q.tenant].Figures());
      }
      var pool := SelectPool(setup, q.tier);
      if pool.Err? {
        return Err(pool.error);
      }
      var route := SelectServingRoute(Context(q), Serving(setup, Rows(artifacts), q));
      if setup.defaultBackend(q.tier) == None {
        return Err(UnknownTier(q.tier));
      }
      r := Ok(Plan(pool.value.id, pool.value.backend, route.model, route.adapters, q.stream,
        q.hasFormat || q.tools != [], tokens, quota));
    }

    /** Replaces every artifact with the same id by the new one, at the end. */
    method HotSwapAdapter(artifact: ModelArtifact) returns (r: Result<(), Error>)
      modifies this`artifacts
      ensures r.Ok? <==> Swapped(Rows(old(artifacts)), artifact.Row()).Ok?
      ensures r.Ok? ==>
        && Rows(artifacts) == Swapped(Rows(old(artifacts)), artifact.Row()).value
        && artifacts[|artifacts| - 1] == artifact
      ensures r.Err? ==> artifacts == old(artifacts)
    {
      if artifact.kind !in {"tenant_adapter", "task_adapter", "policy_adapter", "quantized_checkpoint"} {
        return Err(NotAnAdapter);
      }
      OthersRows(artifacts, artifact.id);
      RowsLast(Others(artifacts, artifact.id), artifact);
      artifacts := Others(artifacts, artifact.id) + [artifact];
      r := Ok(());
    }

    method FindArtifact(id: string) returns (at: nat)
      ensures at == Find(Rows(artifacts), id)
    {
      at := 0;
      while at < |artifacts| && artifacts[at].id != id
        invariant at <= |artifacts| && forall i :: 0 <= i < at ==> artifacts[i].id != id
      {
        at := at + 1;
      }
    }

    /** Retires one listed object and restores another, or the same one. */
    method Switch(retired: ModelArtifact, restored: ModelArtifact)
      modifies retired, restored
      ensures forall a: ModelArtifact :: allocated(a) && old(allocated(a)) ==>
        a.Row() == Switched(old(a.Row()), a == retired, a == restored)
    {
      retired.SetState(Retired);
      restored.SetState(Production);
    }

    method SwitchPlaces(i: nat, j: nat)
      requires i < |artifacts| && j < |artifacts|
      modifies artifacts[i], artifacts[j]
      ensures Unshared(artifacts) ==> Rows(artifacts) == SwitchedAt(old(Rows(artifacts)), i, j)
      ensures forall k :: 0 <= k < |artifacts| ==>
        artifacts[k].Row() ==
          Switched(old(artifacts[k].Row()), artifacts[k] == artifacts[i], artifacts[k] == artifacts[j])
    {
      ghost var before := Rows(artifacts);
      Switch(artifacts[i], artifacts[j]);
      SwitchedRows(artifacts, before, Rows(artifacts), i, j);
    }

    method FindBoth(current: string, back: string) returns (r: Result<(nat, nat), Error>)
      ensures r == Places(Rows(artifacts), current, back)
    {
      var i := FindArtifact(current);
      if i == |artifacts| {
        return Err(UnknownArtifact(current));
      }
      var j := FindArtifact(back);
      if j == |artifacts| {
        return Err(UnknownArtifact(back));
      }
      r := Ok((i, j));
    }

    /** Retires the current artifact and puts the earlier one into production, in place, or changes nothing. */
    method RollbackAdapter(current: string, back: string) returns (r: Result<(), Error>)
      modifies artifacts
      ensures artifacts == old(artifacts)
      ensures match Places(old(Rows(artifacts)), current, back)
        case Err(e) => r == Err(e) && Rows(artifacts) == old(Rows(artifacts))
        case Ok(places) =>
          && r == Ok(())
          && (Unshared(artifacts) ==> Rows(artifacts) == SwitchedAt(old(Rows(artifacts)), places.0, places.1))
          && (forall k :: 0 <= k < |artifacts| ==>
                artifacts[k].Row() == old(artifacts[k].Row()).(state :=
                  if artifacts[k] == artifacts[places.1] then Production
                  else if artifacts[k] == artifacts[places.0] then Retired
                  else old(artifacts[k].state)))
    {
      var places := FindBoth(current, back);
      if places.Err? {
        return Err(places.error);
      }
      SwitchPlaces(places.value.0, places.value.1);
      r := Ok(());
    }
  }
}
