/** The rollback pointers below an alias form a stack: promotion pushes, rollback pops. */
module CatalogStack {
  import opened Values
  import opened Promotion
  import opened ModelCatalog

  /** chain lists the ids reached from start by following rollback pointers until one is missing. */
  ghost predicate ChainFrom(arts: map<string, Artifact>, start: Option<string>, chain: seq<string>)
    decreases |chain|
  {
    if chain == [] then Missing(start)
    else
      && start == Some(chain[0]) && chain[0] != "" && chain[0] in arts
      && ChainFrom(arts, arts[chain[0]].rollbackTo, chain[1..])
  }

  function Head(c: Catalog, alias: string): Option<string> {
    if alias in c.aliases then Some(c.aliases[alias].target) else None
  }

  /** The stack of an alias, top first. */
  ghost predicate Stack(c: Catalog, alias: string, chain: seq<string>) {
    ChainFrom(c.artifacts, Head(c, alias), chain)
  }

  lemma {:induction false} ChainIsUnique(
      arts: map<string, Artifact>, start: Option<string>, a: seq<string>, b: seq<string>)
    requires ChainFrom(arts, start, a) && ChainFrom(arts, start, b)
    ensures a == b
    decreases |a|
  {
    if a != [] && b != [] {
      ChainIsUnique(arts, arts[a[0]].rollbackTo, a[1..], b[1..]);
      assert a == [a[0]] + a[1..] && b == [b[0]] + b[1..];
    }
  }

  lemma {:induction false} SuffixIsChain(arts: map<string, Artifact>, start: Option<string>, chain: seq<string>, i: nat)
    requires ChainFrom(arts, start, chain) && i < |chain|
    ensures chain[i] in arts && chain[i] != ""
    ensures ChainFrom(arts, Some(chain[i]), chain[i..])
    decreases |chain|
  {
    if i > 0 {
      SuffixIsChain(arts, arts[chain[0]].rollbackTo, chain[1..], i - 1);
      assert chain[1..][i - 1..] == chain[i..];
    }
  }

  /** A chain that ends has no repetition: it is acyclic. */
  lemma ChainIsAcyclic(arts: map<string, Artifact>, start: Option<string>, chain: seq<string>)
    requires ChainFrom(arts, start, chain)
    ensures forall i, j :: 0 <= i < j < |chain| ==> chain[i] != chain[j]
  {
    forall i, j | 0 <= i < j < |chain| ensures chain[i] != chain[j] {
      SuffixIsChain(arts, start, chain, i);
      SuffixIsChain(arts, start, chain, j);
      if chain[i] == chain[j] {
        ChainIsUnique(arts, Some(chain[i]), chain[i..], chain[j..]);
        assert false;
      }
    }
  }

  /** A chain depends only on the pointers of its own members. */
  lemma {:induction false} ChainFrame(
      a: map<string, Artifact>, b: map<string, Artifact>, start: Option<string>, chain: seq<string>)
    requires ChainFrom(a, start, chain)
    requires forall id :: id in chain && id in a ==> id in b && b[id].rollbackTo == a[id].rollbackTo
    ensures ChainFrom(b, start, chain)
    decreases |chain|
  {
    if chain != [] {
      assert forall id :: id in chain[1..] ==> id in chain;
      ChainFrame(a, b, a[chain[0]].rollbackTo, chain[1..]);
    }
  }

  /** A chain in full: it starts where it is said to, every member is registered and points at the next, and the last
      one points nowhere. */
  lemma {:induction false} ChainInFull(arts: map<string, Artifact>, start: Option<string>, chain: seq<string>)
    ensures ChainFrom(arts, start, chain) <==>
      && (chain == [] ==> start in {None, Some("")})
      && (chain != [] ==> start == Some(chain[0]))
      && (forall i :: 0 <= i < |chain| ==> chain[i] != "" && chain[i] in arts)
      && (forall i :: 0 <= i < |chain| - 1 ==> arts[chain[i]].rollbackTo == Some(chain[i + 1]))
      && (chain != [] ==> arts[chain[|chain| - 1]].rollbackTo in {None, Some("")})
    decreases |chain|
  {
    if chain != [] && chain[0] in arts {
      var rest := chain[1..];
      ChainInFull(arts, arts[chain[0]].rollbackTo, rest);
      assert forall i :: 0 <= i < |rest| ==> rest[i] == chain[i + 1];
      assert forall i :: 1 <= i < |chain| ==> chain[i] == rest[i - 1];
    }
  }

  /** The stack of an alias in full: empty without a row, and otherwise the target of the row, what that points at, and
      so on to an artifact that points nowhere. */
  lemma StackInFull(c: Catalog, alias: string, chain: seq<string>)
    ensures alias !in c.aliases ==> (Stack(c, alias, chain) <==> chain == [])
    ensures alias in c.aliases && c.aliases[alias].target != "" ==> (Stack(c, alias, chain) <==>
      && chain != [] && chain[0] == c.aliases[alias].target
      && (forall i :: 0 <= i < |chain| ==> chain[i] != "" && chain[i] in c.artifacts)
      && (forall i :: 0 <= i < |chain| - 1 ==> c.artifacts[chain[i]].rollbackTo == Some(chain[i + 1]))
      && c.artifacts[chain[|chain| - 1]].rollbackTo in {None, Some("")})
  {
    ChainInFull(c.artifacts, Head(c, alias), chain);
  }

  // ---- single steps ----

  lemma PointersAfterPromoting(c: Catalog, p: PromoteArgs, rec: map<string, Value>)
    requires p.id in c.artifacts
    ensures var c' := Promoting(c, p, rec);
      && c'.policy == c.policy && c'.artifacts.Keys == c.artifacts.Keys
      && c'.artifacts[p.id].rollbackTo == PreviousFor(c, p.id, p.alias)
      && (forall id :: id in c.artifacts && id != p.id ==> c'.artifacts[id].rollbackTo == c.artifacts[id].rollbackTo)
      && c'.aliases == c.aliases[p.alias :=
        AliasRow(p.alias, p.id, PreviousFor(c, p.id, p.alias), DecidedState(p.gate.decision))]
  {
  }

  /** Promoting an artifact that is not on the stack pushes it. */
  lemma {:induction false} PromotionPushes(c: Catalog, p: PromoteArgs, chain: seq<string>)
    requires Stack(c, p.alias, chain) && p.id !in chain && p.id != "" && CheckPromotion(c, p).Ok?
    ensures AfterPromote(c, p).Ok? && Stack(AfterPromote(c, p).value, p.alias, [p.id] + chain)
  {
    var c' := Promoting(c, p, CheckPromotion(c, p).value);
    PointersAfterPromoting(c, p, CheckPromotion(c, p).value);
    forall id | id in chain && id in c.artifacts
      ensures id in c'.artifacts && c'.artifacts[id].rollbackTo == c.artifacts[id].rollbackTo
    {
    }
    ChainFrame(c.artifacts, c'.artifacts, Head(c, p.alias), chain);
    assert ([p.id] + chain)[1..] == chain;
  }

  /** Promoting the head again leaves the stack alone, if its row still records the pointer of the head. */
  lemma {:induction false} RePromotionKeeps(c: Catalog, p: PromoteArgs, chain: seq<string>)
    requires Stack(c, p.alias, chain) && chain != [] && p.id == chain[0] && CheckPromotion(c, p).Ok?
    requires c.aliases[p.alias].previous == c.artifacts[p.id].rollbackTo
    ensures AfterPromote(c, p).Ok? && Stack(AfterPromote(c, p).value, p.alias, chain)
  {
    var c' := Promoting(c, p, CheckPromotion(c, p).value);
    PointersAfterPromoting(c, p, CheckPromotion(c, p).value);
    ChainFrame(c.artifacts, c'.artifacts, Head(c, p.alias), chain);
  }

  lemma PointersAfterRollback(c: Catalog, alias: string)
    requires AfterRollback(c, alias).Ok?
    ensures var c' := AfterRollback(c, alias).value; var current := c.aliases[alias].target;
      && c'.policy == c.policy && c'.artifacts.Keys == c.artifacts.Keys
      && (forall id :: id in c.artifacts ==> c'.artifacts[id].rollbackTo == c.artifacts[id].rollbackTo)
      && c'.aliases == c.aliases[alias :=
        AliasRow(alias, c.artifacts[current].rollbackTo.value, Some(current), Production)]
  {
  }

  /** Rolling back pops the stack; with one artifact left, or none, it is refused. */
  lemma RollbackPops(c: Catalog, alias: string, chain: seq<string>)
    requires Stack(c, alias, chain) && alias in c.aliases && chain != []
    ensures |chain| == 1 ==> AfterRollback(c, alias) == Err(NoRollbackTarget)
    ensures |chain| > 1 ==> AfterRollback(c, alias).Ok? && Stack(AfterRollback(c, alias).value, alias, chain[1..])
  {
    assert ChainFrom(c.artifacts, c.artifacts[chain[0]].rollbackTo, chain[1..]);
    if |chain| > 1 {
      assert chain[1..][0] == chain[1];
      var c' := AfterRollback(c, alias).value;
      PointersAfterRollback(c, alias);
      ChainFrame(c.artifacts, c'.artifacts, Some(chain[1]), chain[1..]);
    }
  }

  // ---- n promotions, then k rollbacks ----

  function PromoteAll(c: Catalog, ps: seq<PromoteArgs>): Result<Catalog, Error> {
    if ps == [] then Ok(c)
    else
      match PromoteAll(c, ps[..|ps| - 1])
      case Err(e) => Err(e)
      case Ok(c') => AfterPromote(c', ps[|ps| - 1])
  }

  function RollbackTimes(c: Catalog, alias: string, k: nat): Result<Catalog, Error> {
    if k == 0 then Ok(c)
    else
      match RollbackTimes(c, alias, k - 1)
      case Err(e) => Err(e)
      case Ok(c') => AfterRollback(c', alias)
  }

  /** Ids of the promotions, last first. */
  function NewestFirst(ps: seq<PromoteArgs>): seq<string> {
    if ps == [] then [] else [ps[|ps| - 1].id] + NewestFirst(ps[..|ps| - 1])
  }

  lemma {:induction false} NewestFirstAt(ps: seq<PromoteArgs>, i: nat)
    requires i < |ps|
    ensures |NewestFirst(ps)| == |ps| && NewestFirst(ps)[i] == ps[|ps| - 1 - i].id
  {
    if |ps| > 1 {
      var rest := ps[..|ps| - 1];
      NewestFirstAt(rest, if i > 0 then i - 1 else 0);
    }
  }

  /** Promotions of distinct artifacts under one alias, each of which would pass its checks. */
  ghost predicate DistinctPromotions(c: Catalog, alias: string, ps: seq<PromoteArgs>) {
    && (forall i :: 0 <= i < |ps| ==> ps[i].alias == alias && ps[i].id != "" && CheckPromotion(c, ps[i]).Ok?)
    && (forall i, j :: 0 <= i < j < |ps| ==> ps[i].id != ps[j].id)
  }

  lemma {:induction false} NotAmong(ps: seq<PromoteArgs>, id: string)
    requires forall i :: 0 <= i < |ps| ==> ps[i].id != id
    ensures id !in NewestFirst(ps)
  {
    if ps != [] {
      NotAmong(ps[..|ps| - 1], id);
    }
  }

  lemma {:induction false} LastIsNew(c: Catalog, alias: string, ps: seq<PromoteArgs>)
    requires DistinctPromotions(c, alias, ps) && ps != []
    ensures DistinctPromotions(c, alias, ps[..|ps| - 1])
    ensures var p := ps[|ps| - 1];
      p.alias == alias && p.id != "" && CheckPromotion(c, p).Ok? && p.id !in NewestFirst(ps[..|ps| - 1])
  {
    NotAmong(ps[..|ps| - 1], ps[|ps| - 1].id);
  }

  /** One more promotion on top of those already pushed. */
  lemma {:induction false} PushNext(c: Catalog, p: PromoteArgs, chain: seq<string>)
    requires Stack(c, p.alias, chain) && p.id !in chain && p.id != "" && CheckPromotion(c, p).Ok?
    ensures AfterPromote(c, p).Ok? && AfterPromote(c, p).value.artifacts.Keys == c.artifacts.Keys
    ensures AfterPromote(c, p).value.policy == c.policy
    ensures Stack(AfterPromote(c, p).value, p.alias, [p.id] + chain)
  {
    PromotionPushes(c, p, chain);
    PointersAfterPromoting(c, p, CheckPromotion(c, p).value);
  }

  lemma {:induction false} PromotionsPush(c: Catalog, alias: string, ps: seq<PromoteArgs>)
    requires alias !in c.aliases && DistinctPromotions(c, alias, ps)
    ensures PromoteAll(c, ps).Ok?
    ensures PromoteAll(c, ps).value.artifacts.Keys == c.artifacts.Keys && PromoteAll(c, ps).value.policy == c.policy
    ensures Stack(PromoteAll(c, ps).value, alias, NewestFirst(ps))
  {
    if ps != [] {
      var rest, p := ps[..|ps| - 1], ps[|ps| - 1];
      LastIsNew(c, alias, ps);
      PromotionsPush(c, alias, rest);
      var c' := PromoteAll(c, rest).value;
      ChecksReadOnlyMembership(c, c', p);
      PushNext(c', p, NewestFirst(rest));
    }
  }

  lemma {:induction false} RollbacksPop(c: Catalog, alias: string, chain: seq<string>, k: nat)
    requires Stack(c, alias, chain) && alias in c.aliases && k < |chain|
    ensures RollbackTimes(c, alias, k).Ok?
    ensures Stack(RollbackTimes(c, alias, k).value, alias, chain[k..])
      && alias in RollbackTimes(c, alias, k).value.aliases
  {
    if k > 0 {
      RollbacksPop(c, alias, chain, k - 1);
      var c' := RollbackTimes(c, alias, k - 1).value;
      RollbackPops(c', alias, chain[k - 1..]);
      assert chain[k - 1..][1..] == chain[k..];
    }
  }

  /** Main result: n promotions of distinct artifacts, then k < n rollbacks, leave the alias on the (n-k)-th; the n-th
      rollback is refused. */
  lemma {:induction false} PromotionsThenRollbacks(c: Catalog, alias: string, ps: seq<PromoteArgs>, k: nat)
    requires alias !in c.aliases && DistinctPromotions(c, alias, ps) && k < |ps|
    ensures PromoteAll(c, ps).Ok?
    ensures RollbackTimes(PromoteAll(c, ps).value, alias, k).Ok?
    ensures var after := RollbackTimes(PromoteAll(c, ps).value, alias, k).value;
      && alias in after.aliases && after.aliases[alias].target == ps[|ps| - 1 - k].id
      && after.aliases[alias].target in after.artifacts
      && (k > 0 ==> after.artifacts[after.aliases[alias].target].state == Production)
    ensures RollbackTimes(PromoteAll(c, ps).value, alias, |ps|) == Err(NoRollbackTarget)
  {
    PromotionsPush(c, alias, ps);
    NewestFirstAt(ps, k);
    StackTop(PromoteAll(c, ps).value, alias, NewestFirst(ps));
    RollbacksLand(PromoteAll(c, ps).value, alias, NewestFirst(ps), k);
    if k > 0 {
      RollbackRestores(PromoteAll(c, ps).value, alias, k);
    }
  }

  /** What a rollback lands on is in production. */
  lemma RollbackRestores(c: Catalog, alias: string, k: nat)
    requires k > 0
    ensures RollbackTimes(c, alias, k).Ok? ==>
      var after := RollbackTimes(c, alias, k).value;
      && alias in after.aliases && after.aliases[alias].target in after.artifacts
      && after.artifacts[after.aliases[alias].target].state == Production
  {
  }

  lemma {:induction false} RollbacksLand(c: Catalog, alias: string, chain: seq<string>, k: nat)
    requires Stack(c, alias, chain) && alias in c.aliases && k < |chain|
    ensures RollbackTimes(c, alias, k).Ok? && Head(RollbackTimes(c, alias, k).value, alias) == Some(chain[k])
    ensures RollbackTimes(c, alias, |chain|) == Err(NoRollbackTarget)
  {
    RollbacksPop(c, alias, chain, k);
    StackTop(RollbackTimes(c, alias, k).value, alias, chain[k..]);
    RollbacksRunOut(c, alias, chain);
  }

  lemma StackTop(c: Catalog, alias: string, chain: seq<string>)
    requires Stack(c, alias, chain) && chain != []
    ensures alias in c.aliases && Head(c, alias) == Some(chain[0])
  {
  }

  lemma {:induction false} RollbacksRunOut(c: Catalog, alias: string, chain: seq<string>)
    requires Stack(c, alias, chain) && alias in c.aliases && chain != []
    ensures RollbackTimes(c, alias, |chain|) == Err(NoRollbackTarget)
  {
    var n := |chain| - 1;
    RollbacksPop(c, alias, chain, n);
    RollbackPops(RollbackTimes(c, alias, n).value, alias, chain[n..]);
  }

  // ---- when the stack stays a stack ----

  /** How the row of an alias was last written: by a promotion, or by a rollback that popped what it records. */
  ghost predicate RowWrittenByPromotion(c: Catalog, alias: string) {
    alias in c.aliases && c.aliases[alias].target in c.artifacts
    && c.aliases[alias].previous == c.artifacts[c.aliases[alias].target].rollbackTo
  }

  ghost predicate RowWrittenByRollback(c: Catalog, alias: string) {
    && alias in c.aliases && c.aliases[alias].previous.Some? && c.aliases[alias].previous.value in c.artifacts
    && c.aliases[alias].previous.value != ""
    && c.artifacts[c.aliases[alias].previous.value].rollbackTo == Some(c.aliases[alias].target)
  }

  /** The alias has a stack, and its row is one of the two kinds. */
  ghost predicate Sound(c: Catalog, alias: string, chain: seq<string>) {
    && Stack(c, alias, chain)
    && (alias in c.aliases ==> chain != [] && (RowWrittenByPromotion(c, alias) || RowWrittenByRollback(c, alias)))
  }

  /** A loop of pointers never ends: no chain starts inside it. */
  lemma {:induction false} NoChainThroughLoop(
      arts: map<string, Artifact>, start: Option<string>, loop: seq<string>, chain: seq<string>)
    requires loop != [] && start == Some(loop[0])
    requires forall i :: 0 <= i < |loop| ==> loop[i] in arts && loop[i] != ""
    requires forall i :: 0 <= i < |loop| - 1 ==> arts[loop[i]].rollbackTo == Some(loop[i + 1])
    requires arts[loop[|loop| - 1]].rollbackTo == Some(loop[0])
    ensures !ChainFrom(arts, start, chain)
    decreases |chain|
  {
    if chain != [] && chain[0] == loop[0] {
      var turned := loop[1..] + [loop[0]];
      NoChainThroughLoop(arts, arts[loop[0]].rollbackTo, turned, chain[1..]);
    }
  }

  lemma {:induction false} ChainPointers(arts: map<string, Artifact>, start: Option<string>, chain: seq<string>)
    requires ChainFrom(arts, start, chain)
    ensures forall i :: 0 <= i < |chain| ==> chain[i] in arts && chain[i] != ""
    ensures forall i :: 0 <= i < |chain| - 1 ==> arts[chain[i]].rollbackTo == Some(chain[i + 1])
    decreases |chain|
  {
    if chain != [] {
      ChainPointers(arts, arts[chain[0]].rollbackTo, chain[1..]);
      forall i | 0 <= i < |chain| ensures chain[i] in arts && chain[i] != "" {
        if i > 0 {
          assert chain[i] == chain[1..][i - 1];
        }
      }
      forall i | 0 <= i < |chain| - 1 ensures arts[chain[i]].rollbackTo == Some(chain[i + 1]) {
        if i > 0 {
          assert chain[i] == chain[1..][i - 1] && chain[i + 1] == chain[1..][i];
        } else {
          assert chain[1..][0] == chain[1];
        }
      }
    }
  }

  /** Promoting an artifact from further down the stack closes a loop. */
  lemma {:induction false} DeepPromotionLoops(c: Catalog, p: PromoteArgs, chain: seq<string>, at: nat, any: seq<string>)
    requires Stack(c, p.alias, chain) && 0 < at < |chain| && p.id == chain[at] && CheckPromotion(c, p).Ok?
    ensures !Stack(AfterPromote(c, p).value, p.alias, any)
  {
    var c' := Promoting(c, p, CheckPromotion(c, p).value);
    PointersAfterPromoting(c, p, CheckPromotion(c, p).value);
    ChainIsAcyclic(c.artifacts, Head(c, p.alias), chain);
    ChainPointers(c.artifacts, Head(c, p.alias), chain);
    var loop := [p.id] + chain[..at];
    forall i | 0 <= i < |loop| - 1 ensures c'.artifacts[loop[i]].rollbackTo == Some(loop[i + 1]) {
      if i > 0 {
        assert loop[i] == chain[i - 1] && loop[i + 1] == chain[i];
      }
    }
    assert loop[|loop| - 1] == chain[at - 1];
    NoChainThroughLoop(c'.artifacts, Some(p.id), loop, any);
  }

  /** Promoting the head again after a rollback makes the artifact just rolled back its own rollback target: a loop. */
  lemma {:induction false} RePromotionAfterRollbackLoops(
      c: Catalog, p: PromoteArgs, chain: seq<string>, any: seq<string>)
    requires Stack(c, p.alias, chain) && chain != [] && p.id == chain[0] && CheckPromotion(c, p).Ok?
    requires RowWrittenByRollback(c, p.alias)
    ensures !Stack(AfterPromote(c, p).value, p.alias, any)
  {
    var c' := Promoting(c, p, CheckPromotion(c, p).value);
    PointersAfterPromoting(c, p, CheckPromotion(c, p).value);
    var popped := c.aliases[p.alias].previous.value;
    if popped == p.id {
      NoChainThroughLoop(c'.artifacts, Some(p.id), [p.id], any);
    } else {
      NoChainThroughLoop(c'.artifacts, Some(p.id), [p.id, popped], any);
    }
  }

  /** Main result: after a promotion that passes, the pointers below the alias still form a finite acyclic stack if and
      only if the artifact was not on the stack, or was its head with a row written by a promotion. */
  lemma {:induction false} StaysAStackExactly(c: Catalog, p: PromoteArgs, chain: seq<string>)
    requires Sound(c, p.alias, chain) && p.id != "" && CheckPromotion(c, p).Ok?
    ensures (exists after :: Stack(AfterPromote(c, p).value, p.alias, after))
       <==> p.id !in chain || (p.id == chain[0] && c.aliases[p.alias].previous == c.artifacts[p.id].rollbackTo)
  {
    if p.id !in chain {
      PromotionPushes(c, p, chain);
    } else if p.id == chain[0] && RowWrittenByPromotion(c, p.alias) {
      RePromotionKeeps(c, p, chain);
    } else if p.id == chain[0] {
      forall any ensures !Stack(AfterPromote(c, p).value, p.alias, any) {
        RePromotionAfterRollbackLoops(c, p, chain, any);
      }
    } else {
      var at :| 0 <= at < |chain| && chain[at] == p.id;
      forall any ensures !Stack(AfterPromote(c, p).value, p.alias, any) {
        DeepPromotionLoops(c, p, chain, at, any);
      }
    }
  }

  // ---- whole runs, many aliases ----

  /** Each artifact is promoted under the alias that owns it, and the promotion keeps the stack. */
  ghost predicate Careful(c: Catalog, op: Op, owner: map<string, string>) {
    match op
    case DoRegister(a) => a.id !in c.artifacts && a.rollbackTo == None
    case DoPromote(p) =>
      && p.id != "" && p.id in owner && owner[p.id] == p.alias
      && forall chain :: Stack(c, p.alias, chain) ==>
           p.id !in chain || (p.id == chain[0] && RowWrittenByPromotion(c, p.alias))
    case DoRollback(_) => true
    case DoRetire(_) => true
  }

  ghost predicate CarefulRun(c: Catalog, ops: seq<Op>, owner: map<string, string>)
    decreases |ops|
  {
    ops == [] || (CarefulRun(c, ops[..|ops| - 1], owner) && Careful(Run(c, ops[..|ops| - 1]), ops[|ops| - 1], owner))
  }

  /** chain is the stack of alias, made of artifacts the alias owns. */
  ghost predicate OwnedStack(c: Catalog, alias: string, chain: seq<string>, owner: map<string, string>) {
    && Sound(c, alias, chain)
    && (forall id :: id in chain ==> id in owner && owner[id] == alias)
    && (alias in c.aliases && c.aliases[alias].previous.Some? ==>
          c.aliases[alias].previous.value in owner && owner[c.aliases[alias].previous.value] == alias)
  }

  ghost predicate HasStack(c: Catalog, alias: string, owner: map<string, string>) {
    exists chain :: OwnedStack(c, alias, chain, owner)
  }

  ghost predicate AllStacks(c: Catalog, owner: map<string, string>) {
    forall alias :: HasStack(c, alias, owner)
  }

  /** Pointers kept for everything alias owns, and its row kept: the stack of alias is kept. */
  lemma OwnedStackFrame(c: Catalog, c': Catalog, alias: string, chain: seq<string>, owner: map<string, string>)
    requires OwnedStack(c, alias, chain, owner)
    requires forall id :: id in c.artifacts ==> id in c'.artifacts
    requires forall id :: id in c.artifacts && id in owner && owner[id] == alias ==>
      c'.artifacts[id].rollbackTo == c.artifacts[id].rollbackTo
    requires Lookup(c'.aliases, alias) == Lookup(c.aliases, alias)
    ensures OwnedStack(c', alias, chain, owner)
  {
    ChainFrame(c.artifacts, c'.artifacts, Head(c, alias), chain);
    if alias in c.aliases {
      assert c.aliases[alias].target == chain[0];
    }
  }

  lemma NoAliasNoStack(c: Catalog, alias: string, owner: map<string, string>)
    requires alias !in c.aliases
    ensures OwnedStack(c, alias, [], owner)
  {
  }

  lemma {:induction false} PromoteKeepsOwn(c: Catalog, p: PromoteArgs, chain: seq<string>, owner: map<string, string>)
    returns (chain': seq<string>)
    requires OwnedStack(c, p.alias, chain, owner) && Careful(c, DoPromote(p), owner) && CheckPromotion(c, p).Ok?
    ensures OwnedStack(AfterPromote(c, p).value, p.alias, chain', owner)
  {
    PointersAfterPromoting(c, p, CheckPromotion(c, p).value);
    if p.id !in chain {
      PromotionPushes(c, p, chain);
      chain' := [p.id] + chain;
    } else {
      RePromotionKeeps(c, p, chain);
      chain' := chain;
    }
  }

  lemma RollbackKeepsOwn(c: Catalog, alias: string, chain: seq<string>, owner: map<string, string>)
    requires OwnedStack(c, alias, chain, owner) && AfterRollback(c, alias).Ok?
    ensures |chain| > 1 && OwnedStack(AfterRollback(c, alias).value, alias, chain[1..], owner)
  {
    RollbackPops(c, alias, chain);
    PointersAfterRollback(c, alias);
  }

  lemma {:induction false} PromoteKeepsStack(c: Catalog, p: PromoteArgs, alias: string, owner: map<string, string>)
    requires HasStack(c, alias, owner) && Careful(c, DoPromote(p), owner) && CheckPromotion(c, p).Ok?
    ensures HasStack(AfterPromote(c, p).value, alias, owner)
  {
    var chain :| OwnedStack(c, alias, chain, owner);
    if p.alias == alias {
      var chain' := PromoteKeepsOwn(c, p, chain, owner);
    } else {
      PointersAfterPromoting(c, p, CheckPromotion(c, p).value);
      OwnedStackFrame(c, AfterPromote(c, p).value, alias, chain, owner);
    }
  }

  lemma RollbackKeepsStack(c: Catalog, a: string, alias: string, owner: map<string, string>)
    requires HasStack(c, alias, owner) && AfterRollback(c, a).Ok?
    ensures HasStack(AfterRollback(c, a).value, alias, owner)
  {
    var chain :| OwnedStack(c, alias, chain, owner);
    if a == alias {
      RollbackKeepsOwn(c, alias, chain, owner);
    } else {
      PointersAfterRollback(c, a);
      OwnedStackFrame(c, AfterRollback(c, a).value, alias, chain, owner);
    }
  }

  lemma RetireKeepsStack(c: Catalog, id: string, alias: string, owner: map<string, string>)
    requires HasStack(c, alias, owner) && AfterRetire(c, id).Ok?
    ensures HasStack(AfterRetire(c, id).value, alias, owner)
  {
    var chain :| OwnedStack(c, alias, chain, owner);
    var c' := AfterRetire(c, id).value;
    if alias in c'.aliases {
      OwnedStackFrame(c, c', alias, chain, owner);
    } else {
      NoAliasNoStack(c', alias, owner);
    }
  }

  lemma RegisterKeepsStack(c: Catalog, a: Artifact, alias: string, owner: map<string, string>)
    requires HasStack(c, alias, owner) && a.id !in c.artifacts
    ensures HasStack(AfterRegister(c, a), alias, owner)
  {
    var chain :| OwnedStack(c, alias, chain, owner);
    OwnedStackFrame(c, AfterRegister(c, a), alias, chain, owner);
  }

  lemma StepKeepsStacks(c: Catalog, op: Op, owner: map<string, string>)
    requires AllStacks(c, owner) && Careful(c, op, owner)
    ensures AllStacks(Step(c, op), owner)
  {
    forall alias ensures HasStack(Step(c, op), alias, owner) {
      assert HasStack(c, alias, owner);
      match op
      case DoRegister(a) => RegisterKeepsStack(c, a, alias, owner);
      case DoPromote(p) =>
        if CheckPromotion(c, p).Ok? {
          PromoteKeepsStack(c, p, alias, owner);
        }
      case DoRollback(a) =>
        if AfterRollback(c, a).Ok? {
          RollbackKeepsStack(c, a, alias, owner);
        }
      case DoRetire(id) =>
        if AfterRetire(c, id).Ok? {
          RetireKeepsStack(c, id, alias, owner);
        }
    }
  }

  lemma {:induction false} RunKeepsOwnedStacks(c: Catalog, ops: seq<Op>, owner: map<string, string>)
    requires AllStacks(c, owner) && CarefulRun(c, ops, owner)
    ensures AllStacks(Run(c, ops), owner)
    decreases |ops|
  {
    if ops != [] {
      RunKeepsOwnedStacks(c, ops[..|ops| - 1], owner);
      StepKeepsStacks(Run(c, ops[..|ops| - 1]), ops[|ops| - 1], owner);
    }
  }

  /** Main result: over every careful run, every alias has a finite acyclic stack of its own artifacts, and an alias
      with a row has a stack that is not empty. */
  lemma RunKeepsStacks(c: Catalog, ops: seq<Op>, owner: map<string, string>, c': Catalog, alias: string)
    returns (chain: seq<string>)
    requires AllStacks(c, owner) && CarefulRun(c, ops, owner) && c' == Run(c, ops)
    ensures AllStacks(c', owner)
    ensures Stack(c', alias, chain) && (chain == [] <==> alias !in c'.aliases)
    ensures forall id :: id in chain ==> id in owner && owner[id] == alias
  {
    RunKeepsOwnedStacks(c, ops, owner);
    assert HasStack(c', alias, owner);
    chain :| OwnedStack(c', alias, chain, owner);
  }

  lemma EmptyHasStacks(policy: Policy, owner: map<string, string>)
    ensures AllStacks(Empty(policy), owner)
  {
    forall alias ensures HasStack(Empty(policy), alias, owner) {
      NoAliasNoStack(Empty(policy), alias, owner);
    }
  }
}
