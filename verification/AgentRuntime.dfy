/** One agent call after another: the event log of a call, its replay, and memory versions across calls. */
module AgentRuntime {
  import opened Values

  datatype Tool = Tool(
    name: string, required: set<string>, properties: set<string>, closed: bool, roles: set<string>, protected: bool,
    risk: string)

  datatype User = User(id: string, tenant: string, roles: set<string>)

  /** Memory payloads appear through the first digits of their digest. */
  datatype Memory = Memory(digest: string)

  datatype Proposal = Proposal(content: string, tool: Option<string>, arguments: set<string>, memory: Option<Memory>)

  datatype Approval = Approval(approved: bool, approver: Option<string>)

  datatype Status = Completed | BlockedInvalidSchema | BlockedByPolicy | ApprovalRequired

  datatype Event =
    | ModelCall
    | AdapterSelected
    | SchemaValidated(valid: bool)
    | PolicyDecision(allowed: bool, needsApproval: bool)
    | ApprovalDecision(approved: bool)
    | ToolCall(tool: string)
    | MemoryProposed(record: Record)
    | EvalSignals(signals: Signals)
    | Feedback(successful: bool, toolRan: bool)
    | FinalOutput(status: Status)

  datatype Record = Record(key: string, version: nat, reviewed: bool, reviewer: Option<string>)

  datatype Signals = Signals(
    status: Status, schemaValidated: bool, policyEvaluated: bool, toolExecuted: bool, approvalRouteCorrect: bool)

  datatype Config = Config(tools: map<string, Tool>, allowlist: set<string>)

  datatype Call = Call(user: User, proposal: Proposal, approval: Option<Approval>)

  // ---- decisions ----

  predicate SchemaValid(tool: Option<Tool>, arguments: set<string>) {
    match tool
    case None => false
    case Some(t) => t.required <= arguments && (t.closed ==> arguments <= t.properties)
  }

  predicate RoleAllowed(t: Tool, user: User) { t.roles * user.roles != {} }

  predicate NeedsApproval(config: Config, t: Tool) {
    (t.protected || t.risk in {"high", "critical"}) && t.name !in config.allowlist
  }

  function Policy(config: Config, tool: Option<Tool>, user: User, valid: bool): Event {
    if tool == None || !valid then PolicyDecision(false, false)
    else PolicyDecision(RoleAllowed(tool.value, user), NeedsApproval(config, tool.value))
  }

  predicate IsApproved(approval: Option<Approval>) { approval.Some? && approval.value.approved }

  predicate HasTool(p: Proposal) { !Missing(p.tool) }

  /** The events of the tool part of a call, and its status. */
  function ToolPart(config: Config, c: Call): (seq<Event>, Status) {
    if !HasTool(c.proposal) then ([], Completed)
    else
      var name := c.proposal.tool.value;
      var tool := Lookup(config.tools, name);
      var valid := SchemaValid(tool, c.proposal.arguments);
      var policy := Policy(config, tool, c.user, valid);
      var checked := [SchemaValidated(valid), policy];
      if !valid then (checked, BlockedInvalidSchema)
      else if !policy.allowed then (checked, BlockedByPolicy)
      else if policy.needsApproval then
        if !IsApproved(c.approval) then (checked + [ApprovalDecision(false)], ApprovalRequired)
        else (checked + [ApprovalDecision(true), ToolCall(name)], Completed)
      else (checked + [ToolCall(name)], Completed)
  }

  /** The tool part of a call, case by case: no tool proposed; a tool that is unknown, lacks a required argument or, if
      closed, is given one it does not know; a user without any of the tool's roles; a protected or high-risk tool that
      is not on the allowlist, without and with an approval; any other tool. */
  lemma ToolPartInFull(config: Config, c: Call, name: string)
    ensures c.proposal.tool in {None, Some("")} ==> ToolPart(config, c) == ([], Completed)
    ensures c.proposal.tool == Some(name) && name != "" && name !in config.tools ==>
      ToolPart(config, c) == ([SchemaValidated(false), PolicyDecision(false, false)], BlockedInvalidSchema)
    ensures c.proposal.tool == Some(name) && name != "" && name in config.tools ==>
      var t := config.tools[name];
      var complete, known := t.required <= c.proposal.arguments, c.proposal.arguments <= t.properties;
      var asks := (t.protected || t.risk == "high" || t.risk == "critical") && t.name !in config.allowlist;
      if !complete || (t.closed && !known) then
        ToolPart(config, c) == ([SchemaValidated(false), PolicyDecision(false, false)], BlockedInvalidSchema)
      else if t.roles * c.user.roles == {} then
        ToolPart(config, c) == ([SchemaValidated(true), PolicyDecision(false, asks)], BlockedByPolicy)
      else if !asks then
        ToolPart(config, c) == ([SchemaValidated(true), PolicyDecision(true, false), ToolCall(name)], Completed)
      else if c.approval.Some? && c.approval.value.approved then
        ToolPart(config, c) ==
          ([SchemaValidated(true), PolicyDecision(true, true), ApprovalDecision(true), ToolCall(name)], Completed)
      else
        ToolPart(config, c) ==
          ([SchemaValidated(true), PolicyDecision(true, true), ApprovalDecision(false)], ApprovalRequired)
  {
    var passed, asking := [SchemaValidated(true), PolicyDecision(true, false)],
      [SchemaValidated(true), PolicyDecision(true, true)];
    assert passed + [ToolCall(name)] == [SchemaValidated(true), PolicyDecision(true, false), ToolCall(name)];
    assert asking + [ApprovalDecision(false)]
      == [SchemaValidated(true), PolicyDecision(true, true), ApprovalDecision(false)];
    assert asking + [ApprovalDecision(true), ToolCall(name)]
      == [SchemaValidated(true), PolicyDecision(true, true), ApprovalDecision(true), ToolCall(name)];
  }

  // ---- memory ----

  function MemoryKey(c: Call): string
    requires c.proposal.memory.Some?
  {
    c.user.tenant + ":" + c.proposal.memory.value.digest
  }

  function VersionOf(versions: map<string, nat>, key: string): nat {
    if key in versions then versions[key] else 0
  }

  function Proposed(versions: map<string, nat>, c: Call): Record
    requires c.proposal.memory.Some?
  {
    var key := MemoryKey(c);
    Record(key, VersionOf(versions, key) + 1, IsApproved(c.approval),
      if IsApproved(c.approval) then c.approval.value.approver else None)
  }

  function VersionsAfter(versions: map<string, nat>, c: Call): map<string, nat> {
    if c.proposal.memory == None then versions
    else versions[MemoryKey(c) := Proposed(versions, c).version]
  }

  // ---- the log of a call ----

  predicate Ran(events: seq<Event>) { exists i :: 0 <= i < |events| && events[i].ToolCall? }

  predicate PolicyLogged(events: seq<Event>) { exists i :: 0 <= i < |events| && events[i].PolicyDecision? }

  predicate SchemaLogged(events: seq<Event>) { exists i :: 0 <= i < |events| && events[i].SchemaValidated? }

  function SignalsOf(events: seq<Event>, status: Status): Signals {
    Signals(status, SchemaLogged(events), PolicyLogged(events), Ran(events),
      status != Completed || PolicyLogged(events) || !SchemaLogged(events))
  }

  /** Everything logged before the signals are collected. */
  function LogOf(config: Config, versions: map<string, nat>, c: Call): seq<Event> {
    [ModelCall, AdapterSelected] + ToolPart(config, c).0
    + (if c.proposal.memory.Some? then [MemoryProposed(Proposed(versions, c))] else [])
  }

  function EventsOf(config: Config, versions: map<string, nat>, c: Call): seq<Event> {
    var log, status := LogOf(config, versions, c), ToolPart(config, c).1;
    log + [EvalSignals(SignalsOf(log, status)), Feedback(status == Completed, Ran(log)), FinalOutput(status)]
  }

  class MeshOSAgentRuntime {
    const config: Config
    var memoryVersions: map<string, nat>

    constructor (config: Config)
      ensures this.config == config && memoryVersions == map[]
    {
      this.config, memoryVersions := config, map[];
    }

    method ProposeMemory(c: Call) returns (r: Record)
      requires c.proposal.memory.Some?
      modifies this
      ensures r == Proposed(old(memoryVersions), c) && memoryVersions == VersionsAfter(old(memoryVersions), c)
    {
      var key := c.user.tenant + ":" + c.proposal.memory.value.digest;
      var version := (if key in memoryVersions then memoryVersions[key] else 0) + 1;
      memoryVersions := memoryVersions[key := version];
      var reviewed := if c.approval.Some? then c.approval.value.approved else false;
      r := Record(key, version, reviewed, if reviewed then c.approval.value.approver else None);
    }

    /** Checks a proposed tool and runs it if it may, logging each step as it happens. */
    method RunTool(c: Call, before: seq<Event>) returns (events: seq<Event>, status: Status, toolRan: bool)
      ensures (events, status) == (before + ToolPart(config, c).0, ToolPart(config, c).1)
      ensures toolRan <==> Ran(ToolPart(config, c).0)
    {
      events, status, toolRan := before, Completed, false;
      assert before + [] == before && !Ran([]);
      if Missing(c.proposal.tool) {
        return;
      }
      var name := c.proposal.tool.value;
      var tool := Lookup(config.tools, name);
      var valid := SchemaValid(tool, c.proposal.arguments);
      events := events + [SchemaValidated(valid)];
      var policy := Policy(config, tool, c.user, valid);
      events := events + [policy];
      if !valid {
        status := BlockedInvalidSchema;
      } else if !policy.allowed {
        status := BlockedByPolicy;
      } else if policy.needsApproval {
        var approved := IsApproved(c.approval);
        events := events + [ApprovalDecision(approved)];
        if !approved {
          status := ApprovalRequired;
        } else {
          events, toolRan := events + [ToolCall(name)], true;
          assert ToolPart(config, c).0[3].ToolCall?;
        }
      } else {
        events, toolRan := events + [ToolCall(name)], true;
        assert ToolPart(config, c).0[2].ToolCall?;
      }
      assert events == before + ToolPart(config, c).0;
    }

    method Run(c: Call) returns (events: seq<Event>, status: Status, records: seq<Record>)
      modifies this
      ensures events == EventsOf(config, old(memoryVersions), c) && status == ToolPart(config, c).1
      ensures records == if c.proposal.memory.Some? then [Proposed(old(memoryVersions), c)] else []
      ensures memoryVersions == VersionsAfter(old(memoryVersions), c)
    {
      var toolRan;
      events, status, toolRan := RunTool(c, [ModelCall, AdapterSelected]);
      records := [];
      if c.proposal.memory.Some? {
        var record := ProposeMemory(c);
        records := [record];
        events := events + [MemoryProposed(record)];
      }
      assert events == LogOf(config, old(memoryVersions), c);
      RanInToolPart(config, old(memoryVersions), c);
      events := events + [EvalSignals(SignalsOf(events, status))];
      events := events + [Feedback(status == Completed, toolRan)];
      events := events + [FinalOutput(status)];
    }
  }

  // ---- what a log proves ----

  lemma RanInToolPart(config: Config, versions: map<string, nat>, c: Call)
    ensures Ran(LogOf(config, versions, c)) <==> Ran(ToolPart(config, c).0)
  {
    var part, log := ToolPart(config, c).0, LogOf(config, versions, c);
    if Ran(part) {
      var i :| 0 <= i < |part| && part[i].ToolCall?;
      assert log[i + 2] == part[i];
    }
    if Ran(log) {
      var i :| 0 <= i < |log| && log[i].ToolCall?;
      assert part[i - 2] == log[i];
    }
  }

  /** May the proposed tool run? */
  predicate MayRun(config: Config, c: Call) {
    && HasTool(c.proposal) && c.proposal.tool.value in config.tools
    && var t := config.tools[c.proposal.tool.value];
      && t.required <= c.proposal.arguments && (t.closed ==> c.proposal.arguments <= t.properties)
      && t.roles * c.user.roles != {}
      && (NeedsApproval(config, t) ==> IsApproved(c.approval))
  }

  /** The tool call at a place comes right after the passed checks that permit it. */
  ghost predicate Permitted(config: Config, events: seq<Event>, i: int) {
    && 4 <= i < |events| && events[i].ToolCall? && events[i].tool in config.tools
    && var asks := NeedsApproval(config, config.tools[events[i].tool]);
      && (asks ==> i == 5 && events[4] == ApprovalDecision(true))
      && (!asks ==> i == 4)
      && events[2] == SchemaValidated(true) && events[3] == PolicyDecision(true, asks)
  }

  /** The tool part stands in the log after two events, and holds all its tool calls. */
  lemma PartStands(config: Config, versions: map<string, nat>, c: Call)
    ensures var events, part := EventsOf(config, versions, c), ToolPart(config, c).0;
      && |events| >= |part| + 5
      && (forall i :: 0 <= i < |part| ==> events[i + 2] == part[i])
      && (forall i :: 0 <= i < |events| && !(2 <= i < |part| + 2) ==>
        !events[i].ToolCall? && !events[i].PolicyDecision?)
  {
  }

  /** Where the tool call of a call stands in its tool part. */
  function CallPlace(config: Config, c: Call): nat
    requires HasTool(c.proposal) && c.proposal.tool.value in config.tools
  {
    if NeedsApproval(config, config.tools[c.proposal.tool.value]) then 3 else 2
  }

  lemma PartIsPermitted(config: Config, c: Call)
    ensures var part := ToolPart(config, c).0;
      && (MayRun(config, c) ==> CallPlace(config, c) < |part| && part[CallPlace(config, c)].ToolCall?)
      && (forall i :: 0 <= i < |part| && part[i].ToolCall? ==>
            && MayRun(config, c) && part[i].tool == c.proposal.tool.value && i == CallPlace(config, c)
            && part[0] == SchemaValidated(true) && part[1] == PolicyDecision(true, i == 3)
            && (i == 3 ==> part[2] == ApprovalDecision(true)))
  {
  }

  /** Main result on tools: a tool call is logged exactly when a tool is proposed and known, its arguments fit its
      schema, the user has one of its roles, and there is an approval if it is protected or of high or critical risk and
      not on the allowlist. There is at most one, it names the proposed tool, and the passed schema and policy events,
      and the approval if one was needed, stand right before it. */
  lemma {:induction false} ToolCallsArePermitted(
      config: Config, versions: map<string, nat>, c: Call, events: seq<Event>)
    requires events == EventsOf(config, versions, c)
    ensures (exists i :: 0 <= i < |events| && events[i].ToolCall?) <==>
      && c.proposal.tool !in {None, Some("")} && c.proposal.tool.value in config.tools
      && var t := config.tools[c.proposal.tool.value];
        && t.required <= c.proposal.arguments && (t.closed ==> c.proposal.arguments <= t.properties)
        && t.roles * c.user.roles != {}
        && ((t.protected || t.risk in {"high", "critical"}) && t.name !in config.allowlist ==>
              c.approval.Some? && c.approval.value.approved)
    ensures forall i :: 0 <= i < |events| && events[i].ToolCall? ==>
      && i >= 4 && c.proposal.tool == Some(events[i].tool) && events[i].tool in config.tools
      && events[2] == SchemaValidated(true)
      && var t := config.tools[events[i].tool];
        if (t.protected || t.risk in {"high", "critical"}) && t.name !in config.allowlist
        then i == 5 && events[3] == PolicyDecision(true, true) && events[4] == ApprovalDecision(true)
        else i == 4 && events[3] == PolicyDecision(true, false)
  {
    ToolCallsFollow(config, versions, c);
  }

  lemma {:induction false} ToolCallsFollow(config: Config, versions: map<string, nat>, c: Call)
    ensures var events := EventsOf(config, versions, c);
      && (Ran(events) <==> MayRun(config, c))
      && (forall i :: 0 <= i < |events| && events[i].ToolCall? ==>
            events[i].tool == c.proposal.tool.value && HasTool(c.proposal) && Permitted(config, events, i))
      && (forall i, j :: 0 <= i < |events| && 0 <= j < |events| && events[i].ToolCall? && events[j].ToolCall? ==>
            i == j)
  {
    var events, part := EventsOf(config, versions, c), ToolPart(config, c).0;
    PartStands(config, versions, c);
    PartIsPermitted(config, c);
    if MayRun(config, c) {
      assert events[CallPlace(config, c) + 2].ToolCall?;
    }
    forall i | 0 <= i < |events| && events[i].ToolCall?
      ensures MayRun(config, c) && i == CallPlace(config, c) + 2 && events[i].tool == c.proposal.tool.value
      ensures Permitted(config, events, i)
    {
      assert events[i] == part[i - 2];
      assert events[2] == part[0] && events[3] == part[1] && (i == 5 ==> events[4] == part[2]);
    }
  }

  /** A log holds the final output once, at the end. */
  lemma FinalOutputIsLast(config: Config, versions: map<string, nat>, c: Call)
    ensures var events := EventsOf(config, versions, c);
      forall i :: 0 <= i < |events| ==> (events[i].FinalOutput? <==> i == |events| - 1)
    ensures EventsOf(config, versions, c)[|EventsOf(config, versions, c)| - 1] == FinalOutput(ToolPart(config, c).1)
  {
    var part := ToolPart(config, c).0;
    assert forall i :: 0 <= i < |part| ==> !part[i].FinalOutput?;
  }

  /** The whole log: the model call, the adapters, the tool part, a proposed memory, then the signals, the feedback and
      the final output. The signals repeat the status and say which kinds of event came before them. */
  lemma LogInFull(config: Config, versions: map<string, nat>, c: Call, events: seq<Event>, log: seq<Event>)
    requires events == EventsOf(config, versions, c)
    requires log == [ModelCall, AdapterSelected] + ToolPart(config, c).0
      + (if c.proposal.memory == None then [] else [MemoryProposed(Proposed(versions, c))])
    ensures |events| == |log| + 3 && events[..|log|] == log
    ensures events[|log|].EvalSignals? && events[|log|].signals.status == ToolPart(config, c).1
    ensures events[|log|].signals.toolExecuted <==> exists i :: 0 <= i < |log| && log[i].ToolCall?
    ensures events[|log|].signals.policyEvaluated <==> exists i :: 0 <= i < |log| && log[i].PolicyDecision?
    ensures events[|log|].signals.schemaValidated <==> exists i :: 0 <= i < |log| && log[i].SchemaValidated?
    ensures events[|log| + 1].Feedback? && (events[|log| + 1].successful <==> ToolPart(config, c).1 == Completed)
    ensures events[|log| + 1].toolRan <==> exists i :: 0 <= i < |log| && log[i].ToolCall?
    ensures events[|log| + 2] == FinalOutput(ToolPart(config, c).1)
  {
  }

  /** What a memory proposal records: the key of tenant and digest, the next version of that key, and a reviewer exactly
      if the call was approved; versions of other keys stay. */
  lemma ProposalInFull(versions: map<string, nat>, c: Call)
    requires c.proposal.memory.Some?
    ensures var key, r := c.user.tenant + ":" + c.proposal.memory.value.digest, Proposed(versions, c);
      && r.key == key
      && r.version == (if key in versions then versions[key] + 1 else 1)
      && (r.reviewed <==> c.approval.Some? && c.approval.value.approved)
      && r.reviewer == (if r.reviewed then c.approval.value.approver else None)
      && VersionsAfter(versions, c) == versions[key := r.version]
  {
  }

  // ---- replay ----

  datatype EventType =
    | ModelCallType
    | AdapterType
    | SchemaType
    | PolicyType
    | ApprovalType
    | ToolCallType
    | MemoryType
    | SignalsType
    | FeedbackType
    | OutputType

  function TypeOf(e: Event): EventType {
    match e
    case ModelCall => ModelCallType
    case AdapterSelected => AdapterType
    case SchemaValidated(_) => SchemaType
    case PolicyDecision(_, _) => PolicyType
    case ApprovalDecision(_) => ApprovalType
    case ToolCall(_) => ToolCallType
    case MemoryProposed(_) => MemoryType
    case EvalSignals(_) => SignalsType
    case Feedback(_, _) => FeedbackType
    case FinalOutput(_) => OutputType
  }

  function Types(events: seq<Event>): seq<EventType> {
    seq(|events|, i requires 0 <= i < |events| => TypeOf(events[i]))
  }

  lemma TypesInFull(events: seq<Event>, i: nat)
    requires i < |events|
    ensures |Types(events)| == |events|
    ensures var e, t := events[i], Types(events)[i];
      && (t == ModelCallType <==> e.ModelCall?) && (t == AdapterType <==> e.AdapterSelected?)
      && (t == SchemaType <==> e.SchemaValidated?) && (t == PolicyType <==> e.PolicyDecision?)
      && (t == ApprovalType <==> e.ApprovalDecision?) && (t == ToolCallType <==> e.ToolCall?)
      && (t == MemoryType <==> e.MemoryProposed?) && (t == SignalsType <==> e.EvalSignals?)
      && (t == FeedbackType <==> e.Feedback?) && (t == OutputType <==> e.FinalOutput?)
  {
  }

  /** The first place of a type, or the length. */
  function Index(types: seq<EventType>, t: EventType): (at: nat)
    ensures at <= |types| && (at < |types| ==> types[at] == t) && forall i :: 0 <= i < at ==> types[i] != t
  {
    if types == [] || types[0] == t then 0 else 1 + Index(types[1..], t)
  }

  predicate Precedes(types: seq<EventType>, before: EventType, after: EventType) {
    if after !in types then before in types
    else if before !in types then false
    else Index(types, before) < Index(types, after)
  }

  datatype Replay = Replay(
    count: nat, types: seq<EventType>, toolExecuted: bool, policyBeforeTool: bool, status: Status)

  function ReplayOf(events: seq<Event>, status: Status): Replay {
    var types := Types(events);
    Replay(|events|, types, ToolCallType in types, Precedes(types, PolicyType, ToolCallType), status)
  }

  lemma TypeStands(events: seq<Event>, i: int)
    requires 0 <= i < |events|
    ensures TypeOf(events[i]) in Types(events)
  {
    assert Types(events)[i] == TypeOf(events[i]);
  }

  /** Main result on replay: it says that the tool ran exactly when it was allowed to, as the signals do; it says that
      policy came first exactly when a tool was proposed; the approval-route signal is always raised. */
  lemma {:induction false} ReplayAgrees(config: Config, versions: map<string, nat>, c: Call)
    ensures var events, status := EventsOf(config, versions, c), ToolPart(config, c).1;
      var replay, signals := ReplayOf(events, status), SignalsOf(LogOf(config, versions, c), status);
      && (replay.toolExecuted <==> MayRun(config, c))
      && replay.count == |events| && replay.status == status && replay.types == Types(events)
      && (signals.toolExecuted <==> replay.toolExecuted)
      && (replay.policyBeforeTool <==> HasTool(c.proposal))
      && signals.approvalRouteCorrect
      && (replay.toolExecuted ==> status == Completed)
      && (status == Completed && HasTool(c.proposal) ==> replay.toolExecuted)
  {
    var events := EventsOf(config, versions, c);
    var part := ToolPart(config, c).0;
    ToolCallsFollow(config, versions, c);
    RanInToolPart(config, versions, c);
    RanAsTypes(config, versions, c);
    PolicyAsTypes(config, versions, c);
    if HasTool(c.proposal) {
      assert LogOf(config, versions, c)[3] == part[1];
      assert PolicyLogged(LogOf(config, versions, c));
    } else {
      assert part == [];
      assert !SchemaLogged(LogOf(config, versions, c));
    }
  }

  lemma RanAsTypes(config: Config, versions: map<string, nat>, c: Call)
    ensures var events := EventsOf(config, versions, c);
      && (ToolCallType in Types(events) <==> Ran(events))
      && (Ran(events) <==> Ran(LogOf(config, versions, c)))
  {
    var events, log := EventsOf(config, versions, c), LogOf(config, versions, c);
    if ToolCallType in Types(events) {
      var i :| 0 <= i < |events| && Types(events)[i] == ToolCallType;
      assert events[i].ToolCall?;
    }
    if Ran(events) {
      var i :| 0 <= i < |events| && events[i].ToolCall?;
      TypeStands(events, i);
      assert log[i] == events[i];
    }
    if Ran(log) {
      var i :| 0 <= i < |log| && log[i].ToolCall?;
      assert events[i] == log[i];
    }
  }

  lemma PolicyComesFirst(events: seq<Event>)
    requires |events| > 3 && events[3].PolicyDecision? && forall i :: 0 <= i < 3 ==> !events[i].ToolCall?
    ensures Precedes(Types(events), PolicyType, ToolCallType)
  {
    var types := Types(events);
    assert types[3] == PolicyType;
    assert types[0] != ToolCallType && types[1] != ToolCallType && types[2] != ToolCallType;
  }

  lemma NoPolicyNoCall(events: seq<Event>)
    requires forall i :: 0 <= i < |events| ==> !events[i].PolicyDecision? && !events[i].ToolCall?
    ensures !Precedes(Types(events), PolicyType, ToolCallType)
  {
    assert forall i :: 0 <= i < |events| ==> Types(events)[i] == TypeOf(events[i]);
  }

  lemma PolicyAsTypes(config: Config, versions: map<string, nat>, c: Call)
    ensures Precedes(Types(EventsOf(config, versions, c)), PolicyType, ToolCallType) <==> HasTool(c.proposal)
  {
    var events, part := EventsOf(config, versions, c), ToolPart(config, c).0;
    PartStands(config, versions, c);
    if HasTool(c.proposal) {
      assert events[3] == part[1] && events[2] == part[0];
      PolicyComesFirst(events);
    } else {
      assert part == [];
      NoPolicyNoCall(events);
    }
  }

  // ---- memory versions over runs ----

  function VersionsAfterAll(calls: seq<Call>): map<string, nat> {
    if calls == [] then map[] else VersionsAfter(VersionsAfterAll(calls[..|calls| - 1]), calls[|calls| - 1])
  }

  /** The versions given to the records of one key, in order. */
  function VersionsFor(calls: seq<Call>, key: string): seq<nat> {
    if calls == [] then []
    else
      var front, last := calls[..|calls| - 1], calls[|calls| - 1];
      VersionsFor(front, key)
      + if last.proposal.memory.Some? && MemoryKey(last) == key
        then [Proposed(VersionsAfterAll(front), last).version] else []
  }

  /** Main result on memory: over any calls, the versions of a key are 1, 2, 3, and so on. */
  lemma {:induction false} VersionsCountUp(calls: seq<Call>, key: string)
    ensures VersionOf(VersionsAfterAll(calls), key) == |VersionsFor(calls, key)|
    ensures forall i :: 0 <= i < |VersionsFor(calls, key)| ==> VersionsFor(calls, key)[i] == i + 1
  {
    if calls != [] {
      VersionsCountUp(calls[..|calls| - 1], key);
    }
  }

  /** Digest prefixes have one length, so two calls share a key only with the same tenant and the same prefix. */
  lemma KeysTellTenants(c: Call, d: Call)
    requires c.proposal.memory.Some? && d.proposal.memory.Some? && MemoryKey(c) == MemoryKey(d)
    requires |c.proposal.memory.value.digest| == |d.proposal.memory.value.digest|
    ensures c.user.tenant == d.user.tenant && c.proposal.memory == d.proposal.memory
  {
    var n := |c.user.tenant|;
    assert MemoryKey(c)[..n] == c.user.tenant && MemoryKey(d)[..n] == d.user.tenant;
    assert MemoryKey(c)[n + 1..] == c.proposal.memory.value.digest
      && MemoryKey(d)[n + 1..] == d.proposal.memory.value.digest;
  }
}
