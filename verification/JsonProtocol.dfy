/** Any number of processes sharing one locked JSON file, with aborts and crashes at every step. */
module JsonProtocol {
  import opened Values
  import opened JsonStore

  /** What a run is about: the codec, the file it starts from, and the body of each transaction by number. */
  datatype World = World(codec: Codec, initial: Option<string>, body: (nat, Payload) -> Outcome)

  datatype Phase =
    | Idle
    | Waiting(txn: nat)
    | Locked(txn: nat)
    | Inside(txn: nat, entered: Entered)
    | Pending(txn: nat, payload: Payload)
    | Writing(txn: nat, payload: Payload, temp: nat)
    | Synced(txn: nat, payload: Payload, temp: nat)
    | Closing
    | Failed
    | Dead

  datatype Status = Active | Committed | Aborted | Crashed

  /** One transaction that got the lock, and what became of it. */
  datatype Entry = Entry(txn: nat, status: Status)

  /** The shared directory, the lock, the processes, and the history in the order in which the lock was taken. */
  datatype Sys = Sys(
    file: Option<string>, temps: map<nat, string>, lock: Option<nat>, procs: seq<Phase>, log: seq<Entry>)

  datatype Event =
    | Begin(p: nat, txn: nat)
    | Acquire(p: nat)
    | ReadFile(p: nat)
    | Leave(p: nat)
    | MakeTemp(p: nat, temp: nat)
    | WriteMore(p: nat, upTo: nat)
    | Sync(p: nat)
    | PutInPlace(p: nat)
    | WriteFault(p: nat)
    | Unlock(p: nat)
    | Crash(p: nat)

  function Start(w: World, processes: nat): Sys {
    Sys(w.initial, map[], None, seq(processes, _ => Idle), [])
  }

  predicate InTransaction(ph: Phase) {
    ph.Locked? || ph.Inside? || ph.Pending? || ph.Writing? || ph.Synced?
  }

  /** After a failed read the lock stays held until the handle is dropped. */
  predicate HoldsLock(ph: Phase) {
    InTransaction(ph) || ph.Closing? || ph.Failed?
  }

  function Moved(s: Sys, p: nat, ph: Phase): Sys
    requires p < |s.procs|
  {
    s.(procs := s.procs[p := ph])
  }

  function Marked(log: seq<Entry>, status: Status): seq<Entry> {
    if log == [] then [] else log[|log| - 1 := log[|log| - 1].(status := status)]
  }

  /** The transaction of the lock holder ends one way or another. */
  function Ended(s: Sys, p: nat, ph: Phase, status: Status): Sys
    requires p < |s.procs|
  {
    Moved(s, p, ph).(log := Marked(s.log, status))
  }

  function Leaving(w: World, s: Sys, p: nat): Sys
    requires p < |s.procs| && s.procs[p].Inside?
  {
    var ph := s.procs[p];
    match w.body(ph.txn, ph.entered.payload)
    case Raised => Ended(s, p, Closing, Aborted)
    case Finished(payload) =>
      if Writes(w.codec, ph.entered, payload) then Moved(s, p, Pending(ph.txn, payload))
      else Ended(s, p, Closing, Committed)
  }

  function Crashing(s: Sys, p: nat): Sys
    requires p < |s.procs|
  {
    var dead := if InTransaction(s.procs[p]) then Ended(s, p, Dead, Crashed) else Moved(s, p, Dead);
    if s.lock == Some(p) then dead.(lock := None) else dead
  }

  /** One event; an event that cannot happen now changes nothing. */
  function Step(w: World, s: Sys, e: Event): Sys {
    if e.p >= |s.procs| then s
    else
      var ph := s.procs[e.p];
      match e
      case Begin(p, txn) => if ph.Idle? then Moved(s, p, Waiting(txn)) else s
      case Acquire(p) =>
        if ph.Waiting? && s.lock == None
        then Moved(s, p, Locked(ph.txn)).(lock := Some(p), log := s.log + [Entry(ph.txn, Active)])
        else s
      case ReadFile(p) =>
        if !ph.Locked? then s
        else
          (match Read(w.codec, s.file)
           case Err(_) => Ended(s, p, Failed, Aborted)
           case Ok(entered) => Moved(s, p, Inside(ph.txn, entered)))
      case Leave(p) => if ph.Inside? then Leaving(w, s, p) else s
      case MakeTemp(p, temp) =>
        if ph.Pending? && temp !in s.temps
        then Moved(s, p, Writing(ph.txn, ph.payload, temp)).(temps := s.temps[temp := ""])
        else s
      case WriteMore(p, upTo) =>
        if ph.Writing? && upTo <= |w.codec.serialize(ph.payload)|
        then s.(temps := s.temps[ph.temp := w.codec.serialize(ph.payload)[..upTo]])
        else s
      case Sync(p) =>
        if ph.Writing? && Lookup(s.temps, ph.temp) == Some(w.codec.serialize(ph.payload))
        then Moved(s, p, Synced(ph.txn, ph.payload, ph.temp))
        else s
      case PutInPlace(p) =>
        if ph.Synced?
        then Ended(s, p, Closing, Committed).(file := Lookup(s.temps, ph.temp), temps := s.temps - {ph.temp})
        else s
      case WriteFault(p) =>
        if ph.Pending? then Ended(s, p, Closing, Aborted)
        else if ph.Writing? || ph.Synced? then Ended(s, p, Closing, Aborted).(temps := s.temps - {ph.temp})
        else s
      case Unlock(p) => if ph.Closing? || ph.Failed? then Moved(s, p, Idle).(lock := None) else s
      case Crash(p) => if ph.Dead? then s else Crashing(s, p)
  }

  function Run(w: World, processes: nat, events: seq<Event>): Sys
    decreases |events|
  {
    if events == [] then Start(w, processes)
    else Step(w, Run(w, processes, events[..|events| - 1]), events[|events| - 1])
  }

  // ---- the serial meaning of a history ----

  /** Applies one transaction to a decoded content. */
  function Applied(w: World, content: Option<Payload>, txn: nat): Option<Payload> {
    if content == None then None
    else
      match w.body(txn, content.value)
      case Raised => content
      case Finished(payload) => Some(payload)
  }

  /** The content after the committed transactions, one after the other, and no others. */
  function Serial(w: World, log: seq<Entry>): Option<Payload> {
    if log == [] then Decode(w.codec, w.initial)
    else
      var before := Serial(w, log[..|log| - 1]);
      if log[|log| - 1].status == Committed then Applied(w, before, log[|log| - 1].txn) else before
  }

  lemma SerialOfMarked(w: World, log: seq<Entry>, status: Status)
    requires log != [] && log[|log| - 1].status != Committed
    ensures Serial(w, Marked(log, status)) ==
      if status == Committed then Applied(w, Serial(w, log), log[|log| - 1].txn) else Serial(w, log)
  {
    var marked := Marked(log, status);
    assert marked[..|marked| - 1] == log[..|log| - 1];
  }

  lemma SerialOfAcquired(w: World, log: seq<Entry>, txn: nat)
    ensures Serial(w, log + [Entry(txn, Active)]) == Serial(w, log)
  {
    assert (log + [Entry(txn, Active)])[..|log|] == log;
  }

  // ---- the invariant ----

  /** Exactly the process named by the lock is in a phase that holds it. */
  ghost predicate LockInv(s: Sys) {
    && (s.lock.Some? ==> s.lock.value < |s.procs|)
    && (forall p :: 0 <= p < |s.procs| ==> (HoldsLock(s.procs[p]) <==> s.lock == Some(p)))
  }

  /** A transaction is active exactly while the lock holder is in it, and it is the newest one. */
  ghost predicate LogInv(s: Sys) {
    && (forall i :: 0 <= i < |s.log| - 1 ==> s.log[i].status != Active)
    && (s.log != [] && s.log[|s.log| - 1].status == Active <==> s.lock.Some? && InHolder(s))
    && (s.lock.Some? && InHolder(s) ==> s.log != [] && s.log[|s.log| - 1].txn == s.procs[s.lock.value].txn)
  }

  ghost predicate InHolder(s: Sys)
    requires s.lock.Some?
  {
    s.lock.value < |s.procs| && InTransaction(s.procs[s.lock.value])
  }

  /** What the lock holder has in hand belongs to the content of the file as it still is. */
  ghost predicate HolderInv(w: World, s: Sys, ph: Phase) {
    match ph
    case Inside(_, entered) => Read(w.codec, s.file) == Ok(entered)
    case Pending(txn, payload) => Computed(w, s, txn, payload)
    case Writing(txn, payload, temp) => Computed(w, s, txn, payload)
    case Synced(txn, payload, temp) =>
      Computed(w, s, txn, payload) && Lookup(s.temps, temp) == Some(w.codec.serialize(payload))
    case _ => true
  }

  ghost predicate Computed(w: World, s: Sys, txn: nat, payload: Payload) {
    Decode(w.codec, s.file).Some? && w.body(txn, Decode(w.codec, s.file).value) == Finished(payload)
  }

  ghost predicate Inv(w: World, s: Sys) {
    && LockInv(s)
    && LogInv(s)
    && (s.lock.Some? ==> HolderInv(w, s, s.procs[s.lock.value]))
    && Decode(w.codec, s.file) == Serial(w, s.log)
  }

  lemma StartInv(w: World, processes: nat)
    ensures Inv(w, Start(w, processes))
  {
  }

  /** A transaction of the lock holder ends without touching the file's meaning. */
  lemma EndingKeepsInv(w: World, s: Sys, s': Sys, ph: Phase, status: Status)
    requires Inv(w, s) && s.lock.Some? && InHolder(s)
    requires status != Active && (ph.Closing? || ph.Failed?)
    requires s'.lock == s.lock && s'.procs == s.procs[s.lock.value := ph] && s'.log == Marked(s.log, status)
    requires Decode(w.codec, s'.file) ==
      if status == Committed then Applied(w, Serial(w, s.log), s.procs[s.lock.value].txn) else Decode(w.codec, s.file)
    ensures Inv(w, s')
  {
    SerialOfMarked(w, s.log, status);
  }

  /** The lock holder goes on within its transaction. */
  lemma MovingKeepsInv(w: World, s: Sys, s': Sys, ph: Phase)
    requires Inv(w, s) && s.lock.Some? && InHolder(s)
    requires InTransaction(ph) && ph.txn == s.procs[s.lock.value].txn && HolderInv(w, s', ph)
    requires s'.lock == s.lock && s'.procs == s.procs[s.lock.value := ph] && s'.log == s.log && s'.file == s.file
    ensures Inv(w, s')
  {
  }

  lemma {:induction false} LeavingKeepsInv(w: World, s: Sys, p: nat)
    requires RoundTrips(w.codec) && Inv(w, s) && p < |s.procs| && s.procs[p].Inside?
    ensures Inv(w, Leaving(w, s, p))
  {
    var ph := s.procs[p];
    assert HoldsLock(ph);
    var s' := Leaving(w, s, p);
    match w.body(ph.txn, ph.entered.payload)
    case Raised => EndingKeepsInv(w, s, s', Closing, Aborted);
    case Finished(payload) =>
      if Writes(w.codec, ph.entered, payload) {
        MovingKeepsInv(w, s, s', Pending(ph.txn, payload));
      } else {
        SkipsExactly(w.codec, s.file, payload);
        EndingKeepsInv(w, s, s', Closing, Committed);
      }
  }

  lemma {:induction false} CrashKeepsInv(w: World, s: Sys, p: nat)
    requires Inv(w, s) && p < |s.procs| && !s.procs[p].Dead?
    ensures Inv(w, Crashing(s, p))
  {
    if InTransaction(s.procs[p]) {
      SerialOfMarked(w, s.log, Crashed);
    }
  }

  lemma {:induction false} HolderStepKeepsInv(w: World, s: Sys, e: Event)
    requires RoundTrips(w.codec) && Inv(w, s) && e.p < |s.procs| && InTransaction(s.procs[e.p]) && !e.Crash?
      && !e.Leave?
    ensures Inv(w, Step(w, s, e))
  {
    var ph, s' := s.procs[e.p], Step(w, s, e);
    assert HoldsLock(ph);
    if s' == s {
      return;
    }
    match e
    case ReadFile(p) =>
      if Read(w.codec, s.file).Err? {
        EndingKeepsInv(w, s, s', Failed, Aborted);
      } else {
        MovingKeepsInv(w, s, s', s'.procs[p]);
      }
    case MakeTemp(p, temp) => MovingKeepsInv(w, s, s', s'.procs[p]);
    case WriteMore(p, upTo) => MovingKeepsInv(w, s, s', ph);
    case Sync(p) => MovingKeepsInv(w, s, s', s'.procs[p]);
    case PutInPlace(p) =>
      WrittenDecodes(w.codec, ph.payload);
      EndingKeepsInv(w, s, s', Closing, Committed);
    case WriteFault(p) => EndingKeepsInv(w, s, s', Closing, Aborted);
    case _ =>
  }

  lemma AcquireKeepsLock(s: Sys, s': Sys, p: nat, txn: nat)
    requires LockInv(s) && p < |s.procs| && s.lock == None
    requires s'.procs == s.procs[p := Locked(txn)] && s'.lock == Some(p)
    ensures LockInv(s')
  {
    forall q | 0 <= q < |s'.procs| ensures HoldsLock(s'.procs[q]) <==> s'.lock == Some(q) {
      if q != p {
        assert s'.procs[q] == s.procs[q];
      }
    }
  }

  lemma AcquireKeepsLog(s: Sys, s': Sys, p: nat, txn: nat)
    requires LogInv(s) && p < |s.procs| && s.lock == None
    requires s'.procs == s.procs[p := Locked(txn)] && s'.lock == Some(p) && s'.log == s.log + [Entry(txn, Active)]
    ensures LogInv(s')
  {
    assert InHolder(s');
    forall i | 0 <= i < |s'.log| - 1 ensures s'.log[i].status != Active {
      assert s'.log[i] == s.log[i];
    }
  }

  lemma AcquireKeepsInv(w: World, s: Sys, p: nat)
    requires Inv(w, s) && p < |s.procs| && s.procs[p].Waiting? && s.lock == None
    ensures Inv(w, Step(w, s, Acquire(p)))
  {
    var txn, s' := s.procs[p].txn, Step(w, s, Acquire(p));
    SerialOfAcquired(w, s.log, txn);
    AcquireKeepsLock(s, s', p, txn);
    AcquireKeepsLog(s, s', p, txn);
  }

  lemma UnlockKeepsInv(w: World, s: Sys, p: nat)
    requires Inv(w, s) && p < |s.procs| && (s.procs[p].Closing? || s.procs[p].Failed?)
    ensures Inv(w, Step(w, s, Unlock(p)))
  {
  }

  lemma BeginKeepsInv(w: World, s: Sys, p: nat, txn: nat)
    requires Inv(w, s) && p < |s.procs| && s.procs[p].Idle?
    ensures Inv(w, Step(w, s, Begin(p, txn)))
  {
    assert !HoldsLock(s.procs[p]);
  }

  lemma {:induction false} OtherStepKeepsInv(w: World, s: Sys, e: Event)
    requires Inv(w, s) && e.p < |s.procs| && !InTransaction(s.procs[e.p]) && !e.Crash?
    ensures Inv(w, Step(w, s, e))
  {
    var ph := s.procs[e.p];
    if e.Begin? && ph.Idle? {
      BeginKeepsInv(w, s, e.p, e.txn);
    } else if e.Acquire? && ph.Waiting? && s.lock == None {
      AcquireKeepsInv(w, s, e.p);
    } else if e.Unlock? && (ph.Closing? || ph.Failed?) {
      UnlockKeepsInv(w, s, e.p);
    } else {
      assert Step(w, s, e) == s;
    }
  }

  lemma {:induction false} StepKeepsInv(w: World, s: Sys, e: Event)
    requires RoundTrips(w.codec) && Inv(w, s)
    ensures Inv(w, Step(w, s, e))
  {
    if e.p < |s.procs| {
      if e.Crash? {
        if !s.procs[e.p].Dead? {
          CrashKeepsInv(w, s, e.p);
        }
      } else if !InTransaction(s.procs[e.p]) {
        OtherStepKeepsInv(w, s, e);
      } else if e.Leave? {
        if s.procs[e.p].Inside? {
          LeavingKeepsInv(w, s, e.p);
        }
      } else {
        HolderStepKeepsInv(w, s, e);
      }
    }
  }

  lemma {:induction false} RunKeepsInv(w: World, processes: nat, events: seq<Event>)
    requires RoundTrips(w.codec)
    ensures Inv(w, Run(w, processes, events))
    decreases |events|
  {
    if events == [] {
      StartInv(w, processes);
    } else {
      RunKeepsInv(w, processes, events[..|events| - 1]);
      StepKeepsInv(w, Run(w, processes, events[..|events| - 1]), events[|events| - 1]);
    }
  }

  /** Main result: whatever the interleaving, the aborts and the crashes, the file decodes to the serial application of
      exactly the committed transactions in the order in which they took the lock; no two processes hold the lock; and
      the lock is never left with a process that does not hold it. */
  lemma {:induction false} EveryRunIsSerial(w: World, processes: nat, events: seq<Event>)
    requires RoundTrips(w.codec)
    ensures var s := Run(w, processes, events);
      && Decode(w.codec, s.file) == Serial(w, s.log)
      && (forall p, q :: 0 <= p < q < |s.procs| ==> !(HoldsLock(s.procs[p]) && HoldsLock(s.procs[q])))
      && (s.lock.Some? ==> s.lock.value < |s.procs| && HoldsLock(s.procs[s.lock.value]))
      && (s.lock == None ==> forall i :: 0 <= i < |s.log| ==> s.log[i].status != Active)
  {
    RunKeepsInv(w, processes, events);
  }

  // ---- progress ----

  /** The writing half of a transaction that nothing disturbs. */
  function Wrote(w: World, s: Sys, p: nat, temp: nat, size: nat): Sys {
    Step(w, Step(w, Step(w, Step(w, s, MakeTemp(p, temp)), WriteMore(p, size)), Sync(p)), PutInPlace(p))
  }

  /** A whole transaction that nothing disturbs, up to the moment before the lock is given back. */
  function Undisturbed(w: World, s: Sys, p: nat, txn: nat, temp: nat, size: nat): Sys {
    var inside := Step(w, Step(w, Step(w, s, Begin(p, txn)), Acquire(p)), ReadFile(p));
    Wrote(w, Step(w, inside, Leave(p)), p, temp, size)
  }

  lemma WriteRuns(w: World, s: Sys, p: nat, temp: nat)
    requires p < |s.procs| && s.procs[p].Pending? && temp !in s.temps
    ensures var payload := s.procs[p].payload;
      Wrote(w, s, p, temp, |w.codec.serialize(payload)|) == Ended(s, p, Closing, Committed).(
        file := Some(w.codec.serialize(payload)))
  {
    var txn, payload := s.procs[p].txn, s.procs[p].payload;
    var text := w.codec.serialize(payload);
    var s1 := Step(w, s, MakeTemp(p, temp));
    var s2 := Step(w, s1, WriteMore(p, |text|));
    assert text[..|text|] == text;
    assert s2.temps == s.temps[temp := text];
    var s3 := Step(w, s2, Sync(p));
    assert s3 == s.(procs := s.procs[p := Synced(txn, payload, temp)], temps := s.temps[temp := text]);
    assert s3.temps - {temp} == s.temps;
    assert s3.procs[p := Closing] == s.procs[p := Closing];
  }

  lemma NothingToWrite(w: World, s: Sys, p: nat, temp: nat, size: nat)
    requires p < |s.procs| && (s.procs[p].Closing? || s.procs[p].Failed?)
    ensures Wrote(w, s, p, temp, size) == s
  {
  }

  lemma Enters(w: World, s: Sys, p: nat, txn: nat)
    requires p < |s.procs| && s.procs[p] == Idle && s.lock == None
    ensures Step(w, Step(w, s, Begin(p, txn)), Acquire(p)) ==
      s.(procs := s.procs[p := Locked(txn)], lock := Some(p), log := s.log + [Entry(txn, Active)])
  {
    assert s.procs[p := Waiting(txn)][p := Locked(txn)] == s.procs[p := Locked(txn)];
  }

  lemma ReadsAndLeaves(w: World, s: Sys, p: nat)
    requires p < |s.procs| && s.procs[p].Locked?
    ensures var txn, s' := s.procs[p].txn, Step(w, Step(w, s, ReadFile(p)), Leave(p));
      match Read(w.codec, s.file)
      case Err(_) => s' == Ended(s, p, Failed, Aborted)
      case Ok(entered) =>
        match w.body(txn, entered.payload)
        case Raised => s' == Ended(s, p, Closing, Aborted)
        case Finished(payload) =>
          if Writes(w.codec, entered, payload) then s' == Moved(s, p, Pending(txn, payload))
          else s' == Ended(s, p, Closing, Committed)
  {
    if Read(w.codec, s.file).Ok? {
      var inside := Inside(s.procs[p].txn, Read(w.codec, s.file).value);
      assert Step(w, s, ReadFile(p)) == Moved(s, p, inside);
      var ph := Leaving(w, Moved(s, p, inside), p).procs[p];
      assert s.procs[p := inside][p := ph] == s.procs[p := ph];
    }
  }

  /** How the history tells what became of a transaction. */
  function StatusOf(w: World, file: Option<string>, txn: nat): Status {
    if Decode(w.codec, file).Some? && w.body(txn, Decode(w.codec, file).value).Finished? then Committed else Aborted
  }

  /** What the with-block of a transaction makes of the file. */
  lemma BlockOf(w: World, file: Option<string>, txn: nat, after: Option<string>)
    requires after == AfterBlock(w.codec, file, (c: Payload) => w.body(txn, c))
    ensures match Read(w.codec, file)
      case Err(_) => after == file
      case Ok(entered) =>
        match w.body(txn, entered.payload)
        case Raised => after == file
        case Finished(payload) =>
          after == if Writes(w.codec, entered, payload) then Some(w.codec.serialize(payload)) else file
  {
  }

  lemma LockedRuns(w: World, s: Sys, p: nat, temp: nat, size: nat)
    requires p < |s.procs| && s.procs[p].Locked? && temp !in s.temps
    requires var txn := s.procs[p].txn; StatusOf(w, s.file, txn) == Committed ==>
      size == |w.codec.serialize(w.body(txn, Decode(w.codec, s.file).value).payload)|
    ensures var txn, s' := s.procs[p].txn, Wrote(w, Step(w, Step(w, s, ReadFile(p)), Leave(p)), p, temp, size);
      && (s'.procs == s.procs[p := Closing] || s'.procs == s.procs[p := Failed])
      && s'.lock == s.lock && s'.temps == s.temps
      && s'.file == AfterBlock(w.codec, s.file, (c: Payload) => w.body(txn, c))
      && s'.log == Marked(s.log, StatusOf(w, s.file, txn))
  {
    var txn := s.procs[p].txn;
    BlockOf(w, s.file, txn, AfterBlock(w.codec, s.file, (c: Payload) => w.body(txn, c)));
    ReadsAndLeaves(w, s, p);
    var s' := Step(w, Step(w, s, ReadFile(p)), Leave(p));
    if s'.procs[p].Pending? {
      WriteRuns(w, s', p, temp);
      assert s'.procs[p := Closing] == s.procs[p := Closing];
    } else {
      NothingToWrite(w, s', p, temp, size);
    }
  }

  lemma MarkedLast(log: seq<Entry>, txn: nat, status: Status)
    ensures Marked(log + [Entry(txn, Active)], status) == log + [Entry(txn, status)]
  {
  }

  /** Giving the lock back leaves the processes as they were before the transaction. */
  lemma Unlocks(w: World, s: Sys, s': Sys, p: nat, ph: Phase)
    requires p < |s.procs| && s.procs[p] == Idle && s'.lock == Some(p)
    requires s'.procs == s.procs[p := ph][p := Closing] || s'.procs == s.procs[p := ph][p := Failed]
    ensures Step(w, s', Unlock(p)) == s'.(lock := None, procs := s.procs)
  {
    assert s'.procs[p := Idle] == s.procs;
  }

  /** Whatever has happened before, if the lock is free and nothing interferes, a process runs its transaction to the
      end: the file then is what the with-block makes of it, the lock is held until it is given back and free again
      after that, no temporary file remains, and the history tells what became of the transaction. */
  lemma {:induction false} TransactionRuns(w: World, s: Sys, s': Sys, p: nat, txn: nat, temp: nat, size: nat)
    requires p < |s.procs| && s.procs[p] == Idle && s.lock == None && temp !in s.temps
    requires StatusOf(w, s.file, txn) == Committed ==>
      size == |w.codec.serialize(w.body(txn, Decode(w.codec, s.file).value).payload)|
    requires s' == Undisturbed(w, s, p, txn, temp, size)
    ensures s'.lock == Some(p) && s'.temps == s.temps
    ensures s'.file == AfterBlock(w.codec, s.file, (c: Payload) => w.body(txn, c))
    ensures s'.log == s.log + [Entry(txn, StatusOf(w, s.file, txn))]
    ensures Step(w, s', Unlock(p)) == s'.(lock := None, procs := s.procs)
  {
    Enters(w, s, p, txn);
    LockedRuns(w, Step(w, Step(w, s, Begin(p, txn)), Acquire(p)), p, temp, size);
    MarkedLast(s.log, txn, StatusOf(w, s.file, txn));
    Unlocks(w, s, s', p, Locked(txn));
  }

  /** A write that fails ends the transaction without a trace: its temporary file is gone, the content as before, and
      the lock can be given back. */
  lemma FaultAborts(w: World, s: Sys, p: nat, s': Sys)
    requires p < |s.procs| && (s.procs[p].Pending? || s.procs[p].Writing? || s.procs[p].Synced?)
    requires s' == Step(w, s, WriteFault(p))
    ensures s'.file == s.file && s'.lock == s.lock && s'.procs == s.procs[p := Closing]
    ensures s'.temps == if s.procs[p].Pending? then s.temps else s.temps - {s.procs[p].temp}
    ensures s'.log == Marked(s.log, Aborted)
    ensures Step(w, s', Unlock(p)).lock == None && Step(w, s', Unlock(p)).procs[p] == Idle
  {
  }

  /** A crash leaves files as they are and frees the lock if the process held it; a transaction under way is crashed. */
  lemma CrashLeavesFiles(w: World, s: Sys, p: nat, s': Sys)
    requires p < |s.procs| && !s.procs[p].Dead? && s' == Step(w, s, Crash(p))
    ensures s'.file == s.file && s'.temps == s.temps && s'.procs == s.procs[p := Dead]
    ensures s'.lock == if s.lock == Some(p) then None else s.lock
    ensures s'.log == if InTransaction(s.procs[p]) then Marked(s.log, Crashed) else s.log
  {
  }

  // ---- what changes the file ----

  /** The payload that the process of an event is about to put in place. */
  predicate PutsInPlace(s: Sys, e: Event) {
    e.PutInPlace? && e.p < |s.procs| && s.procs[e.p].Synced?
  }

  /** Every event leaves the file as it was, except the one that puts a finished temporary file in place: then the file
      is the whole printed payload that its transaction computed from the content before. */
  lemma {:induction false} FileChangesAsAWhole(w: World, processes: nat, events: seq<Event>, e: Event)
    requires RoundTrips(w.codec)
    ensures var s := Run(w, processes, events); var s' := Step(w, s, e);
      && (!PutsInPlace(s, e) ==> s'.file == s.file)
      && (PutsInPlace(s, e) ==>
            && Decode(w.codec, s.file).Some?
            && w.body(s.procs[e.p].txn, Decode(w.codec, s.file).value) == Finished(s.procs[e.p].payload)
            && s'.file == Some(w.codec.serialize(s.procs[e.p].payload)))
  {
    RunKeepsInv(w, processes, events);
    var s := Run(w, processes, events);
    if PutsInPlace(s, e) {
      assert HoldsLock(s.procs[e.p]);
    }
  }

  /** If the file starts out as invalid JSON, no run ever changes it. */
  lemma {:induction false} InvalidJsonStays(w: World, processes: nat, events: seq<Event>)
    requires RoundTrips(w.codec) && Decode(w.codec, w.initial) == None
    ensures Run(w, processes, events).file == w.initial
    decreases |events|
  {
    if events != [] {
      var before := events[..|events| - 1];
      InvalidJsonStays(w, processes, before);
      FileChangesAsAWhole(w, processes, before, events[|events| - 1]);
    }
  }

  /** The temporary file of the lock holder, if it has one. */
  function OpenTemps(s: Sys): set<nat> {
    if s.lock == None || s.lock.value >= |s.procs| then {}
    else
      match s.procs[s.lock.value]
      case Writing(_, _, temp) => {temp}
      case Synced(_, _, temp) => {temp}
      case _ => {}
  }

  /** The temporary files are those of the lock holder. */
  ghost predicate Tidy(s: Sys) {
    s.temps.Keys == OpenTemps(s)
  }

  lemma OthersStayTidy(w: World, s: Sys, e: Event)
    requires LockInv(s) && Tidy(s) && e.p < |s.procs| && s.lock != Some(e.p) && !e.Crash?
    ensures Tidy(Step(w, s, e))
  {
    assert !HoldsLock(s.procs[e.p]);
  }

  lemma HolderStaysTidy(w: World, s: Sys, e: Event)
    requires LockInv(s) && Tidy(s) && e.p < |s.procs| && s.lock == Some(e.p) && !e.Crash?
    ensures Tidy(Step(w, s, e))
  {
    assert HoldsLock(s.procs[e.p]);
    match e
    case MakeTemp(p, temp) =>
    case WriteMore(p, upTo) =>
    case Sync(p) =>
    case PutInPlace(p) =>
    case WriteFault(p) =>
    case _ =>
  }

  /** Only crashes leave temporary files behind. */
  lemma {:induction false} OnlyCrashesLitter(w: World, processes: nat, events: seq<Event>)
    requires RoundTrips(w.codec) && forall i :: 0 <= i < |events| ==> !events[i].Crash?
    ensures Tidy(Run(w, processes, events))
    decreases |events|
  {
    if events != [] {
      var before, e := events[..|events| - 1], events[|events| - 1];
      OnlyCrashesLitter(w, processes, before);
      RunKeepsInv(w, processes, before);
      var s := Run(w, processes, before);
      if e.p < |s.procs| {
        if s.lock == Some(e.p) {
          HolderStaysTidy(w, s, e);
        } else {
          OthersStayTidy(w, s, e);
        }
      }
    }
  }
}
