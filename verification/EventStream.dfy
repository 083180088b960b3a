/** Server-sent run events: one poll loop, and clients that lose the connection and resume by Last-Event-ID. */
module EventStream {
  import opened Values

  // ---- the poll loop ----

  /** What the stream of a run carries, apart from heartbeats: run events by sequence, and the end of the stream. */
  datatype Message = RunEvent(id: int) | Complete(id: int)

  datatype Session = Session(terminal: bool, latest: int)

  /** What one turn of the loop reads: first the events recorded so far, then the session, if it is known. */
  datatype Poll = Poll(log: seq<int>, session: Option<Session>)

  ghost predicate Ascending(log: seq<int>) {
    forall i, j :: 0 <= i < j < |log| ==> log[i] < log[j]
  }

  /** The recorded events after a sequence number, in ascending order. */
  function After(log: seq<int>, last: int): seq<int> {
    if log == [] then [] else if log[0] > last then [log[0]] + After(log[1..], last) else After(log[1..], last)
  }

  function AsEvents(ids: seq<int>): seq<Message> {
    seq(|ids|, i requires 0 <= i < |ids| => RunEvent(ids[i]))
  }

  function LastOf(ids: seq<int>, last: int): int {
    if ids == [] then last else ids[|ids| - 1]
  }

  predicate Finished(session: Option<Session>, last: int) {
    session.Some? && session.value.terminal && last >= session.value.latest
  }

  /** The first m events are those up to last. */
  ghost predicate IsCut(log: seq<int>, last: int, m: int) {
    && 0 <= m <= |log|
    && (forall i :: 0 <= i < m ==> log[i] <= last)
    && (forall i :: m <= i < |log| ==> log[i] > last)
  }

  lemma {:induction false} AfterCut(log: seq<int>, last: int, m: nat)
    requires IsCut(log, last, m)
    ensures After(log, last) == log[m..]
  {
    if log != [] {
      AfterCut(log[1..], last, if m > 0 then m - 1 else 0);
      assert m > 0 ==> log[1..][m - 1..] == log[m..];
      assert m == 0 ==> log[1..][0..] == log[1..];
    }
  }

  lemma {:induction false} CutExists(log: seq<int>, last: int) returns (m: nat)
    requires Ascending(log)
    ensures IsCut(log, last, m)
  {
    if log == [] || log[0] > last {
      m := 0;
    } else {
      var k := CutExists(log[1..], last);
      m := k + 1;
      assert forall i :: 1 <= i < |log| ==> log[i] == log[1..][i - 1];
    }
  }

  /** Each turn sees at least what the turn before it saw. */
  ghost predicate Growing(polls: seq<Poll>) {
    && (forall k :: 0 <= k < |polls| ==> Ascending(polls[k].log))
    && (forall k, l :: 0 <= k < l < |polls| ==> polls[k].log <= polls[l].log)
  }

  lemma CutStays(before: seq<int>, now: seq<int>, header: int, m: nat)
    requires Ascending(now) && before <= now && IsCut(before, header, m) && m < |before|
    ensures IsCut(now, header, m) && IsCut(now, before[|before| - 1], |before|)
  {
    assert forall i :: 0 <= i < |before| ==> now[i] == before[i];
    assert before[|before| - 1] > header;
    assert forall i :: |before| <= i < |now| ==> now[i] > now[|before| - 1];
  }

  /** What a turn finds beyond the last event written is what the turn before could not see. */
  lemma CatchUp(before: seq<int>, now: seq<int>, header: int)
    requires Ascending(now) && before <= now
    ensures After(now, header) == After(before, header) + After(now, LastOf(After(before, header), header))
  {
    assert Ascending(before) by {
      assert forall i :: 0 <= i < |before| ==> now[i] == before[i];
    }
    var m := CutExists(before, header);
    AfterCut(before, header, m);
    if m < |before| {
      CutStays(before, now, header, m);
      AfterCut(now, header, m);
      AfterCut(now, before[|before| - 1], |before|);
      assert now[m..] == before[m..] + now[|before|..];
    }
  }

  /** The events written in the first turns of a connection. */
  function Sent(polls: seq<Poll>, turns: nat, header: int): seq<int>
    requires turns <= |polls|
  {
    if turns == 0 then [] else After(polls[turns - 1].log, header)
  }

  /** The turn of that number found the run over and everything up to the session's latest event passed. */
  predicate Ends(polls: seq<Poll>, turn: nat, header: int)
    requires turn < |polls|
  {
    Finished(polls[turn].session, LastOf(Sent(polls, turn + 1, header), header))
  }

  method WriteAll(out: seq<Message>, events: seq<int>, last: int) returns (out': seq<Message>, last': int)
    ensures out' == out + AsEvents(events) && last' == LastOf(events, last)
  {
    out', last' := out, last;
    for i := 0 to |events|
      invariant out' == out + AsEvents(events[..i]) && last' == LastOf(events[..i], last)
    {
      assert events[..i + 1] == events[..i] + [events[i]];
      out' := out' + [RunEvent(events[i])];
      last' := events[i];
    }
    assert events[..|events|] == events;
  }

  /** One turn: what is new is listed and written, then the session is looked up. */
  method TakeTurn(out: seq<Message>, last: int, poll: Poll) returns (out': seq<Message>, last': int, over: bool)
    ensures out' == out + AsEvents(After(poll.log, last)) && last' == LastOf(After(poll.log, last), last)
    ensures over <==> Finished(poll.session, last')
    ensures over <==> poll.session.Some? && poll.session.value.terminal && poll.session.value.latest <= last'
  {
    out', last' := WriteAll(out, After(poll.log, last), last);
    over := poll.session.Some? && poll.session.value.terminal && last' >= poll.session.value.latest;
  }

  lemma AsEventsAppend(a: seq<int>, b: seq<int>)
    ensures AsEvents(a + b) == AsEvents(a) + AsEvents(b)
  {
  }

  lemma NextTurn(polls: seq<Poll>, turns: nat, header: int)
    requires Growing(polls) && turns < |polls|
    ensures var last := LastOf(Sent(polls, turns, header), header);
      && Sent(polls, turns + 1, header) == Sent(polls, turns, header) + After(polls[turns].log, last)
      && AsEvents(Sent(polls, turns + 1, header))
        == AsEvents(Sent(polls, turns, header)) + AsEvents(After(polls[turns].log, last))
      && LastOf(Sent(polls, turns + 1, header), header) == LastOf(After(polls[turns].log, last), last)
  {
    var sent := Sent(polls, turns, header);
    var more := After(polls[turns].log, LastOf(sent, header));
    assert Sent(polls, turns + 1, header) == sent + more by {
      if turns == 0 {
        assert [] + more == more;
      } else {
        CatchUp(polls[turns - 1].log, polls[turns].log, header);
      }
    }
    AsEventsAppend(sent, more);
    LastOfAppend(sent, more, header);
  }

  lemma LastOfAppend(a: seq<int>, b: seq<int>, last: int)
    ensures LastOf(a + b, last) == LastOf(b, LastOf(a, last))
  {
  }

  /** What is listed after a number is what lies above it, still in ascending order. */
  lemma AfterIsExact(log: seq<int>, last: int)
    requires Ascending(log)
    ensures Ascending(After(log, last))
    ensures forall id :: id in After(log, last) <==> id in log && id > last
  {
    var m := CutExists(log, last);
    AfterCut(log, last, m);
    var rest := log[m..];
    assert forall i :: 0 <= i < |rest| ==> rest[i] == log[m + i];
    forall id | id in log && id > last ensures id in rest {
      var i :| 0 <= i < |log| && log[i] == id;
      assert rest[i - m] == id;
    }
    forall id | id in rest ensures id in log && id > last {
      var i :| 0 <= i < |rest| && rest[i] == id;
      assert log[m + i] == id;
    }
  }

  lemma LastOfAscending(ids: seq<int>, last: int)
    requires Ascending(ids) && forall id :: id in ids ==> id > last
    ensures if ids == [] then LastOf(ids, last) == last else LastOf(ids, last) in ids
    ensures forall id :: id in ids ==> id <= LastOf(ids, last)
  {
    forall id | id in ids ensures id <= LastOf(ids, last) {
      var i :| 0 <= i < |ids| && ids[i] == id;
      if i < |ids| - 1 {
        assert ids[i] < ids[|ids| - 1];
      }
    }
  }

  lemma SentIsExact(polls: seq<Poll>, turns: nat, header: int)
    requires Growing(polls) && 0 < turns <= |polls|
    ensures var sent := Sent(polls, turns, header);
      && Ascending(sent)
      && (forall id :: id in sent <==> id in polls[turns - 1].log && id > header)
      && (if sent == [] then LastOf(sent, header) == header else LastOf(sent, header) in sent)
      && (forall id :: id in sent ==> id <= LastOf(sent, header))
  {
    AfterIsExact(polls[turns - 1].log, header);
    LastOfAscending(After(polls[turns - 1].log, header), header);
  }

  /** In which turns the loop goes on: the session is unknown, or not terminal, or its latest event is beyond the header
      and beyond everything recorded. */
  lemma EndsExactly(polls: seq<Poll>, k: nat, header: int)
    requires Growing(polls) && k < |polls|
    ensures Ends(polls, k, header) <==>
      && polls[k].session.Some? && polls[k].session.value.terminal
      && (polls[k].session.value.latest <= header
          || exists id :: id in polls[k].log && polls[k].session.value.latest <= id)
  {
    SentIsExact(polls, k + 1, header);
    var last := LastOf(Sent(polls, k + 1, header), header);
    if id :| id in polls[k].log && polls[k].session.Some? && polls[k].session.value.latest <= id {
      assert id <= header || id in Sent(polls, k + 1, header);
    }
  }

  lemma EventsOf(ids: seq<int>, tail: seq<Message>)
    requires |tail| <= 1 && forall i :: 0 <= i < |tail| ==> tail[i].Complete?
    ensures var out := AsEvents(ids) + tail;
      && (forall i :: 0 <= i < |ids| ==> out[i] == RunEvent(ids[i]))
      && (forall id :: RunEvent(id) in out <==> id in ids)
      && (forall i :: 0 <= i < |out| && out[i].Complete? ==> i == |ids| == |out| - 1)
  {
    var out := AsEvents(ids) + tail;
    forall id | id in ids ensures RunEvent(id) in out {
      var i :| 0 <= i < |ids| && ids[i] == id;
      assert out[i] == RunEvent(id);
    }
  }

  /** What the stream holds, message by message. */
  lemma StreamIsExact(header: int, polls: seq<Poll>, turns: nat, out: seq<Message>, last: int)
    requires Growing(polls) && 0 < turns <= |polls|
    requires last == LastOf(Sent(polls, turns, header), header)
    requires out == AsEvents(Sent(polls, turns, header))
      + if Ends(polls, turns - 1, header) then [Complete(last + 1)] else []
    ensures forall id :: RunEvent(id) in out <==> id in polls[turns - 1].log && id > header
    ensures forall i, j :: 0 <= i < j < |out| && out[j].RunEvent? ==> out[i].RunEvent? && out[i].id < out[j].id
    ensures (last == header || RunEvent(last) in out) && forall id :: RunEvent(id) in out ==> id <= last
    ensures forall i :: 0 <= i < |out| && out[i].Complete? ==> i == |out| - 1 && out[i].id == last + 1
    ensures (exists i :: 0 <= i < |out| && out[i].Complete?) <==>
      && polls[turns - 1].session.Some? && polls[turns - 1].session.value.terminal
      && polls[turns - 1].session.value.latest <= last
  {
    var sent := Sent(polls, turns, header);
    SentIsExact(polls, turns, header);
    EventsOf(sent, if Ends(polls, turns - 1, header) then [Complete(last + 1)] else []);
    if Ends(polls, turns - 1, header) {
      assert out[|sent|] == Complete(last + 1);
    }
  }

  /** The loop, for any sequence of turns before the deadline. The events it writes are exactly those recorded after the
      header's sequence at the last turn it takes, in order. It writes complete exactly if its last turn finds the
      session, terminal, with a latest event that is not beyond the last one written; then complete is the last message,
      its number is one more, and no turn before found the same. Only then does it stop early. */
  method StreamRun(header: int, polls: seq<Poll>) returns (out: seq<Message>, turns: nat, ghost last: int)
    requires Growing(polls)
    ensures turns <= |polls| && (turns == 0 <==> polls == []) && (turns == 0 ==> out == [])
    ensures turns > 0 ==> forall id :: RunEvent(id) in out <==> id in polls[turns - 1].log && id > header
    ensures forall i, j :: 0 <= i < j < |out| && out[j].RunEvent? ==> out[i].RunEvent? && out[i].id < out[j].id
    ensures (last == header || RunEvent(last) in out) && forall id :: RunEvent(id) in out ==> id <= last
    ensures forall i :: 0 <= i < |out| && out[i].Complete? ==> i == |out| - 1 && out[i].id == last + 1
    ensures (exists i :: 0 <= i < |out| && out[i].Complete?) <==>
      && turns > 0
      && polls[turns - 1].session.Some? && polls[turns - 1].session.value.terminal
      && polls[turns - 1].session.value.latest <= last
    ensures turns < |polls| ==> exists i :: 0 <= i < |out| && out[i].Complete?
    ensures forall k :: 0 <= k < turns - 1 && polls[k].session.Some? && polls[k].session.value.terminal ==>
      && header < polls[k].session.value.latest
      && forall id :: id in polls[k].log ==> id < polls[k].session.value.latest
  {
    out, turns, last := RunLoop(header, polls);
    if turns > 0 {
      StreamIsExact(header, polls, turns, out, last);
    }
    forall k | 0 <= k < turns - 1 ensures !Ends(polls, k, header) {
      EndsExactly(polls, k, header);
    }
    forall k | 0 <= k < turns - 1 && polls[k].session.Some? && polls[k].session.value.terminal
      ensures header < polls[k].session.value.latest
      ensures forall id :: id in polls[k].log ==> id < polls[k].session.value.latest
    {
      EndsExactly(polls, k, header);
    }
  }

  method RunLoop(header: int, polls: seq<Poll>) returns (out: seq<Message>, turns: nat, ghost last: int)
    requires Growing(polls)
    ensures turns <= |polls| && (turns == 0 <==> polls == []) && last == LastOf(Sent(polls, turns, header), header)
    ensures forall k :: 0 <= k < turns - 1 ==> !Ends(polls, k, header)
    ensures turns < |polls| ==> turns > 0 && Ends(polls, turns - 1, header)
    ensures out == AsEvents(Sent(polls, turns, header))
      + if turns > 0 && Ends(polls, turns - 1, header) then [Complete(last + 1)] else []
  {
    out, turns := [], 0;
    var lastId := header;
    last := header;
    while turns < |polls|
      invariant turns <= |polls| && (polls != [] && turns == 0 ==> turns < |polls|)
      invariant out == AsEvents(Sent(polls, turns, header)) && lastId == LastOf(Sent(polls, turns, header), header)
      invariant forall k :: 0 <= k < turns ==> !Ends(polls, k, header)
    {
      NextTurn(polls, turns, header);
      var over;
      out, lastId, over := TakeTurn(out, lastId, polls[turns]);
      turns := turns + 1;
      if over {
        out := out + [Complete(lastId + 1)];
        last := lastId;
        return;
      }
    }
    last := lastId;
  }

  // ---- connections that come and go ----

  /** A connection on the server side: the sequence it has passed, and the events it has listed and not yet written. */
  datatype Conn = Conn(last: int, pending: seq<int>, listed: bool)

  /** The recorded events, the session's cursor, and one client. The wire holds what is written and not yet received:
      run events, then perhaps complete, after which the server writes nothing. The cursor at the time complete was
      written is remembered. */
  datatype Sys = Sys(
    log: seq<int>,
    latest: int,
    terminal: bool,
    conn: Option<Conn>,
    wire: seq<int>,
    closing: Option<int>,
    received: seq<int>,
    done: Option<int>,
    sentFor: int)

  datatype Event =
    | Append(id: int)
    | Advance(to: int)
    | SetTerminal(terminal: bool)
    | Connect
    | ListEvents
    | WriteNext
    | CheckRun
    | Deliver
    | Lose

  const START := Sys([], 0, false, None, [], None, [], None, 0)

  /** A client that has received nothing sends no identifier, which counts as zero. */
  function LastEventId(s: Sys): int { LastOf(s.received, 0) }

  function ClosingTurn(s: Sys, c: Conn): Sys {
    if s.terminal && c.last >= s.latest then s.(conn := None, closing := Some(c.last + 1), sentFor := s.latest)
    else s.(conn := Some(c.(listed := false)))
  }

  /** A new sequence number is positive and greater than all before; the cursor follows recorded events and never goes
      back; a lost connection loses what is on the wire; a client that has received complete stays away. */
  function Step(s: Sys, e: Event): Sys {
    match e
    case Append(id) => if id > LastOf(s.log, 0) then s.(log := s.log + [id]) else s
    case Advance(to) => if to >= s.latest && to in s.log then s.(latest := to) else s
    case SetTerminal(terminal) => s.(terminal := terminal)
    case Connect =>
      if s.conn == None && s.wire == [] && s.closing == None && s.done == None
      then s.(conn := Some(Conn(LastEventId(s), [], false)))
      else s
    case ListEvents =>
      if s.conn.Some? && !s.conn.value.listed
      then s.(conn := Some(Conn(s.conn.value.last, After(s.log, s.conn.value.last), true)))
      else s
    case WriteNext =>
      if s.conn.Some? && s.conn.value.pending != []
      then
        var id := s.conn.value.pending[0];
        s.(conn := Some(Conn(id, s.conn.value.pending[1..], true)), wire := s.wire + [id])
      else s
    case CheckRun =>
      if s.conn.Some? && s.conn.value.listed && s.conn.value.pending == [] then ClosingTurn(s, s.conn.value) else s
    case Deliver =>
      if s.wire != [] then s.(wire := s.wire[1..], received := s.received + [s.wire[0]])
      else if s.closing.Some? then s.(closing := None, done := s.closing)
      else s
    case Lose => s.(conn := None, wire := [], closing := None)
  }

  function Run(events: seq<Event>): Sys
    decreases |events|
  {
    if events == [] then START else Step(Run(events[..|events| - 1]), events[|events| - 1])
  }

  // ---- one turn of the loop, step by step ----

  /** The same event some number of times. */
  function Repeat(s: Sys, e: Event, n: nat): Sys
    decreases n
  {
    if n == 0 then s else Repeat(Step(s, e), e, n - 1)
  }

  lemma {:induction false} WritesAll(s: Sys, last: int, pending: seq<int>)
    requires s.conn == Some(Conn(last, pending, true))
    ensures Repeat(s, WriteNext, |pending|) ==
      s.(conn := Some(Conn(LastOf(pending, last), [], true)), wire := s.wire + pending)
    decreases |pending|
  {
    if pending == [] {
      assert s.wire + pending == s.wire;
    } else {
      WritesAll(Step(s, WriteNext), pending[0], pending[1..]);
      assert s.wire + [pending[0]] + pending[1..] == s.wire + pending;
    }
  }

  lemma {:induction false} DeliversAll(s: Sys)
    ensures Repeat(s, Deliver, |s.wire|) == s.(wire := [], received := s.received + s.wire)
    decreases |s.wire|
  {
    if s.wire == [] {
      assert s.received + s.wire == s.received;
    } else {
      DeliversAll(Step(s, Deliver));
      assert s.received + [s.wire[0]] + s.wire[1..] == s.received + s.wire;
    }
  }

  /** List, write what was listed one by one, look at the session. */
  function Turn(s: Sys): Sys {
    var listed := Step(s, ListEvents);
    Step(Repeat(listed, WriteNext, if listed.conn.Some? then |listed.conn.value.pending| else 0), CheckRun)
  }

  /** A turn of the loop is a run of steps: it writes what TakeTurn writes, from the same log, remembers the same last
      number, and closes the stream exactly when TakeTurn says that it is over. */
  lemma {:induction false} TurnIsTheLoop(s: Sys, c: Conn, more: seq<int>, last: int)
    requires s.conn == Some(c) && !c.listed && c.pending == []
    requires more == After(s.log, c.last) && last == LastOf(more, c.last)
    ensures Turn(s) ==
      if s.terminal && s.latest <= last
      then s.(wire := s.wire + more, conn := None, closing := Some(last + 1), sentFor := s.latest)
      else s.(wire := s.wire + more, conn := Some(Conn(last, [], false)))
  {
    WritesAll(Step(s, ListEvents), c.last, more);
  }

  /** What the store does, and how a connection is lost. */
  lemma StoreMoves(s: Sys, id: int, terminal: bool)
    ensures id > LastOf(s.log, 0) ==> Step(s, Append(id)) == s.(log := s.log + [id])
    ensures id <= LastOf(s.log, 0) ==> Step(s, Append(id)) == s
    ensures Step(s, Advance(id)) == if id in s.log && id >= s.latest then s.(latest := id) else s
    ensures Step(s, SetTerminal(terminal)) == s.(terminal := terminal)
    ensures Step(s, Lose) == s.(conn := None, wire := [], closing := None)
  {
  }

  // ---- the invariant ----

  /** Nothing the cursor named when complete was written lies beyond the first n events. */
  ghost predicate Covers(s: Sys, n: nat) {
    forall i :: n <= i < |s.log| ==> s.log[i] > s.sentFor
  }

  ghost predicate LogInv(s: Sys) {
    && Ascending(s.log) && (forall i :: 0 <= i < |s.log| ==> s.log[i] > 0)
    && s.sentFor <= s.latest <= LastOf(s.log, 0)
  }

  ghost predicate ConnInv(s: Sys) {
    s.conn.Some? ==>
      && s.closing == None && s.done == None
      && s.conn.value.last == LastOf(s.received + s.wire, 0)
      && s.received + s.wire + s.conn.value.pending <= s.log
      && (!s.conn.value.listed ==> s.conn.value.pending == [])
  }

  ghost predicate EndInv(s: Sys) {
    && (s.closing.Some? ==>
          && s.conn == None && s.done == None
          && s.closing == Some(LastOf(s.received + s.wire, 0) + 1) && Covers(s, |s.received + s.wire|))
    && (s.done.Some? ==>
          && s.conn == None && s.closing == None && s.wire == []
          && s.done == Some(LastOf(s.received, 0) + 1) && Covers(s, |s.received|))
  }

  ghost predicate Inv(s: Sys) {
    LogInv(s) && s.received + s.wire <= s.log && ConnInv(s) && EndInv(s)
  }

  lemma AppendKeepsInv(s: Sys, id: int)
    requires Inv(s)
    ensures Inv(Step(s, Append(id)))
  {
    var s' := Step(s, Append(id));
    if s' != s {
      assert s' == s.(log := s.log + [id]);
      LongerLog(s, id);
      assert ConnInv(s') && EndInv(s');
    }
  }

  lemma LongerLog(s: Sys, id: int)
    requires LogInv(s) && id > LastOf(s.log, 0)
    ensures LogInv(s.(log := s.log + [id]))
  {
    assert forall i :: 0 <= i < |s.log| ==> s.log[i] <= LastOf(s.log, 0);
  }

  lemma LastIsGreatest(log: seq<int>, id: int)
    requires Ascending(log) && id in log
    ensures id <= LastOf(log, 0)
  {
    var i :| 0 <= i < |log| && log[i] == id;
    if i < |log| - 1 {
      assert log[i] < log[|log| - 1];
    }
  }

  lemma AdvanceKeepsInv(s: Sys, to: int)
    requires Inv(s)
    ensures Inv(Step(s, Advance(to)))
  {
    var s' := Step(s, Advance(to));
    if s' != s {
      LastIsGreatest(s.log, to);
      assert s' == s.(latest := to);
      assert LogInv(s') && ConnInv(s') && EndInv(s');
    }
  }

  lemma ListKeepsInv(s: Sys)
    requires Inv(s)
    ensures Inv(Step(s, ListEvents))
  {
    if s.conn.Some? && !s.conn.value.listed {
      var sent := s.received + s.wire;
      assert s.log[..|sent|] == sent;
      assert IsCut(s.log, LastOf(sent, 0), |sent|);
      AfterCut(s.log, LastOf(sent, 0), |sent|);
      assert sent + s.log[|sent|..] == s.log;
    }
  }

  lemma WriteKeepsInv(s: Sys)
    requires Inv(s)
    ensures Inv(Step(s, WriteNext))
  {
    if s.conn.Some? && s.conn.value.pending != [] {
      var pending := s.conn.value.pending;
      assert s.received + (s.wire + [pending[0]]) == s.received + s.wire + [pending[0]];
      assert s.received + s.wire + [pending[0]] + pending[1..] == s.received + s.wire + pending;
    }
  }

  lemma CheckKeepsInv(s: Sys)
    requires Inv(s)
    ensures Inv(Step(s, CheckRun))
  {
    if s.conn.Some? && s.terminal && s.conn.value.last >= s.latest {
      var sent := s.received + s.wire;
      forall i | |sent| <= i < |s.log| ensures s.log[i] > s.latest {
        if sent != [] {
          assert sent[|sent| - 1] == s.log[|sent| - 1] < s.log[i];
        }
      }
    }
  }

  lemma {:induction false} DeliverKeepsInv(s: Sys)
    requires Inv(s)
    ensures Inv(Step(s, Deliver))
  {
    if s.wire != [] {
      assert s.received + [s.wire[0]] + s.wire[1..] == s.received + s.wire;
    } else {
      assert s.received + s.wire == s.received;
    }
  }

  lemma {:induction false} StepKeepsInv(s: Sys, e: Event)
    requires Inv(s)
    ensures Inv(Step(s, e))
  {
    match e
    case Append(id) => AppendKeepsInv(s, id);
    case Advance(to) => AdvanceKeepsInv(s, to);
    case SetTerminal(terminal) =>
    case Connect => assert s.received + [] + [] == s.received;
    case ListEvents => ListKeepsInv(s);
    case WriteNext => WriteKeepsInv(s);
    case CheckRun => CheckKeepsInv(s);
    case Deliver => DeliverKeepsInv(s);
    case Lose => assert s.received + [] == s.received;
  }

  lemma {:induction false} RunKeepsInv(events: seq<Event>)
    ensures Inv(Run(events))
    decreases |events|
  {
    if events != [] {
      RunKeepsInv(events[..|events| - 1]);
      StepKeepsInv(Run(events[..|events| - 1]), events[|events| - 1]);
    }
  }

  /** Main result: whatever is appended and however often the connection is lost and resumed, the client has received
      the recorded events from the first on, in order, with no gap and no repeat; and if it has received complete, then
      it has received every event up to the session's cursor of that time. */
  lemma {:induction false} ClientSeesTheLog(events: seq<Event>)
    ensures var s := Run(events);
      && s.received <= s.log
      && (forall i, j :: 0 <= i < j < |s.received| ==> s.received[i] < s.received[j])
      && (s.done.Some? ==>
            && s.done == Some(LastOf(s.received, 0) + 1)
            && forall i :: 0 <= i < |s.log| && s.log[i] <= s.sentFor ==> i < |s.received| && s.received[i] == s.log[i])
  {
    RunKeepsInv(events);
    ReceivedIsPrefix(Run(events));
  }

  lemma ReceivedIsPrefix(s: Sys)
    requires Inv(s)
    ensures s.received <= s.log && Ascending(s.received)
    ensures s.done.Some? ==>
      && s.done == Some(LastOf(s.received, 0) + 1)
      && forall i :: 0 <= i < |s.log| && s.log[i] <= s.sentFor ==> i < |s.received| && s.received[i] == s.log[i]
  {
    assert s.received + s.wire <= s.log;
    assert forall i :: 0 <= i < |s.received| ==> s.log[i] == (s.received + s.wire)[i] == s.received[i];
  }

  /** Complete is written exactly when a connection that has written all it listed looks at a terminal session whose
      cursor it has reached; and then every event up to the cursor is on the wire or received. */
  lemma CompleteOnlyWhenOver(s: Sys, e: Event)
    requires Inv(s) && s.closing == None
    ensures Step(s, e).closing.Some? <==>
      && e == CheckRun && s.conn.Some? && s.conn.value.listed && s.conn.value.pending == []
      && s.terminal && s.latest <= s.conn.value.last
    ensures Step(s, e).closing.Some? ==>
      forall i :: 0 <= i < |s.log| && s.log[i] <= s.latest ==> s.log[i] in s.received + s.wire
  {
    if Step(s, e).closing.Some? {
      CheckKeepsInv(s);
      var sent := s.received + s.wire;
      forall i | 0 <= i < |s.log| && s.log[i] <= s.latest ensures s.log[i] in sent {
        assert i < |sent| && sent[i] == s.log[i];
      }
    }
  }

  lemma RestOfPrefix(log: seq<int>, received: seq<int>, last: int)
    requires Ascending(log) && (forall i :: 0 <= i < |log| ==> log[i] > 0) && received <= log
    requires last == LastOf(received, 0)
    ensures received + After(log, last) == log && LastOf(After(log, last), last) == LastOf(log, 0)
  {
    var rest := log[|received|..];
    BeyondPrefix(log, received);
    AfterCut(log, last, |received|);
    assert log == received + rest;
    LastOfAppend(received, rest, 0);
  }

  /** A client that comes back is sent what it has not received. */
  lemma ConnectedTurn(s: Sys, connected: Sys, turned: Sys, more: seq<int>, last: int)
    requires Inv(s) && s.conn == None && s.wire == [] && s.closing == None && s.done == None
    requires connected == s.(conn := Some(Conn(LastOf(s.received, 0), [], false)))
    requires more == After(s.log, LastOf(s.received, 0)) && last == LastOf(more, LastOf(s.received, 0))
    requires turned == if s.terminal && s.latest <= last
      then connected.(wire := connected.wire + more, conn := None, closing := Some(last + 1), sentFor := s.latest)
      else connected.(wire := connected.wire + more, conn := Some(Conn(last, [], false)))
    ensures turned.log == s.log && turned.received == s.received && turned.done == None
    ensures turned.received + turned.wire == s.log && last == LastOf(s.log, 0)
    ensures s.terminal ==> turned.closing == Some(LastOf(s.log, 0) + 1)
    ensures !s.terminal ==> turned.closing == None && turned.conn == Some(Conn(LastOf(s.log, 0), [], false))
  {
    assert s.received + s.wire == s.received;
    RestOfPrefix(s.log, s.received, LastOf(s.received, 0));
    assert connected.wire + more == more;
  }

  /** Main result on progress: wherever a run has got to, a client without a connection that comes back and is not
      disturbed receives the whole log in one turn; and if the session is terminal, it receives complete. */
  lemma {:induction false} UndisturbedClientSeesAll(s: Sys, turned: Sys, s': Sys)
    requires Inv(s) && s.conn == None && s.wire == [] && s.closing == None && s.done == None
    requires turned == Turn(Step(s, Connect))
    requires s' == Step(Repeat(turned, Deliver, |turned.wire|), Deliver)
    ensures s'.received == s.log && s'.log == s.log
    ensures s.terminal ==> s'.done == Some(LastOf(s.log, 0) + 1)
    ensures !s.terminal ==> s'.done == None && s'.conn == Some(Conn(LastOf(s.log, 0), [], false))
  {
    var from := LastOf(s.received, 0);
    var connected, more := s.(conn := Some(Conn(from, [], false))), After(s.log, from);
    TurnIsTheLoop(connected, Conn(from, [], false), more, LastOf(more, from));
    ConnectedTurn(s, connected, turned, more, LastOf(more, from));
    DeliversAll(turned);
  }

  /** In a log of positive ascending numbers, everything after a prefix lies above the prefix. */
  lemma BeyondPrefix(log: seq<int>, received: seq<int>)
    requires Ascending(log) && (forall i :: 0 <= i < |log| ==> log[i] > 0) && received <= log
    ensures forall i :: 0 <= i < |received| ==> log[i] <= LastOf(received, 0)
    ensures forall i :: |received| <= i < |log| ==> log[i] >= LastOf(received, 0) + 1
  {
    assert forall i :: 0 <= i < |received| ==> log[i] == received[i];
    if received != [] {
      var last := |received| - 1;
      assert forall i :: 0 <= i < last ==> log[i] < log[last];
      assert forall i :: last < i < |log| ==> log[last] < log[i];
    }
  }

  lemma AfterTaken(log: seq<int>, received: seq<int>, id: int)
    requires Ascending(log) && (forall i :: 0 <= i < |log| ==> log[i] > 0) && received <= log
    requires id == LastOf(received, 0) + 1 && id in log
    ensures |received| < |log| && log[|received|] == id && After(log, id) == log[|received| + 1..]
  {
    BeyondPrefix(log, received);
    var n := |received|;
    var at :| 0 <= at < |log| && log[at] == id;
    assert n <= at < |log|;
    assert forall i :: n < i < |log| ==> log[n] < log[i];
    assert log[n] == id;
    AfterCut(log, id, n + 1);
  }

  lemma AfterFree(log: seq<int>, received: seq<int>, id: int)
    requires Ascending(log) && (forall i :: 0 <= i < |log| ==> log[i] > 0) && received <= log
    requires id == LastOf(received, 0) + 1 && id !in log
    ensures After(log, id) == log[|received|..]
  {
    BeyondPrefix(log, received);
    AfterCut(log, id, |received|);
  }

  lemma {:induction false} RestOfLog(log: seq<int>, received: seq<int>, id: int)
    requires Ascending(log) && (forall i :: 0 <= i < |log| ==> log[i] > 0) && received <= log
    requires id == LastOf(received, 0) + 1
    ensures received + After(log, id) == log <==> id !in log
    ensures id in log ==> received + [id] + After(log, id) == log
  {
    assert received == log[..|received|];
    if id in log {
      AfterTaken(log, received, id);
      assert |received + After(log, id)| < |log|;
    } else {
      AfterFree(log, received, id);
    }
  }

  lemma DoneFacts(s: Sys, id: int)
    requires Inv(s) && s.done == Some(id)
    ensures s.received <= s.log && id == LastOf(s.received, 0) + 1
    ensures Ascending(s.log) && forall i :: 0 <= i < |s.log| ==> s.log[i] > 0
  {
    assert s.received + s.wire == s.received;
  }

  /** Resuming with the number of a received complete gives the rest of the log exactly when no event has taken that
      number; otherwise that one event is missed and no other. */
  lemma ResumingPastCompleteExactly(s: Sys, id: int)
    requires Inv(s) && s.done == Some(id)
    ensures s.received + After(s.log, id) == s.log <==> id !in s.log
    ensures id in s.log ==> s.received + [id] + After(s.log, id) == s.log
  {
    DoneFacts(s, id);
    RestOfLog(s.log, s.received, id);
  }

  lemma RunOn(events: seq<Event>, e: Event)
    ensures Run(events + [e]) == Step(Run(events), e)
  {
    assert (events + [e])[..|events|] == events;
  }

  /** A run in which an event takes the number of complete: the run is over before it has any event, the client receives
      complete with number one, and then the first event is recorded. */
  function LateEvent(): seq<Event> {
    [] + [SetTerminal(true)] + [Connect] + [ListEvents] + [CheckRun] + [Deliver] + [Append(1)]
  }

  lemma LateEventIsMissed()
    ensures var s := Run(LateEvent()); s.done == Some(1) && s.log == [1] && s.received == [] && After(s.log, 1) == []
  {
    var e1 := [] + [SetTerminal(true)];
    var e2 := e1 + [Connect];
    var e3 := e2 + [ListEvents];
    var e4 := e3 + [CheckRun];
    var e5 := e4 + [Deliver];
    RunOn([], SetTerminal(true));
    RunOn(e1, Connect);
    RunOn(e2, ListEvents);
    RunOn(e3, CheckRun);
    RunOn(e4, Deliver);
    RunOn(e5, Append(1));
    assert [1][1..] == [];
  }
}
