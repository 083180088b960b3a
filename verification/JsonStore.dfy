/** One locked read-change-write of a JSON file, in place. */
module JsonStore {
  import opened Values

  type Payload = map<string, Value>

  datatype Parsed = Invalid | Other | Object(payload: Payload)

  /** JSON text is printed and parsed by functions this model leaves abstract. */
  datatype Codec = Codec(serialize: Payload -> string, parse: string -> Parsed)

  /** What is assumed of them: printed objects parse back, and printed text is never blank. */
  ghost predicate RoundTrips(codec: Codec) {
    forall p: Payload :: PrintsBack(codec, p)
  }

  ghost predicate PrintsBack(codec: Codec, p: Payload) {
    codec.parse(codec.serialize(p)) == Object(p) && !Blank(codec.serialize(p))
  }

  datatype Error = InvalidJson | WriteFailed

  /** What entering remembers: the payload, its printed form, and whether the file was there. */
  datatype Entered = Entered(payload: Payload, serialized: string, existed: bool)

  function Raw(file: Option<string>): string {
    if file.Some? then file.value else ""
  }

  function Read(codec: Codec, file: Option<string>): Result<Entered, Error> {
    var raw := Raw(file);
    if Blank(raw) then Ok(Entered(map[], "", file.Some?))
    else
      match codec.parse(raw)
      case Invalid => Err(InvalidJson)
      case Other => Ok(Entered(map[], codec.serialize(map[]), true))
      case Object(p) => Ok(Entered(p, codec.serialize(p), true))
  }

  /** The content of the file: missing, blank and non-object files are empty objects; invalid JSON has none. */
  function Decode(codec: Codec, file: Option<string>): Option<Payload> {
    match Read(codec, file)
    case Ok(e) => Some(e.payload)
    case Err(_) => None
  }

  /** Read in full: no file, a file of white space and a file that holds something other than an object are empty
      objects; an object is itself; text that does not parse has no content. */
  lemma DecodesExactly(codec: Codec, text: string)
    ensures Decode(codec, None) == Some(map[])
    ensures (forall i :: 0 <= i < |text| ==> IsSpace(text[i])) ==> Decode(codec, Some(text)) == Some(map[])
    ensures (exists i :: 0 <= i < |text| && !IsSpace(text[i])) ==>
      Decode(codec, Some(text)) ==
        if codec.parse(text).Invalid? then None
        else if codec.parse(text).Other? then Some(map[])
        else Some(codec.parse(text).payload)
  {
  }

  predicate Writes(codec: Codec, e: Entered, payload: Payload) {
    codec.serialize(payload) != e.serialized && (e.existed || payload != map[])
  }

  /** The short cut never loses an update: a write is skipped exactly when the file already decodes to the new payload,
      except that an existing blank file is always filled. */
  lemma SkipsExactly(codec: Codec, file: Option<string>, payload: Payload)
    requires RoundTrips(codec) && Read(codec, file).Ok?
    ensures !Writes(codec, Read(codec, file).value, payload) <==> (
      && Decode(codec, file) == Some(payload)
      && (file == None || exists i :: 0 <= i < |file.value| && !IsSpace(file.value[i])))
  {
    var e := Read(codec, file).value;
    assert PrintsBack(codec, payload) && PrintsBack(codec, e.payload);
  }

  /** A written file decodes to what was written. */
  lemma WrittenDecodes(codec: Codec, payload: Payload)
    requires RoundTrips(codec)
    ensures Decode(codec, Some(codec.serialize(payload))) == Some(payload)
  {
    assert PrintsBack(codec, payload);
  }

  /** How a body ends: with a payload, or by raising. */
  datatype Outcome = Finished(payload: Payload) | Raised

  /** The file after a with-block, when nothing fails while writing. */
  function AfterBlock(codec: Codec, file: Option<string>, body: Payload -> Outcome): Option<string> {
    match Read(codec, file)
    case Err(_) => file
    case Ok(e) =>
      match body(e.payload)
      case Raised => file
      case Finished(p) => if Writes(codec, e, p) then Some(codec.serialize(p)) else file
  }

  /** A with-block changes the decoded content as its body says, and a body that raises changes nothing. */
  lemma BlockApplies(codec: Codec, file: Option<string>, body: Payload -> Outcome)
    requires RoundTrips(codec)
    ensures Decode(codec, file) == None || body(Decode(codec, file).value) == Raised ==>
      AfterBlock(codec, file, body) == file
    ensures Decode(codec, file).Some? && body(Decode(codec, file).value).Finished? ==>
      Decode(codec, AfterBlock(codec, file, body)) == Some(body(Decode(codec, file).value).payload)
  {
    if Decode(codec, file).Some? && body(Decode(codec, file).value).Finished? {
      var p := body(Decode(codec, file).value).payload;
      SkipsExactly(codec, file, p);
      WrittenDecodes(codec, p);
    }
  }

  // ---- in place ----

  /** A directory with one data file, its lock, and temporary files by number. */
  class Disk {
    var file: Option<string>
    var locked: bool
    var temps: map<nat, string>

    constructor (content: Option<string>)
      ensures file == content && !locked && temps == map[]
    {
      file, locked, temps := content, false, map[];
    }
  }

  /** How the operating system treats a write: the temporary name, how many characters each call takes, and the call
      that fails. */
  datatype Faults = Faults(temp: nat, chunk: nat -> nat, failsAt: Option<nat>, replaceFails: bool)

  /** What the first calls calls write, each at least one character. */
  function Written(chunk: nat -> nat, calls: nat): nat {
    if calls == 0 then 0 else Written(chunk, calls - 1) + (if chunk(calls - 1) == 0 then 1 else chunk(calls - 1))
  }

  lemma {:induction false} WrittenGrows(chunk: nat -> nat, fewer: nat, more: nat)
    requires fewer <= more
    ensures Written(chunk, fewer) <= Written(chunk, more)
  {
    if fewer < more {
      WrittenGrows(chunk, fewer, more - 1);
    }
  }

  /** Everything is written before a call fails, and the replacement does not fail. */
  predicate WriteSucceeds(f: Faults, size: nat) {
    !f.replaceFails && (f.failsAt == None || Written(f.chunk, f.failsAt.value) >= size)
  }

  /** Writes the text to a temporary file piece by piece and puts that file in place of the data file. The data file
      changes as a whole or not at all, and the temporary file is gone either way. */
  method AtomicWrite(disk: Disk, serialized: string, f: Faults) returns (ok: bool)
    requires f.temp !in disk.temps
    modifies disk`file, disk`temps
    ensures disk.temps == old(disk.temps)
    ensures disk.file == if ok then Some(serialized) else old(disk.file)
    ensures ok <==> !f.replaceFails && (f.failsAt == None || Written(f.chunk, f.failsAt.value) >= |serialized|)
  {
    ok := true;
    disk.temps := disk.temps[f.temp := ""];
    var written, calls := 0, 0;
    while written < |serialized| && ok
      invariant written <= |serialized|
      invariant disk.temps == old(disk.temps)[f.temp := serialized[..written]]
      invariant disk.file == old(disk.file)
      invariant ok ==>
        written == if Written(f.chunk, calls) <= |serialized| then Written(f.chunk, calls) else |serialized|
      invariant ok && f.failsAt.Some? ==> calls <= f.failsAt.value || Written(f.chunk, f.failsAt.value) >= |serialized|
      invariant !ok ==> f.failsAt.Some? && Written(f.chunk, f.failsAt.value) < |serialized|
      decreases |serialized| - written, ok
    {
      var n := f.chunk(calls);
      n := if n == 0 then 1 else n;
      if f.failsAt == Some(calls) {
        ok := false;
      }
      written := if written + n <= |serialized| then written + n else |serialized|;
      calls := calls + 1;
      disk.temps := disk.temps[f.temp := serialized[..written]];
    }
    if f.failsAt.Some? && calls <= f.failsAt.value {
      WrittenGrows(f.chunk, calls, f.failsAt.value);
    }
    if ok && !f.replaceFails {
      assert serialized[..written] == serialized;
      disk.file := Some(disk.temps[f.temp]);
      disk.temps := disk.temps - {f.temp};
    } else {
      ok := false;
    }
    if f.temp in disk.temps {
      disk.temps := disk.temps - {f.temp};
    }
  }

  class LockedJsonFile {
    const codec: Codec
    const disk: Disk
    var handle: bool
    var payload: Payload
    var serializedOnEnter: string
    var fileExisted: bool

    constructor (codec: Codec, disk: Disk)
      ensures this.codec == codec && this.disk == disk && !handle
    {
      this.codec, this.disk := codec, disk;
      handle, payload, serializedOnEnter, fileExisted := false, map[], "", false;
    }

    /** Entered, and the body has not yet left. */
    ghost predicate Holding(e: Entered)
      reads this, disk
    {
      handle && disk.locked && serializedOnEnter == e.serialized && fileExisted == e.existed
    }

    /** Takes the lock and reads. Invalid JSON raises while the lock is held. */
    method Enter() returns (r: Result<Payload, Error>)
      requires !handle && !disk.locked
      modifies this, disk`locked
      ensures handle && disk.locked
      ensures match Read(codec, disk.file)
        case Ok(e) => r == Ok(e.payload) && payload == e.payload && Holding(e)
        case Err(e) => r == Err(e)
      ensures disk.file == None ==> r == Ok(map[])
      ensures disk.file.Some? && (forall i :: 0 <= i < |disk.file.value| ==> IsSpace(disk.file.value[i])) ==>
        r == Ok(map[])
      ensures disk.file.Some? && (exists i :: 0 <= i < |disk.file.value| && !IsSpace(disk.file.value[i])) ==>
        r == match codec.parse(disk.file.value)
          case Invalid => Err(InvalidJson)
          case Other => Ok(map[])
          case Object(p) => Ok(p)
    {
      handle, disk.locked := true, true;
      fileExisted := disk.file.Some?;
      var raw := if fileExisted then disk.file.value else "";
      if Blank(raw) {
        payload := map[];
        serializedOnEnter := "";
      } else {
        var parsed := codec.parse(raw);
        if parsed.Invalid? {
          return Err(InvalidJson);
        }
        payload := if parsed.Object? then parsed.payload else map[];
        serializedOnEnter := codec.serialize(payload);
      }
      r := Ok(payload);
    }

    /** Writes the payload unless the body raised or there is nothing new, and always gives the lock back. */
    method Exit(raised: bool, f: Faults, ghost e: Entered) returns (ok: bool)
      requires handle ==> Holding(e) && f.temp !in disk.temps
      modifies this`handle, disk
      ensures !old(handle) ==> ok && disk.file == old(disk.file) && disk.locked == old(disk.locked)
      ensures old(handle) ==> !handle && !disk.locked
      ensures disk.temps == old(disk.temps)
      ensures old(handle) ==>
        disk.file ==
          if !raised && Writes(codec, e, payload) && ok then Some(codec.serialize(payload)) else old(disk.file)
      ensures ok <==> (old(handle) && !raised && Writes(codec, e, payload) ==>
        WriteSucceeds(f, |codec.serialize(payload)|))
    {
      ok := true;
      if !handle {
        return;
      }
      if !raised {
        var serialized := codec.serialize(payload);
        if serialized != serializedOnEnter && (fileExisted || payload != map[]) {
          ok := AtomicWrite(disk, serialized, f);
        }
      }
      disk.locked, handle := false, false;
    }

    /** A whole with-block around a body: the file ends as the block says, or as it was if writing failed. */
    method With(body: Payload -> Outcome, f: Faults) returns (error: Option<Error>)
      requires !handle && !disk.locked && f.temp !in disk.temps
      modifies this, disk
      ensures disk.temps == old(disk.temps)
      ensures disk.file ==
        if error == Some(WriteFailed) then old(disk.file) else AfterBlock(codec, old(disk.file), body)
      ensures error == Some(InvalidJson) <==> Decode(codec, old(disk.file)) == None
      ensures disk.locked <==> error == Some(InvalidJson)
      ensures error == Some(WriteFailed) <==>
        match Read(codec, old(disk.file))
        case Err(_) => false
        case Ok(e) =>
          match body(e.payload)
          case Raised => false
          case Finished(p) => Writes(codec, e, p) && !WriteSucceeds(f, |codec.serialize(p)|)
    {
      var entered := Enter();
      if entered.Err? {
        return Some(entered.error);
      }
      ghost var e := Read(codec, disk.file).value;
      var outcome := body(payload);
      if outcome.Finished? {
        payload := outcome.payload;
      }
      var ok := Exit(outcome.Raised?, f, e);
      error := if ok then None else Some(WriteFailed);
    }
  }
}
