/** From source records to dataset rows: own records once each, cleaned, cut into chunks, five rows a chunk. */
module Refinery {
  import opened Values
  import opened Text

  datatype Record = Record(
    tenant: string,
    source: string,
    content: string,
    provenance: string,
    timestamp: string,
    license: string,
    tools: seq<string>,
    outcome: string,
    auditOnly: bool)

  /** What two records must share to be the same record. */
  datatype Key = Key(tenant: string, source: string, content: string, provenance: string)

  /** The given pointer, or the place of the record in the input when the pointer is empty. */
  datatype Pointer = Given(text: string) | Numbered(index: nat)

  datatype Normalized = Normalized(
    id: string,
    tenant: string,
    source: string,
    chunks: seq<string>,
    redacted: bool,
    pointer: Pointer,
    timestamp: string,
    license: string,
    tools: seq<string>,
    outcome: string,
    auditOnly: bool)

  datatype RowType = Sft | PreferencePair | RlTrajectory | EvalCase | RedTeamCase

  const TYPES := [Sft, PreferencePair, RlTrajectory, EvalCase, RedTeamCase]

  /** The parts of a payload that come from the record; fixed texts are left to the constructor. */
  datatype Payload =
    | SftPayload(context: string, response: string, tools: seq<string>)
    | PreferencePayload(chosen: string, outcome: string)
    | TrajectoryPayload(
        context: string, tools: seq<string>, toApproval: bool, outcome: string, manifest: string, rewarded: bool)
    | EvalPayload(context: string, source: string, calls: seq<string>, needsApproval: bool)
    | RedTeamPayload(context: string)

  datatype Row = Row(
    rowType: RowType,
    payload: Payload,
    tenant: string,
    source: string,
    timestamp: string,
    redacted: bool,
    license: string,
    pointer: Pointer,
    chunk: nat,
    excluded: bool)

  datatype Error = SecretInRow

  /** Tenant, chunk size, and the functions this model leaves abstract: the digest of a record, redaction with its
      changed flag, the label of an outcome, the expected response, and whether a payload still shows a secret. */
  datatype Setup = Setup(
    tenant: string,
    chunkChars: nat,
    digest: Key -> string,
    redact: string -> (string, bool),
    labelOf: Record -> string,
    response: string -> string,
    secret: Payload -> bool)

  ghost predicate Usable(setup: Setup) {
    setup.chunkChars > 0 && forall k: Key, l: Key :: setup.digest(k) == setup.digest(l) ==> k == l
  }

  function KeyOf(r: Record): Key { Key(r.tenant, r.source, r.content, r.provenance) }

  function Normalize(setup: Setup, r: Record, index: nat): Normalized
    requires setup.chunkChars > 0
  {
    var (text, changed) := setup.redact(r.content);
    Normalized(setup.digest(KeyOf(r)), r.tenant, r.source, Chunks(text, setup.chunkChars), changed,
      if r.provenance == "" then Numbered(index) else Given(r.provenance),
      r.timestamp, r.license, r.tools, setup.labelOf(r), r.auditOnly)
  }

  /** A normalised record in full: its digest is of tenant, source, content and provenance; its chunks are those of the
      redacted content; its pointer is the given one, or its place in the input if that is empty; the rest is copied. */
  lemma NormalizedInFull(setup: Setup, r: Record, index: nat, n: Normalized)
    requires setup.chunkChars > 0 && n == Normalize(setup, r, index)
    ensures n.id == setup.digest(Key(r.tenant, r.source, r.content, r.provenance))
    ensures n.chunks == Chunks(setup.redact(r.content).0, setup.chunkChars)
    ensures n.redacted == setup.redact(r.content).1 && n.outcome == setup.labelOf(r)
    ensures n.pointer == if r.provenance == "" then Numbered(index) else Given(r.provenance)
    ensures n.tenant == r.tenant && n.source == r.source && n.timestamp == r.timestamp && n.license == r.license
    ensures n.tools == r.tools && n.auditOnly == r.auditOnly
  {
  }

  // ---- which records are accepted ----

  predicate Own(setup: Setup, r: Record) { r.tenant == setup.tenant }

  predicate SeenBefore(setup: Setup, records: seq<Record>, i: nat)
    requires i < |records|
  {
    exists j :: 0 <= j < i && Own(setup, records[j]) && KeyOf(records[j]) == KeyOf(records[i])
  }

  predicate IsFirst(setup: Setup, records: seq<Record>, i: nat)
    requires i < |records|
  {
    Own(setup, records[i]) && !SeenBefore(setup, records, i)
  }

  /** The places of the first own occurrences among the first n records. */
  function Firsts(setup: Setup, records: seq<Record>, n: nat): (at: seq<nat>)
    requires n <= |records|
    ensures forall k :: 0 <= k < |at| ==> at[k] < n
  {
    if n == 0 then []
    else if IsFirst(setup, records, n - 1) then Firsts(setup, records, n - 1) + [n - 1]
    else Firsts(setup, records, n - 1)
  }

  function ForeignCount(setup: Setup, records: seq<Record>): nat {
    if records == [] then 0
    else ForeignCount(setup, records[..|records| - 1]) + if Own(setup, records[|records| - 1]) then 0 else 1
  }

  /** The accepted places are increasing, and exactly those of records of the own tenant that no record of that tenant
      before them equals in source, content and provenance. */
  lemma {:induction false} FirstsAreExact(setup: Setup, records: seq<Record>, n: nat)
    requires n <= |records|
    ensures var at := Firsts(setup, records, n);
      && (forall k, l :: 0 <= k < l < |at| ==> at[k] < at[l])
      && (forall i :: 0 <= i < n ==> (i in at <==>
            && records[i].tenant == setup.tenant
            && forall j :: 0 <= j < i && records[j].tenant == setup.tenant ==>
                 records[j].source != records[i].source || records[j].content != records[i].content
                 || records[j].provenance != records[i].provenance))
  {
    FirstsFollow(setup, records, n);
    forall i | 0 <= i < n
      ensures IsFirst(setup, records, i) <==>
        && records[i].tenant == setup.tenant
        && forall j :: 0 <= j < i && records[j].tenant == setup.tenant ==>
             records[j].source != records[i].source || records[j].content != records[i].content
             || records[j].provenance != records[i].provenance
    {
    }
  }

  lemma {:induction false} FirstsFollow(setup: Setup, records: seq<Record>, n: nat)
    requires n <= |records|
    ensures var at := Firsts(setup, records, n);
      && (forall k, l :: 0 <= k < l < |at| ==> at[k] < at[l])
      && (forall i :: 0 <= i < n ==> (i in at <==> IsFirst(setup, records, i)))
  {
    if n > 0 {
      FirstsFollow(setup, records, n - 1);
    }
  }

  /** Every record of the own tenant has the source, the content and the provenance of an accepted one of that tenant,
      and no two accepted ones agree in all of them. */
  lemma AcceptedCoverOwn(setup: Setup, records: seq<Record>, i: nat, at: seq<nat>)
    requires i < |records| && records[i].tenant == setup.tenant && at == Firsts(setup, records, |records|)
    ensures
      exists j :: j in at && records[j].tenant == records[i].tenant && records[j].source == records[i].source
        && records[j].content == records[i].content && records[j].provenance == records[i].provenance
    ensures forall j, k :: j in at && k in at && j < k ==>
      records[j].tenant == records[k].tenant == setup.tenant && (
        records[j].source != records[k].source || records[j].content != records[k].content
        || records[j].provenance != records[k].provenance)
  {
    FirstsFollow(setup, records, |records|);
    EarliestIsFirst(setup, records, i);
    FirstsAreExact(setup, records, |records|);
  }

  /** Records of other tenants are counted one by one. */
  lemma ForeignOneByOne(setup: Setup, records: seq<Record>, r: Record)
    ensures ForeignCount(setup, []) == 0
    ensures ForeignCount(setup, records + [r]) ==
      ForeignCount(setup, records) + if r.tenant == setup.tenant then 0 else 1
  {
    assert (records + [r])[..|records|] == records;
  }

  lemma {:induction false} EarliestIsFirst(setup: Setup, records: seq<Record>, i: nat)
    requires i < |records| && Own(setup, records[i])
    ensures exists j :: 0 <= j <= i && IsFirst(setup, records, j) && KeyOf(records[j]) == KeyOf(records[i])
  {
    if SeenBefore(setup, records, i) {
      var j :| 0 <= j < i && Own(setup, records[j]) && KeyOf(records[j]) == KeyOf(records[i]);
      EarliestIsFirst(setup, records, j);
    } else {
      assert IsFirst(setup, records, i);
    }
  }

  function NormalizedAt(setup: Setup, records: seq<Record>, at: seq<nat>): (out: seq<Normalized>)
    requires setup.chunkChars > 0 && forall k :: 0 <= k < |at| ==> at[k] < |records|
    ensures |out| == |at| && forall k :: 0 <= k < |at| ==> out[k] == Normalize(setup, records[at[k]], at[k])
  {
    seq(|at|, k requires 0 <= k < |at| => Normalize(setup, records[at[k]], at[k]))
  }

  // ---- rows ----

  function PayloadFor(setup: Setup, t: RowType, chunk: string, r: Normalized, manifest: string): Payload {
    match t
    case Sft => SftPayload(chunk, setup.response(r.outcome), r.tools)
    case PreferencePair => PreferencePayload(setup.response(r.outcome), r.outcome)
    case RlTrajectory =>
      TrajectoryPayload(chunk, r.tools, r.outcome == "needs_review", r.outcome, manifest,
        r.outcome in {"positive", "needs_review"})
    case EvalCase => EvalPayload(chunk, r.source, r.tools, r.outcome == "needs_review")
    case RedTeamCase => RedTeamPayload(chunk)
  }

  function RowFor(setup: Setup, t: RowType, r: Normalized, chunk: nat, manifest: string): Row
    requires chunk < |r.chunks|
  {
    Row(t, PayloadFor(setup, t, r.chunks[chunk], r, manifest), r.tenant, r.source, r.timestamp, r.redacted, r.license,
      r.pointer, chunk, r.auditOnly)
  }

  /** A row in full: what it copies from its record, and its payload by type. */
  lemma RowInFull(setup: Setup, t: RowType, r: Normalized, chunk: nat, manifest: string, row: Row)
    requires chunk < |r.chunks| && row == RowFor(setup, t, r, chunk, manifest)
    ensures row.rowType == t && row.chunk == chunk && row.tenant == r.tenant && row.source == r.source
    ensures row.timestamp == r.timestamp && row.license == r.license && row.pointer == r.pointer
    ensures row.redacted == r.redacted && row.excluded == r.auditOnly
    ensures t == Sft ==> row.payload == SftPayload(r.chunks[chunk], setup.response(r.outcome), r.tools)
    ensures t == PreferencePair ==> row.payload == PreferencePayload(setup.response(r.outcome), r.outcome)
    ensures t == RlTrajectory ==>
      && row.payload.TrajectoryPayload? && row.payload.context == r.chunks[chunk] && row.payload.tools == r.tools
      && row.payload.outcome == r.outcome && row.payload.manifest == manifest
      && (row.payload.toApproval <==> r.outcome == "needs_review")
      && (row.payload.rewarded <==> r.outcome == "positive" || r.outcome == "needs_review")
    ensures t == EvalCase ==>
      && row.payload.EvalPayload? && row.payload.context == r.chunks[chunk] && row.payload.source == r.source
      && row.payload.calls == r.tools && (row.payload.needsApproval <==> r.outcome == "needs_review")
    ensures t == RedTeamCase ==> row.payload == RedTeamPayload(r.chunks[chunk])
  {
  }

  function RowsOfChunk(setup: Setup, r: Normalized, chunk: nat, manifest: string): (rows: seq<Row>)
    requires chunk < |r.chunks|
    ensures |rows| == 5
  {
    seq(5, t requires 0 <= t < 5 => RowFor(setup, TYPES[t], r, chunk, manifest))
  }

  lemma ChunkRowTypes(setup: Setup, r: Normalized, chunk: nat, manifest: string)
    requires chunk < |r.chunks|
    ensures forall t :: 0 <= t < 5 ==> RowsOfChunk(setup, r, chunk, manifest)[t].rowType == TYPES[t]
  {
  }

  /** The rows of the first n chunks of a record. */
  function RowsOfChunks(setup: Setup, r: Normalized, n: nat, manifest: string): seq<Row>
    requires n <= |r.chunks|
  {
    if n == 0 then [] else RowsOfChunks(setup, r, n - 1, manifest) + RowsOfChunk(setup, r, n - 1, manifest)
  }

  function RowsOf(setup: Setup, rs: seq<Normalized>, manifest: string): seq<Row> {
    if rs == [] then []
    else
      var last := rs[|rs| - 1];
      RowsOf(setup, rs[..|rs| - 1], manifest) + RowsOfChunks(setup, last, |last.chunks|, manifest)
  }

  /** Rows come record by record, within a record chunk by chunk, and within a chunk type by type. */
  lemma RowsInOrder(setup: Setup, rs: seq<Normalized>, r: Normalized, n: nat, manifest: string)
    requires n < |r.chunks|
    ensures RowsOf(setup, [], manifest) == [] && RowsOfChunks(setup, r, 0, manifest) == []
    ensures RowsOf(setup, rs + [r], manifest) ==
      RowsOf(setup, rs, manifest) + RowsOfChunks(setup, r, |r.chunks|, manifest)
    ensures RowsOfChunks(setup, r, n + 1, manifest) == RowsOfChunks(setup, r, n, manifest) + [
      RowFor(setup, Sft, r, n, manifest), RowFor(setup, PreferencePair, r, n, manifest),
      RowFor(setup, RlTrajectory, r, n, manifest), RowFor(setup, EvalCase, r, n, manifest),
      RowFor(setup, RedTeamCase, r, n, manifest)]
  {
    assert (rs + [r])[..|rs|] == rs;
    assert RowsOfChunk(setup, r, n, manifest) == [
      RowFor(setup, Sft, r, n, manifest), RowFor(setup, PreferencePair, r, n, manifest),
      RowFor(setup, RlTrajectory, r, n, manifest), RowFor(setup, EvalCase, r, n, manifest),
      RowFor(setup, RedTeamCase, r, n, manifest)];
  }

  function ChunkCount(rs: seq<Normalized>): nat {
    if rs == [] then 0 else ChunkCount(rs[..|rs| - 1]) + |rs[|rs| - 1].chunks|
  }

  function AllChunks(rs: seq<Normalized>): seq<string> {
    if rs == [] then [] else AllChunks(rs[..|rs| - 1]) + rs[|rs| - 1].chunks
  }

  predicate Clear(setup: Setup, rows: seq<Row>) {
    forall i :: 0 <= i < |rows| ==> !setup.secret(rows[i].payload)
  }

  /** Five rows a chunk, of the five types in turn. */
  ghost predicate InFives(rows: seq<Row>, n: nat) {
    |rows| == 5 * n && forall i, t :: 0 <= i < n && 0 <= t < 5 ==> TypeAt(rows, i, t) == Some(TYPES[t])
  }

  function TypeAt(rows: seq<Row>, i: int, t: int): Option<RowType> {
    if 0 <= 5 * i + t < |rows| then Some(rows[5 * i + t].rowType) else None
  }

  lemma FivesAppend(a: seq<Row>, n: nat, b: seq<Row>, m: nat)
    requires InFives(a, n) && InFives(b, m)
    ensures InFives(a + b, n + m)
  {
    forall i, t | 0 <= i < n + m && 0 <= t < 5 ensures TypeAt(a + b, i, t) == Some(TYPES[t]) {
      if i < n {
        assert TypeAt(a, i, t) == Some(TYPES[t]);
      } else {
        assert TypeAt(b, i - n, t) == Some(TYPES[t]);
      }
    }
  }

  lemma {:induction false} ChunksInFives(setup: Setup, r: Normalized, n: nat, manifest: string)
    requires n <= |r.chunks|
    ensures InFives(RowsOfChunks(setup, r, n, manifest), n)
  {
    if n > 0 {
      ChunksInFives(setup, r, n - 1, manifest);
      ChunkRowTypes(setup, r, n - 1, manifest);
      FivesAppend(RowsOfChunks(setup, r, n - 1, manifest), n - 1, RowsOfChunk(setup, r, n - 1, manifest), 1);
    }
  }

  lemma {:induction false} RowsStandInFives(setup: Setup, rs: seq<Normalized>, manifest: string)
    ensures InFives(RowsOf(setup, rs, manifest), ChunkCount(rs))
  {
    if rs != [] {
      var front, last := rs[..|rs| - 1], rs[|rs| - 1];
      RowsStandInFives(setup, front, manifest);
      ChunksInFives(setup, last, |last.chunks|, manifest);
      FivesAppend(RowsOf(setup, front, manifest), ChunkCount(front), RowsOfChunks(setup, last, |last.chunks|, manifest),
        |last.chunks|);
    }
  }

  /** There are exactly five rows per chunk, one of each type, in this order. */
  lemma RowsInFives(setup: Setup, rs: seq<Normalized>, manifest: string, rows: seq<Row>)
    requires rows == RowsOf(setup, rs, manifest)
    ensures |rows| == 5 * |AllChunks(rs)|
    ensures forall i :: 0 <= i < |AllChunks(rs)| ==>
      && rows[5 * i].rowType == Sft && rows[5 * i + 1].rowType == PreferencePair
      && rows[5 * i + 2].rowType == RlTrajectory && rows[5 * i + 3].rowType == EvalCase
      && rows[5 * i + 4].rowType == RedTeamCase
  {
    RowsStandInFives(setup, rs, manifest);
    CountedChunks(rs);
    forall i | 0 <= i < |AllChunks(rs)|
      ensures rows[5 * i].rowType == Sft && rows[5 * i + 1].rowType == PreferencePair
      ensures rows[5 * i + 2].rowType == RlTrajectory && rows[5 * i + 3].rowType == EvalCase
      ensures rows[5 * i + 4].rowType == RedTeamCase
    {
      assert TypeAt(rows, i, 0) == Some(TYPES[0]) && TypeAt(rows, i, 1) == Some(TYPES[1]);
      assert TypeAt(rows, i, 2) == Some(TYPES[2]) && TypeAt(rows, i, 3) == Some(TYPES[3]);
      assert TypeAt(rows, i, 4) == Some(TYPES[4]);
    }
  }

  /** The chunks of all records, one record after another. */
  lemma {:induction false} CountedChunks(rs: seq<Normalized>)
    ensures ChunkCount(rs) == |AllChunks(rs)|
  {
    if rs != [] {
      CountedChunks(rs[..|rs| - 1]);
    }
  }

  lemma ChunksInOrder(rs: seq<Normalized>, r: Normalized)
    ensures AllChunks([]) == [] && AllChunks(rs + [r]) == AllChunks(rs) + r.chunks
  {
    assert (rs + [r])[..|rs|] == rs;
  }

  // ---- files ----

  function OfType(rows: seq<Row>, t: RowType): seq<Row> {
    if rows == [] then []
    else if rows[|rows| - 1].rowType == t then OfType(rows[..|rows| - 1], t) + [rows[|rows| - 1]]
    else OfType(rows[..|rows| - 1], t)
  }

  lemma {:induction false} OfTypeAppend(a: seq<Row>, b: seq<Row>, t: RowType)
    ensures OfType(a + b, t) == OfType(a, t) + OfType(b, t)
  {
    if b == [] {
      assert a + b == a;
    } else {
      assert (a + b)[..|a + b| - 1] == a + b[..|b| - 1];
      OfTypeAppend(a, b[..|b| - 1], t);
    }
  }

  function Place(t: RowType): (i: nat)
    ensures i < 5 && TYPES[i] == t
  {
    match t
    case Sft => 0
    case PreferencePair => 1
    case RlTrajectory => 2
    case EvalCase => 3
    case RedTeamCase => 4
  }

  lemma OfTypeLast(rows: seq<Row>, row: Row, t: RowType)
    ensures OfType(rows + [row], t) == if row.rowType == t then OfType(rows, t) + [row] else OfType(rows, t)
  {
    assert (rows + [row])[..|rows|] == rows;
  }

  lemma {:induction false} NoneOfType(rows: seq<Row>, t: RowType)
    requires forall i :: 0 <= i < |rows| ==> rows[i].rowType != t
    ensures OfType(rows, t) == []
  {
    if rows != [] {
      NoneOfType(rows[..|rows| - 1], t);
    }
  }

  lemma OnlyBetween(front: seq<Row>, row: Row, back: seq<Row>, t: RowType)
    requires OfType(front, t) == [] && row.rowType == t && OfType(back, t) == []
    ensures OfType(front + [row] + back, t) == [row]
  {
    OfTypeLast(front, row, t);
    OfTypeAppend(front + [row], back, t);
  }

  lemma OnlyOfType(rows: seq<Row>, k: nat, t: RowType)
    requires k < |rows| && forall i :: 0 <= i < |rows| ==> (rows[i].rowType == t <==> i == k)
    ensures OfType(rows, t) == [rows[k]]
  {
    NoneOfType(rows[..k], t);
    NoneOfType(rows[k + 1..], t);
    OnlyBetween(rows[..k], rows[k], rows[k + 1..], t);
    assert rows == rows[..k] + [rows[k]] + rows[k + 1..];
  }

  lemma TypeStands(i: nat, t: RowType)
    requires i < 5
    ensures TYPES[i] == t <==> i == Place(t)
  {
    assert TYPES[0] == Sft && TYPES[1] == PreferencePair && TYPES[2] == RlTrajectory && TYPES[3] == EvalCase;
  }

  lemma OneOfEach(rows: seq<Row>, t: RowType)
    requires |rows| == 5 && forall i :: 0 <= i < 5 ==> rows[i].rowType == TYPES[i]
    ensures OfType(rows, t) == [rows[Place(t)]]
  {
    forall i | 0 <= i < 5 ensures rows[i].rowType == t <==> i == Place(t) {
      TypeStands(i, t);
    }
    OnlyOfType(rows, Place(t), t);
  }

  lemma OneOfEachType(setup: Setup, r: Normalized, chunk: nat, manifest: string, t: RowType)
    requires chunk < |r.chunks|
    ensures OfType(RowsOfChunk(setup, r, chunk, manifest), t) == [RowFor(setup, t, r, chunk, manifest)]
  {
    ChunkRowTypes(setup, r, chunk, manifest);
    OneOfEach(RowsOfChunk(setup, r, chunk, manifest), t);
  }

  /** The contexts of the rows of one type, in order. */
  function Contexts(rows: seq<Row>, t: RowType): seq<string> {
    if rows == [] then []
    else
      var last := rows[|rows| - 1];
      Contexts(rows[..|rows| - 1], t) + if last.rowType == t then [ContextOf(last.payload)] else []
  }

  /** A preference pair carries no context. */
  function ContextOf(p: Payload): string {
    match p
    case SftPayload(context, _, _) => context
    case PreferencePayload(_, _) => ""
    case TrajectoryPayload(context, _, _, _, _, _) => context
    case EvalPayload(context, _, _, _) => context
    case RedTeamPayload(context) => context
  }

  lemma ContextsOneByOne(rows: seq<Row>, row: Row, t: RowType)
    ensures Contexts([], t) == []
    ensures row.rowType != t ==> Contexts(rows + [row], t) == Contexts(rows, t)
    ensures row.rowType == t && !row.payload.PreferencePayload? ==>
      Contexts(rows + [row], t) == Contexts(rows, t) + [row.payload.context]
  {
    assert (rows + [row])[..|rows|] == rows;
    assert Contexts(rows, t) + [] == Contexts(rows, t);
  }

  lemma {:induction false} ContextsAppend(a: seq<Row>, b: seq<Row>, t: RowType)
    ensures Contexts(a + b, t) == Contexts(a, t) + Contexts(b, t)
  {
    if b == [] {
      assert a + b == a;
    } else {
      assert (a + b)[..|a + b| - 1] == a + b[..|b| - 1];
      ContextsAppend(a, b[..|b| - 1], t);
    }
  }

  /** A file has the contexts of its type. */
  lemma {:induction false} FileContexts(rows: seq<Row>, t: RowType)
    ensures Contexts(OfType(rows, t), t) == Contexts(rows, t)
  {
    if rows != [] {
      var front, last := rows[..|rows| - 1], rows[|rows| - 1];
      FileContexts(front, t);
      if last.rowType == t {
        assert (OfType(front, t) + [last])[..|OfType(front, t)|] == OfType(front, t);
      }
    }
  }

  lemma ContextsOfChunk(setup: Setup, r: Normalized, chunk: nat, manifest: string, t: RowType)
    requires chunk < |r.chunks| && t != PreferencePair
    ensures Contexts(RowsOfChunk(setup, r, chunk, manifest), t) == [r.chunks[chunk]]
  {
    OneOfEachType(setup, r, chunk, manifest, t);
    FileContexts(RowsOfChunk(setup, r, chunk, manifest), t);
    var row := RowFor(setup, t, r, chunk, manifest);
    assert [row][..0] == [] && Contexts([], t) == [];
  }

  lemma OneMoreContext(before: seq<Row>, last: seq<Row>, t: RowType, chunks: seq<string>, n: nat)
    requires n < |chunks| && Contexts(before, t) == chunks[..n] && Contexts(last, t) == [chunks[n]]
    ensures Contexts(before + last, t) == chunks[..n + 1]
  {
    ContextsAppend(before, last, t);
    assert chunks[..n + 1] == chunks[..n] + [chunks[n]];
  }

  lemma {:induction false} ContextsOfRecord(setup: Setup, r: Normalized, n: nat, manifest: string, t: RowType)
    requires n <= |r.chunks| && t != PreferencePair
    ensures Contexts(RowsOfChunks(setup, r, n, manifest), t) == r.chunks[..n]
  {
    if n == 0 {
      assert Contexts([], t) == [];
    } else {
      var before, last := RowsOfChunks(setup, r, n - 1, manifest), RowsOfChunk(setup, r, n - 1, manifest);
      ContextsOfRecord(setup, r, n - 1, manifest, t);
      ContextsOfChunk(setup, r, n - 1, manifest, t);
      OneMoreContext(before, last, t, r.chunks, n - 1);
      assert RowsOfChunks(setup, r, n, manifest) == before + last;
    }
  }

  /** Main result on rows: those of every type but the preference pairs repeat all chunks of all records, in order. */
  lemma {:induction false} ContextsAreChunks(setup: Setup, rs: seq<Normalized>, manifest: string, t: RowType)
    requires t != PreferencePair
    ensures Contexts(RowsOf(setup, rs, manifest), t) == AllChunks(rs)
  {
    if rs != [] {
      var front, last := rs[..|rs| - 1], rs[|rs| - 1];
      ContextsAreChunks(setup, front, manifest, t);
      ContextsOfRecord(setup, last, |last.chunks|, manifest, t);
      ContextsAppend(RowsOf(setup, front, manifest), RowsOfChunks(setup, last, |last.chunks|, manifest), t);
      assert last.chunks[..|last.chunks|] == last.chunks;
    }
  }

  /** Main result on text: the sft contexts of one record, put together, are its redacted content with white space
      normalised: same words, in pieces of at most the chunk size. */
  lemma {:induction false} SftContextsAreTheText(setup: Setup, r: Record, index: nat, manifest: string)
    requires setup.chunkChars > 0
    ensures var text := setup.redact(r.content).0;
      var contexts := Contexts(RowsOf(setup, [Normalize(setup, r, index)], manifest), Sft);
      && Concat(contexts) == Clean(text) && Words(Concat(contexts)) == Words(text)
      && forall i :: 0 <= i < |contexts| ==> |contexts[i]| <= setup.chunkChars
  {
    var n := Normalize(setup, r, index);
    ContextsAreChunks(setup, [n], manifest, Sft);
    assert [n][..0] == [];
    assert AllChunks([n]) == n.chunks;
    ChunksCover(setup.redact(r.content).0, setup.chunkChars);
    CleanKeepsWords(setup.redact(r.content).0);
  }

  // ---- the loops ----

  datatype Report = Report(accepted: nat, rejected: nat, duplicates: nat, chunks: nat, rows: nat)

  method RowsFromNormalized(setup: Setup, rs: seq<Normalized>, manifest: string) returns (r: Result<seq<Row>, Error>)
    ensures r == if Clear(setup, RowsOf(setup, rs, manifest)) then Ok(RowsOf(setup, rs, manifest)) else Err(SecretInRow)
  {
    var rows := [];
    for k := 0 to |rs|
      invariant rows == RowsOf(setup, rs[..k], manifest) && Clear(setup, rows)
    {
      var record := rs[k];
      ghost var before := rows;
      assert rs[..k + 1][..k] == rs[..k];
      for chunk := 0 to |record.chunks|
        invariant rows == before + RowsOfChunks(setup, record, chunk, manifest) && Clear(setup, rows)
      {
        ghost var start := rows;
        for t := 0 to 5
          invariant rows == start + RowsOfChunk(setup, record, chunk, manifest)[..t] && Clear(setup, rows)
        {
          var row := RowFor(setup, TYPES[t], record, chunk, manifest);
          if setup.secret(row.payload) {
            RefusedRow(setup, rs, k, chunk, t, manifest);
            return Err(SecretInRow);
          }
          rows := rows + [row];
        }
        assert RowsOfChunk(setup, record, chunk, manifest)[..5] == RowsOfChunk(setup, record, chunk, manifest);
      }
    }
    assert rs[..|rs|] == rs;
    r := Ok(rows);
  }

  lemma {:induction false} ChunkRowIsIn(setup: Setup, r: Normalized, n: nat, chunk: nat, t: nat, manifest: string)
    requires chunk < n <= |r.chunks| && t < 5
    ensures RowFor(setup, TYPES[t], r, chunk, manifest) in RowsOfChunks(setup, r, n, manifest)
  {
    if chunk < n - 1 {
      ChunkRowIsIn(setup, r, n - 1, chunk, t, manifest);
    } else {
      assert RowsOfChunk(setup, r, chunk, manifest)[t] == RowFor(setup, TYPES[t], r, chunk, manifest);
    }
  }

  lemma {:induction false} RowIsIn(setup: Setup, rs: seq<Normalized>, k: nat, chunk: nat, t: nat, manifest: string)
    requires k < |rs| && chunk < |rs[k].chunks| && t < 5
    ensures RowFor(setup, TYPES[t], rs[k], chunk, manifest) in RowsOf(setup, rs, manifest)
  {
    if k < |rs| - 1 {
      RowIsIn(setup, rs[..|rs| - 1], k, chunk, t, manifest);
    } else {
      ChunkRowIsIn(setup, rs[k], |rs[k].chunks|, chunk, t, manifest);
    }
  }

  lemma RefusedRow(setup: Setup, rs: seq<Normalized>, k: nat, chunk: nat, t: nat, manifest: string)
    requires k < |rs| && chunk < |rs[k].chunks| && t < 5
    requires setup.secret(RowFor(setup, TYPES[t], rs[k], chunk, manifest).payload)
    ensures !Clear(setup, RowsOf(setup, rs, manifest))
  {
    RowIsIn(setup, rs, k, chunk, t, manifest);
  }

  lemma SelectingNext(setup: Setup, records: seq<Record>, i: nat)
    requires setup.chunkChars > 0 && i < |records|
    ensures NormalizedAt(setup, records, Firsts(setup, records, i + 1)) ==
      NormalizedAt(setup, records, Firsts(setup, records, i))
        + if IsFirst(setup, records, i) then [Normalize(setup, records[i], i)] else []
    ensures ForeignCount(setup, records[..i + 1]) ==
      ForeignCount(setup, records[..i]) + if Own(setup, records[i]) then 0 else 1
  {
    assert records[..i + 1][..i] == records[..i];
  }

  /** The records are taken one by one: foreign ones rejected, known ones counted as duplicates, the others kept. */
  method Select(setup: Setup, records: seq<Record>)
    returns (normalized: seq<Normalized>, rejected: nat, duplicates: nat)
    requires Usable(setup)
    ensures normalized == NormalizedAt(setup, records, Firsts(setup, records, |records|))
    ensures rejected == ForeignCount(setup, records)
    ensures |normalized| + rejected + duplicates == |records|
  {
    normalized, rejected, duplicates := [], 0, 0;
    var seen: set<string> := {};
    for i := 0 to |records|
      invariant normalized == NormalizedAt(setup, records, Firsts(setup, records, i))
      invariant rejected == ForeignCount(setup, records[..i])
      invariant |normalized| + rejected + duplicates == i
      invariant forall h :: h in seen <==> Digested(setup, records, i, h)
    {
      var record := records[i];
      SelectingNext(setup, records, i);
      var hash := setup.digest(KeyOf(record));
      SeenIsDigested(setup, records, i);
      if record.tenant != setup.tenant {
        rejected := rejected + 1;
      } else if hash in seen {
        duplicates := duplicates + 1;
      } else {
        seen := seen + {hash};
        normalized := normalized + [Normalize(setup, record, i)];
      }
    }
    assert records[..|records|] == records;
  }

  /** The digest of an own record among the first n. */
  ghost predicate Digested(setup: Setup, records: seq<Record>, n: nat, hash: string)
    requires n <= |records|
  {
    exists j :: 0 <= j < n && Own(setup, records[j]) && setup.digest(KeyOf(records[j])) == hash
  }

  lemma SeenIsDigested(setup: Setup, records: seq<Record>, i: nat)
    requires Usable(setup) && i < |records|
    ensures Digested(setup, records, i, setup.digest(KeyOf(records[i]))) <==> SeenBefore(setup, records, i)
    ensures forall h :: Digested(setup, records, i + 1, h) <==>
      Digested(setup, records, i, h) || (Own(setup, records[i]) && setup.digest(KeyOf(records[i])) == h)
  {
  }

  method CountChunks(rs: seq<Normalized>) returns (chunks: nat)
    ensures chunks == ChunkCount(rs)
  {
    chunks := 0;
    for k := 0 to |rs|
      invariant chunks == ChunkCount(rs[..k])
    {
      assert rs[..k + 1][..k] == rs[..k];
      chunks := chunks + |rs[k].chunks|;
    }
    assert rs[..|rs|] == rs;
  }

  /** Main result on counting: accepted, rejected and duplicate records add up to the input; the accepted ones are the
      first occurrences of distinct own records, in order; and the build fails exactly when some row shows a secret. */
  method Build(setup: Setup, manifest: string, records: seq<Record>)
    returns (r: Result<seq<Row>, Error>, normalized: seq<Normalized>, report: Report)
    requires Usable(setup)
    ensures normalized == NormalizedAt(setup, records, Firsts(setup, records, |records|))
    ensures r ==
      if exists row :: row in RowsOf(setup, normalized, manifest) && setup.secret(row.payload) then Err(SecretInRow)
      else Ok(RowsOf(setup, normalized, manifest))
    ensures report.accepted == |Firsts(setup, records, |records|)| && report.rejected == ForeignCount(setup, records)
    ensures report.accepted + report.rejected + report.duplicates == |records|
    ensures r.Ok? ==> report.chunks == |AllChunks(normalized)| && report.rows == |r.value| == 5 * report.chunks
  {
    var rejected, duplicates;
    normalized, rejected, duplicates := Select(setup, records);
    r := RowsFromNormalized(setup, normalized, manifest);
    var chunks := CountChunks(normalized);
    RowsInFives(setup, normalized, manifest, RowsOf(setup, normalized, manifest));
    CountedChunks(normalized);
    report := Report(|normalized|, rejected, duplicates, chunks, if r.Ok? then |r.value| else 0);
  }

  function FileName(t: RowType): string {
    match t
    case Sft => "sft.jsonl"
    case PreferencePair => "preference_pairs.jsonl"
    case RlTrajectory => "rl_trajectories.jsonl"
    case EvalCase => "eval_cases.jsonl"
    case RedTeamCase => "red_team_cases.jsonl"
  }

  ghost predicate Distinct(name: RowType -> string) {
    forall t: RowType, u: RowType :: name(t) == name(u) ==> t == u
  }

  lemma FileNamesAreDistinct()
    ensures Distinct(FileName)
  {
    forall t: RowType, u: RowType | t != u ensures FileName(t) != FileName(u) {
      assert "sft.jsonl"[0] == 's' && "preference_pairs.jsonl"[0] == 'p' && "eval_cases.jsonl"[0] == 'e';
      assert "rl_trajectories.jsonl"[1] == 'l' && "red_team_cases.jsonl"[1] == 'e';
      assert "rl_trajectories.jsonl"[0] == "red_team_cases.jsonl"[0] == 'r';
    }
  }

  /** There are five files, and each holds exactly the rows of its type, in order. */
  method RowsByOutput(rows: seq<Row>) returns (outputs: map<string, seq<Row>>)
    ensures forall file :: file in outputs <==> file in {
      "sft.jsonl", "preference_pairs.jsonl", "rl_trajectories.jsonl", "eval_cases.jsonl", "red_team_cases.jsonl"}
    ensures outputs["sft.jsonl"] == OfType(rows, Sft)
    ensures outputs["preference_pairs.jsonl"] == OfType(rows, PreferencePair)
    ensures outputs["rl_trajectories.jsonl"] == OfType(rows, RlTrajectory)
    ensures outputs["eval_cases.jsonl"] == OfType(rows, EvalCase)
    ensures outputs["red_team_cases.jsonl"] == OfType(rows, RedTeamCase)
  {
    FileNamesAreDistinct();
    outputs := Distribute(rows, FileName);
    forall file ensures file in outputs <==> file in {
      FileName(Sft), FileName(PreferencePair), FileName(RlTrajectory), FileName(EvalCase), FileName(RedTeamCase)}
    {
    }
    assert Filed(outputs, FileName, rows, Sft) && Filed(outputs, FileName, rows, PreferencePair);
    assert Filed(outputs, FileName, rows, RlTrajectory) && Filed(outputs, FileName, rows, EvalCase);
    assert Filed(outputs, FileName, rows, RedTeamCase);
  }

  ghost predicate Filed(outputs: map<string, seq<Row>>, name: RowType -> string, rows: seq<Row>, t: RowType) {
    name(t) in outputs && outputs[name(t)] == OfType(rows, t)
  }

  lemma FilingOne(outputs: map<string, seq<Row>>, name: RowType -> string, rows: seq<Row>, row: Row, t: RowType)
    requires Distinct(name) && Filed(outputs, name, rows, t) && Filed(outputs, name, rows, row.rowType)
    ensures var file := name(row.rowType); Filed(outputs[file := outputs[file] + [row]], name, rows + [row], t)
  {
    assert (rows + [row])[..|rows|] == rows;
  }

  method Distribute(rows: seq<Row>, name: RowType -> string) returns (outputs: map<string, seq<Row>>)
    requires Distinct(name)
    ensures forall file :: file in outputs <==> exists t: RowType :: name(t) == file
    ensures forall t: RowType :: Filed(outputs, name, rows, t)
  {
    outputs := map[
      name(Sft) := [], name(PreferencePair) := [], name(RlTrajectory) := [], name(EvalCase) := [],
      name(RedTeamCase) := []];
    for i := 0 to |rows|
      invariant forall file :: file in outputs <==> exists t: RowType :: name(t) == file
      invariant forall t: RowType :: Filed(outputs, name, rows[..i], t)
    {
      assert rows[..i + 1] == rows[..i] + [rows[i]];
      var file := name(rows[i].rowType);
      assert Filed(outputs, name, rows[..i], rows[i].rowType);
      ghost var done := rows[..i + 1];
      var filed := outputs[file := outputs[file] + [rows[i]]];
      forall t: RowType ensures Filed(filed, name, done, t) {
        FilingOne(outputs, name, rows[..i], rows[i], t);
      }
      outputs := filed;
    }
    assert rows[..|rows|] == rows;
  }

  function Total(rows: seq<Row>): nat {
    |OfType(rows, Sft)| + |OfType(rows, PreferencePair)| + |OfType(rows, RlTrajectory)| + |OfType(rows, EvalCase)|
      + |OfType(rows, RedTeamCase)|
  }

  /** The files together hold every row exactly once. */
  lemma {:induction false} FilesPartition(rows: seq<Row>)
    ensures Total(rows) == |rows|
    ensures forall row, t :: row in OfType(rows, t) <==> row in rows && row.rowType == t
  {
    if rows != [] {
      var front, last := rows[..|rows| - 1], rows[|rows| - 1];
      FilesPartition(front);
      assert forall row :: row in rows <==> row in front || row == last;
    }
  }
}
