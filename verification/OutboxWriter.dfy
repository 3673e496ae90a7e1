/** Writing outbox entries one by one and in batches, adapters/postgres/outbox_writer.go, and
    journaling the projection topics, adapters/postgres/journaling_outbox_writer.go. */
module OutboxWriter {
  import opened Options
  import opened Statements

  /** `wellFormed` is the verdict of the entry's own validation; `encodable` tells whether its
      metadata, observability and principal can be turned into JSON. */
  datatype Entry = Entry(
    id: string,
    aggregateId: string,
    aggregateType: string,
    eventType: string,
    topic: string,
    payload: seq<int>,
    metadata: seq<int>,
    createdAt: int,
    observability: Value,
    principal: Value,
    occurredAt: int,
    wellFormed: bool,
    encodable: bool)

  const AllZeroUuid := "00000000-0000-0000-0000-000000000000"
  const MaxMetadataBytes := 65536
  const ChunkSize: nat := 5400
  const OutboxCols: nat := 12
  const JournalCols: nat := 11

  predicate IsSpace(c: char) {
    || c in "\t\n\U{B}\U{C}\r \U{85}\U{A0}\U{1680}\U{2028}\U{2029}\U{202F}\U{205F}\U{3000}"
    || '\U{2000}' <= c <= '\U{200A}'
  }

  predicate Blank(s: string) {
    forall i | 0 <= i < |s| :: IsSpace(s[i])
  }

  /** Checked for all entries before anything is written. */
  predicate Acceptable(e: Entry) {
    !Blank(e.id) && e.id != AllZeroUuid && e.wellFormed
  }

  /** Checked when the entry's statement is put together. */
  predicate Encodes(e: Entry) {
    e.encodable && |e.metadata| <= MaxMetadataBytes
  }

  /** The status a row starts with. */
  const Pending := Text("pending")

  function OutboxRow(e: Entry): Row {
    [Text(e.id), Text(e.aggregateId), Text(e.aggregateType), Text(e.eventType), Text(e.topic), Blob(e.payload),
     Blob(e.metadata), Stamp(e.createdAt), Pending, e.observability, e.principal, Stamp(e.occurredAt)]
  }

  function JournalRow(e: Entry): Row {
    [Text(e.id), Text(e.aggregateId), Text(e.aggregateType), Text(e.eventType), Text(e.topic), Blob(e.payload),
     Blob(e.metadata), e.observability, e.principal, Stamp(e.createdAt), Stamp(e.occurredAt)]
  }

  /** The columns as the two statements list them. */
  datatype Column =
    | Id | AggregateId | AggregateType | EventType | Topic | Payload | Metadata
    | CreatedAt | Status | Observability | Principal | OccurredAt

  const OutboxColumns: seq<Column> :=
    [Id, AggregateId, AggregateType, EventType, Topic, Payload, Metadata, CreatedAt, Status, Observability, Principal, OccurredAt]
  const JournalColumns: seq<Column> :=
    [Id, AggregateId, AggregateType, EventType, Topic, Payload, Metadata, Observability, Principal, CreatedAt, OccurredAt]

  /** Both rows list their values in the order of their columns, and agree on every column they
      have in common. */
  lemma JournalAgreesWithOutbox(e: Entry)
    ensures |OutboxRow(e)| == |OutboxColumns| == OutboxCols && |JournalRow(e)| == |JournalColumns| == JournalCols
    ensures forall j, k | 0 <= j < JournalCols && 0 <= k < OutboxCols ::
              JournalColumns[j] == OutboxColumns[k] ==> JournalRow(e)[j] == OutboxRow(e)[k]
  {
  }

  function RowsOf(entries: seq<Entry>): seq<Row> {
    seq(|entries|, i requires 0 <= i < |entries| => OutboxRow(entries[i]))
  }

  /** The primary key, first in the row. */
  function IdOf(r: Row): Value {
    if r == [] then Null else r[0]
  }

  /** Which bytes the server takes for a JSONB column. */
  type Json = seq<int> -> bool

  predicate IsJson(json: Json, v: Value) {
    v.Blob? && json(v.bytes)
  }

  /** The types and NOT NULL constraints of the JSONB columns. */
  predicate ColumnTakes(json: Json, c: Column, v: Value) {
    match c
    case Payload => IsJson(json, v)
    case Metadata => v.Null? || IsJson(json, v)
    case Observability => v.Null? || IsJson(json, v)
    case Principal => IsJson(json, v)
    case _ => true
  }

  predicate Takes(json: Json, columns: seq<Column>, r: Row) {
    |r| == |columns| && forall j | 0 <= j < |r| :: ColumnTakes(json, columns[j], r[j])
  }

  /** What the outbox takes the journal takes. */
  lemma JournalTakes(json: Json, e: Entry)
    requires Takes(json, OutboxColumns, OutboxRow(e))
    ensures Takes(json, JournalColumns, JournalRow(e))
  {
    var r, row := OutboxRow(e), JournalRow(e);
    assert IsJson(json, r[5]) && ColumnTakes(json, Metadata, r[6]) && ColumnTakes(json, Observability, r[9]) && IsJson(json, r[10]);
    forall j | 0 <= j < |row| ensures ColumnTakes(json, JournalColumns[j], row[j]) {
      if JournalColumns[j].Payload? || JournalColumns[j].Metadata? || JournalColumns[j].Observability? || JournalColumns[j].Principal? {
        assert (j == 5 && row[5] == r[5]) || (j == 6 && row[6] == r[6]) || (j == 7 && row[7] == r[9]) || (j == 8 && row[8] == r[10]);
      }
    }
  }

  /** INSERT without conflict clause: all rows or none. */
  predicate Fits(json: Json, table: seq<Row>, rows: seq<Row>) {
    && (forall i | 0 <= i < |rows| :: Takes(json, OutboxColumns, rows[i]))
    && (forall i, j | 0 <= i < |table| && 0 <= j < |rows| :: IdOf(table[i]) != IdOf(rows[j]))
    && (forall i, j | 0 <= i < j < |rows| :: IdOf(rows[i]) != IdOf(rows[j]))
  }

  // ------------------------------------------------------------------
  // The simple form
  // ------------------------------------------------------------------

  /** Writes one entry, or fails. */
  function WriteOne(json: Json, table: seq<Row>, e: Entry): Option<seq<Row>> {
    if Acceptable(e) && Encodes(e) && Fits(json, table, [OutboxRow(e)]) then Some(table + [OutboxRow(e)]) else None
  }

  /** Writes the entries in order; fails at the first that fails. */
  function WriteEach(json: Json, table: seq<Row>, entries: seq<Entry>): Option<seq<Row>>
    decreases |entries|
  {
    if entries == [] then Some(table)
    else
      var next := WriteOne(json, table, entries[0]);
      if next.None? then None else WriteEach(json, next.value, entries[1..])
  }

  // ------------------------------------------------------------------
  // The batch
  // ------------------------------------------------------------------

  /** GoError: the writer gave up before the statement; the transaction can go on. ServerError: the
      statement was refused, and the transaction is aborted. */
  datatype Outcome = Written | GoError | ServerError

  predicate AllEncode(chunk: seq<Entry>) {
    forall i | 0 <= i < |chunk| :: Encodes(chunk[i])
  }

  predicate ChunkFits(json: Json, table: seq<Row>, chunk: seq<Entry>) {
    AllEncode(chunk) && Fits(json, table, RowsOf(chunk))
  }

  function ChunkEnd(n: nat): nat {
    if ChunkSize < n then ChunkSize else n
  }

  /** A chunk is encoded as a whole before its statement is executed. */
  function ChunkOutcome(json: Json, table: seq<Row>, chunk: seq<Entry>): Outcome {
    if !AllEncode(chunk) then GoError
    else if Fits(json, table, RowsOf(chunk)) then Written
    else ServerError
  }

  /** Chunk after chunk until one does not fit: what is then in the table, and how it ended. */
  function WriteChunks(json: Json, table: seq<Row>, entries: seq<Entry>): (seq<Row>, Outcome)
    decreases |entries|
  {
    if entries == [] then (table, Written)
    else
      var k := ChunkEnd(|entries|);
      if ChunkFits(json, table, entries[..k]) then WriteChunks(json, table + RowsOf(entries[..k]), entries[k..])
      else (table, ChunkOutcome(json, table, entries[..k]))
  }

  function WriteAll(json: Json, table: seq<Row>, entries: seq<Entry>): (seq<Row>, Outcome) {
    if forall i | 0 <= i < |entries| :: Acceptable(entries[i]) then WriteChunks(json, table, entries) else (table, GoError)
  }

  /** A transaction's view of the two tables. */
  class Tx {
    const json: Json
    var outbox: seq<Row>
    var journal: seq<Journaled>
    var nextSeq: nat

    constructor (json: Json, outbox: seq<Row>, journal: seq<Journaled>, nextSeq: nat)
      ensures this.json == json && this.outbox == outbox && this.journal == journal && this.nextSeq == nextSeq
    {
      this.json := json;
      this.outbox := outbox;
      this.journal := journal;
      this.nextSeq := nextSeq;
    }

    /** Executes an INSERT into outbox_entries. */
    method ExecOutbox(text: seq<Token>, args: seq<Value>) returns (ok: bool)
      modifies this`outbox
      ensures var rows := Proposed(text, args);
              && (ok <==> rows.Some? && Fits(json, old(outbox), rows.value))
              && outbox == if ok then old(outbox) + rows.value else old(outbox)
    {
      var rows := Proposed(text, args);
      ok := rows.Some? && Fits(json, outbox, rows.value);
      if ok {
        outbox := outbox + rows.value;
      }
    }

    /** Executes an INSERT … ON CONFLICT (id) DO NOTHING into projection_events. */
    method ExecJournal(text: seq<Token>, args: seq<Value>) returns (ok: bool)
      modifies this`journal, this`nextSeq
      ensures var rows := Proposed(text, args);
              && (ok <==> rows.Some? && forall i | 0 <= i < |rows.value| :: Takes(json, JournalColumns, rows.value[i]))
              && (journal, nextSeq) == if ok then JournalEach(old(journal), old(nextSeq), rows.value) else (old(journal), old(nextSeq))
    {
      var rows := Proposed(text, args);
      ok := rows.Some? && forall i | 0 <= i < |rows.value| :: Takes(json, JournalColumns, rows.value[i]);
      if ok {
        var out := JournalEach(journal, nextSeq, rows.value);
        journal, nextSeq := out.0, out.1;
      }
    }
  }

  // ------------------------------------------------------------------
  // One entry, in columns
  // ------------------------------------------------------------------

  /** White space as Unicode lists it. */
  ghost predicate WhiteSpace(c: char) {
    var n := c as int;
    || 9 <= n <= 13 || n == 32 || n == 133 || n == 160 || n == 5760 || 8192 <= n <= 8202
    || n == 8232 || n == 8233 || n == 8239 || n == 8287 || n == 12288
  }

  /** What the writer asks of every entry before anything is written. */
  ghost predicate Sound(e: Entry) {
    && e.wellFormed && e.id != "00000000-0000-0000-0000-000000000000"
    && exists i | 0 <= i < |e.id| :: !WhiteSpace(e.id[i])
  }

  /** And when its statement is put together. */
  ghost predicate Writable(e: Entry) {
    Sound(e) && e.encodable && |e.metadata| <= 64 * 1024
  }

  /** What the server asks of the JSONB columns: payload and principal are not null. */
  ghost predicate JsonFits(json: Json, e: Entry) {
    && json(e.payload) && json(e.metadata)
    && (e.observability == Null || (e.observability.Blob? && json(e.observability.bytes)))
    && e.principal.Blob? && json(e.principal.bytes)
  }

  /** The row of an entry, in the order of the INSERT's columns; it starts out pending. */
  ghost predicate IsRowOf(e: Entry, r: Row) {
    && |r| == 12
    && r[0] == Text(e.id) && r[1] == Text(e.aggregateId) && r[2] == Text(e.aggregateType) && r[3] == Text(e.eventType)
    && r[4] == Text(e.topic) && r[5] == Blob(e.payload) && r[6] == Blob(e.metadata) && r[7] == Stamp(e.createdAt)
    && r[8] == Text("pending") && r[9] == e.observability && r[10] == e.principal && r[11] == Stamp(e.occurredAt)
  }

  lemma RowInColumns(e: Entry)
    ensures IsRowOf(e, OutboxRow(e))
  {
  }

  lemma WritableInColumns(e: Entry)
    ensures Acceptable(e) <==> Sound(e)
    ensures Acceptable(e) && Encodes(e) <==> Writable(e)
  {
    assert forall i | 0 <= i < |e.id| :: IsSpace(e.id[i]) <==> WhiteSpace(e.id[i]);
  }

  lemma TakesInColumns(json: Json, e: Entry)
    ensures Takes(json, OutboxColumns, OutboxRow(e)) <==> JsonFits(json, e)
  {
    var r := OutboxRow(e);
    if JsonFits(json, e) {
      forall j | 0 <= j < |r| ensures ColumnTakes(json, OutboxColumns[j], r[j]) {
        if OutboxColumns[j].Payload? || OutboxColumns[j].Metadata? || OutboxColumns[j].Observability? || OutboxColumns[j].Principal? {
          assert j == 5 || j == 6 || j == 9 || j == 10;
        }
      }
    }
    if Takes(json, OutboxColumns, r) {
      assert ColumnTakes(json, OutboxColumns[5], r[5]) && ColumnTakes(json, OutboxColumns[6], r[6]);
      assert ColumnTakes(json, OutboxColumns[9], r[9]) && ColumnTakes(json, OutboxColumns[10], r[10]);
    }
  }

  ghost predicate NewId(table: seq<Row>, id: string) {
    forall i | 0 <= i < |table| :: table[i] == [] || table[i][0] != Text(id)
  }

  lemma OneInColumns(json: Json, table: seq<Row>, e: Entry)
    ensures WriteOne(json, table, e).Some? <==> Writable(e) && JsonFits(json, e) && NewId(table, e.id)
  {
    WritableInColumns(e);
    TakesInColumns(json, e);
    assert IdOf(OutboxRow(e)) == Text(e.id);
    var rows := [OutboxRow(e)];
    assert Fits(json, table, rows) <==> Takes(json, OutboxColumns, rows[0]) && forall i | 0 <= i < |table| :: IdOf(table[i]) != IdOf(rows[0]);
  }

  /** One entry, one statement: the row is added exactly if the entry can be written, its JSON is
      taken and its id is new; otherwise nothing changes. */
  method Write(tx: Tx, e: Entry) returns (ok: bool)
    modifies tx`outbox
    ensures ok <==> Writable(e) && JsonFits(tx.json, e) && NewId(old(tx.outbox), e.id)
    ensures !ok ==> tx.outbox == old(tx.outbox)
    ensures ok ==> exists r :: IsRowOf(e, r) && tx.outbox == old(tx.outbox) + [r]
    ensures ok == WriteOne(tx.json, old(tx.outbox), e).Some? && (ok ==> tx.outbox == WriteOne(tx.json, old(tx.outbox), e).value)
  {
    OneInColumns(tx.json, tx.outbox, e);
    RowInColumns(e);
    ok := WriteRow(tx, e);
    assert IsRowOf(e, OutboxRow(e));
  }

  method WriteRow(tx: Tx, e: Entry) returns (ok: bool)
    modifies tx`outbox
    ensures var next := WriteOne(tx.json, old(tx.outbox), e);
            ok == next.Some? && tx.outbox == if ok then next.value else old(tx.outbox)
  {
    if !Acceptable(e) || !Encodes(e) {
      return false;
    }
    var text, args := Render([OutboxRow(e)], OutboxCols);
    RenderedIsRead([OutboxRow(e)], OutboxCols);
    ok := tx.ExecOutbox(text, args);
  }

  /** One chunk, one statement; never more parameters than the server takes. */
  method WriteBatchChunk(tx: Tx, chunk: seq<Entry>) returns (out: Outcome)
    requires 0 < |chunk| <= ChunkSize
    modifies tx`outbox
    ensures out == ChunkOutcome(tx.json, old(tx.outbox), chunk)
    ensures out.Written? <==> ChunkFits(tx.json, old(tx.outbox), chunk)
    ensures tx.outbox == if out.Written? then old(tx.outbox) + RowsOf(chunk) else old(tx.outbox)
  {
    var ok, rows := EncodeRows(chunk);
    if !ok {
      return GoError;
    }
    var text, args := Render(rows, OutboxCols);
    RenderedIsRead(rows, OutboxCols);
    ok := tx.ExecOutbox(text, args);
    out := if ok then Written else ServerError;
  }

  /** Encodes entry after entry, up to the first that cannot be encoded. */
  method EncodeRows(chunk: seq<Entry>) returns (ok: bool, rows: seq<Row>)
    ensures ok <==> AllEncode(chunk)
    ensures ok ==> rows == RowsOf(chunk)
  {
    rows := [];
    for i := 0 to |chunk|
      invariant forall j | 0 <= j < i :: Encodes(chunk[j])
      invariant rows == RowsOf(chunk)[..i]
    {
      if !Encodes(chunk[i]) {
        return false, rows;
      }
      rows := rows + [OutboxRow(chunk[i])];
    }
    ok := true;
  }

  method WriteBatch(tx: Tx, entries: seq<Entry>) returns (out: Outcome)
    modifies tx`outbox
    ensures (tx.outbox, out) == WriteAll(tx.json, old(tx.outbox), entries)
    ensures (exists i | 0 <= i < |entries| :: !Sound(entries[i])) ==> out == GoError && tx.outbox == old(tx.outbox)
  {
    forall i | 0 <= i < |entries| ensures Acceptable(entries[i]) <==> Sound(entries[i]) {
      WritableInColumns(entries[i]);
    }
    for i := 0 to |entries|
      invariant forall j | 0 <= j < i :: Acceptable(entries[j])
      invariant tx.outbox == old(tx.outbox)
    {
      if !Acceptable(entries[i]) {
        return GoError;
      }
    }
    var offset := 0;
    assert entries[0..] == entries;
    while offset < |entries|
      invariant 0 <= offset <= |entries|
      invariant WriteChunks(tx.json, tx.outbox, entries[offset..]) == WriteChunks(tx.json, old(tx.outbox), entries)
    {
      var rest := entries[offset..];
      var k := ChunkEnd(|rest|);
      out := WriteBatchChunk(tx, rest[..k]);
      if !out.Written? {
        return;
      }
      offset := offset + k;
      assert rest[k..] == entries[offset..];
    }
    return Written;
  }

  // ------------------------------------------------------------------
  // The batch agrees with the simple form
  // ------------------------------------------------------------------

  /** All entries pass, and their ids are new and distinct. */
  predicate AllFit(json: Json, table: seq<Row>, entries: seq<Entry>) {
    && (forall i | 0 <= i < |entries| :: Acceptable(entries[i]) && Encodes(entries[i]))
    && Fits(json, table, RowsOf(entries))
  }

  lemma RowsSplit(entries: seq<Entry>, k: nat)
    requires k <= |entries|
    ensures RowsOf(entries) == RowsOf(entries[..k]) + RowsOf(entries[k..])
  {
  }

  lemma FitsSplit(json: Json, table: seq<Row>, a: seq<Row>, b: seq<Row>)
    ensures Fits(json, table, a + b) <==> Fits(json, table, a) && Fits(json, table + a, b)
  {
    if Fits(json, table, a + b) {
      forall i | 0 <= i < |a| ensures Takes(json, OutboxColumns, a[i]) {
        assert (a + b)[i] == a[i];
      }
      forall i | 0 <= i < |b| ensures Takes(json, OutboxColumns, b[i]) {
        assert (a + b)[|a| + i] == b[i];
      }
      forall i, j | 0 <= i < j < |a| ensures IdOf(a[i]) != IdOf(a[j]) {
        assert (a + b)[i] == a[i] && (a + b)[j] == a[j];
      }
      forall i, j | 0 <= i < |table| && 0 <= j < |a| ensures IdOf(table[i]) != IdOf(a[j]) {
        assert (a + b)[j] == a[j];
      }
      forall i, j | 0 <= i < |table + a| && 0 <= j < |b| ensures IdOf((table + a)[i]) != IdOf(b[j]) {
        assert (a + b)[|a| + j] == b[j];
        assert i >= |table| ==> (a + b)[i - |table|] == (table + a)[i];
      }
      forall i, j | 0 <= i < j < |b| ensures IdOf(b[i]) != IdOf(b[j]) {
        assert (a + b)[|a| + i] == b[i] && (a + b)[|a| + j] == b[j];
      }
    }
    if Fits(json, table, a) && Fits(json, table + a, b) {
      forall i, j | 0 <= i < |table| && 0 <= j < |a + b| ensures IdOf(table[i]) != IdOf((a + b)[j]) {
        assert (table + a)[i] == table[i];
      }
      forall i, j | 0 <= i < j < |a + b| ensures IdOf((a + b)[i]) != IdOf((a + b)[j]) {
        assert i < |a| ==> (table + a)[|table| + i] == (a + b)[i];
      }
    }
  }

  lemma AllFitFirst(json: Json, table: seq<Row>, entries: seq<Entry>)
    requires entries != []
    ensures var one := OutboxRow(entries[0]);
            && (AllFit(json, table, entries)
                <==> Acceptable(entries[0]) && Encodes(entries[0]) && Fits(json, table, [one]) && AllFit(json, table + [one], entries[1..]))
            && table + RowsOf(entries) == table + [one] + RowsOf(entries[1..])
  {
    var one := OutboxRow(entries[0]);
    RowsSplit(entries, 1);
    assert RowsOf(entries[..1]) == [one];
    FitsSplit(json, table, [one], RowsOf(entries[1..]));
    assert forall i | 0 < i < |entries| :: entries[i] == entries[1..][i - 1];
  }

  lemma {:induction false} EachIs(json: Json, table: seq<Row>, entries: seq<Entry>)
    ensures WriteEach(json, table, entries) == if AllFit(json, table, entries) then Some(table + RowsOf(entries)) else None
    decreases |entries|
  {
    if entries == [] {
      assert RowsOf(entries) == [] && table + [] == table;
    } else {
      AllFitFirst(json, table, entries);
      EachIs(json, table + [OutboxRow(entries[0])], entries[1..]);
    }
  }

  lemma EncodesSplit(entries: seq<Entry>, k: nat)
    requires k <= |entries|
    ensures AllEncode(entries) <==> AllEncode(entries[..k]) && AllEncode(entries[k..])
  {
    if AllEncode(entries[k..]) {
      assert forall i | k <= i < |entries| :: entries[i] == entries[k..][i - k];
    }
    assert forall i | 0 <= i < k :: entries[..k][i] == entries[i];
  }

  lemma ChunkFitsSplit(json: Json, table: seq<Row>, entries: seq<Entry>, k: nat)
    requires k <= |entries|
    ensures ChunkFits(json, table, entries) <==> ChunkFits(json, table, entries[..k]) && ChunkFits(json, table + RowsOf(entries[..k]), entries[k..])
    ensures table + RowsOf(entries) == table + RowsOf(entries[..k]) + RowsOf(entries[k..])
  {
    RowsSplit(entries, k);
    EncodesSplit(entries, k);
    FitsSplit(json, table, RowsOf(entries[..k]), RowsOf(entries[k..]));
  }

  lemma {:induction false} ChunksAre(json: Json, table: seq<Row>, entries: seq<Entry>)
    ensures var out := WriteChunks(json, table, entries);
            && (out.1.Written? <==> ChunkFits(json, table, entries))
            && (out.1.Written? ==> out.0 == table + RowsOf(entries))
    decreases |entries|
  {
    if entries == [] {
      assert RowsOf(entries) == [] && table + [] == table;
    } else {
      var k := ChunkEnd(|entries|);
      ChunkFitsSplit(json, table, entries, k);
      ChunksAre(json, table + RowsOf(entries[..k]), entries[k..]);
    }
  }

  /** A batch succeeds exactly when writing the entries one by one does, and then leaves the same
      rows in the same order. */
  lemma BatchIsOneByOne(json: Json, table: seq<Row>, entries: seq<Entry>)
    ensures var (out, how) := WriteAll(json, table, entries);
            && (how.Written? <==> WriteEach(json, table, entries).Some?)
            && (how.Written? ==> WriteEach(json, table, entries) == Some(out))
  {
    EachIs(json, table, entries);
    ChunksAre(json, table, entries);
  }

  // ------------------------------------------------------------------
  // A failed batch
  // ------------------------------------------------------------------

  /** The first chunk that does not fit starts here. */
  function FailsFrom(json: Json, table: seq<Row>, entries: seq<Entry>): (k: nat)
    ensures k <= |entries|
    decreases |entries|
  {
    if entries == [] then 0
    else
      var k := ChunkEnd(|entries|);
      if ChunkFits(json, table, entries[..k]) then k + FailsFrom(json, table + RowsOf(entries[..k]), entries[k..]) else 0
  }

  lemma {:induction false} ChunksBeforeFailure(json: Json, table: seq<Row>, entries: seq<Entry>)
    ensures WriteChunks(json, table, entries).0 == table + RowsOf(entries[..FailsFrom(json, table, entries)])
    decreases |entries|
  {
    if entries != [] {
      var k := ChunkEnd(|entries|);
      if ChunkFits(json, table, entries[..k]) {
        var a, b := entries[..k], entries[k..];
        var n := FailsFrom(json, table + RowsOf(a), b);
        ChunksBeforeFailure(json, table + RowsOf(a), b);
        RowsSplit(entries[..k + n], k);
        assert entries[..k + n][..k] == a && entries[..k + n][k..] == b[..n];
      } else {
        assert RowsOf(entries[..0]) == [];
      }
    }
  }

  /** A failed batch leaves the table alone if and only if some entry is unacceptable or the
      first chunk already does not fit. */
  lemma FailedBatchWritesNothing(json: Json, table: seq<Row>, entries: seq<Entry>)
    requires !WriteAll(json, table, entries).1.Written?
    ensures WriteAll(json, table, entries).0 == table
       <==> ((exists i | 0 <= i < |entries| :: !Acceptable(entries[i])) || !ChunkFits(json, table, entries[..ChunkEnd(|entries|)]))
  {
    ChunksBeforeFailure(json, table, entries);
    if forall i | 0 <= i < |entries| :: Acceptable(entries[i]) {
      var k := ChunkEnd(|entries|);
      assert entries != [];
      assert |RowsOf(entries[..FailsFrom(json, table, entries)])| == FailsFrom(json, table, entries);
    }
  }

  /** {} */
  const Braces: seq<int> := [123, 125]

  /** "k":"a…a" with a one-letter key and a value of 4095 letters. */
  function Pair(i: nat): seq<int> {
    [34, 97 + i, 34, 58, 34] + seq(4095, j => 97) + [34]
  }

  function Pairs(n: nat): seq<int> {
    if n == 0 then [] else if n == 1 then Pair(0) else Pairs(n - 1) + [44] + Pair(n - 1)
  }

  lemma {:induction false} PairsLength(n: nat)
    requires n > 0
    ensures |Pairs(n)| == 4102 * n - 1
    decreases n
  {
    if n > 1 {
      PairsLength(n - 1);
    }
  }

  /** Sixteen pairs: 65536 bytes of keys and values, which the entry's own validation allows, and
      65633 bytes of JSON, which the writer does not. */
  function WideMetadata(): seq<int> {
    [123] + Pairs(16) + [125]
  }

  /** An entry nothing is wrong with but, if asked for, the size of its encoded metadata. */
  function Sample(i: nat, oversize: bool): Entry {
    Entry(Ids(i), "order-1", "order", "created", "orders", Braces, if oversize then WideMetadata() else Braces,
          1, Null, Blob(Braces), 1, true, true)
  }

  /** Four decimal digits. */
  function Ids(i: nat): string {
    ['e', Digit(i / 1000 % 10), Digit(i / 100 % 10), Digit(i / 10 % 10), Digit(i % 10)]
  }

  function Digit(d: nat): char
    requires d < 10
  {
    "0123456789"[d]
  }

  lemma DigitsDiffer(d: nat, e: nat)
    requires d < 10 && e < 10 && Digit(d) == Digit(e)
    ensures d == e
  {
  }

  lemma IdsDiffer(i: nat, j: nat)
    requires i < 10000 && j < 10000 && Ids(i) == Ids(j)
    ensures i == j
  {
    var s, t := Ids(i), Ids(j);
    assert s[1] == t[1] && s[2] == t[2] && s[3] == t[3] && s[4] == t[4];
    DigitsDiffer(i / 1000 % 10, j / 1000 % 10);
    DigitsDiffer(i / 100 % 10, j / 100 % 10);
    DigitsDiffer(i / 10 % 10, j / 10 % 10);
    DigitsDiffer(i % 10, j % 10);
    Decimal(i);
    Decimal(j);
  }

  lemma Decimal(i: nat)
    requires i < 10000
    ensures i == 1000 * (i / 1000 % 10) + 100 * (i / 100 % 10) + 10 * (i / 10 % 10) + i % 10
  {
    LastDigit(i);
    LastDigit(i / 10);
    LastDigit(i / 100);
    assert i / 10 / 10 == i / 100 && i / 100 / 10 == i / 1000;
  }

  lemma LastDigit(i: nat)
    ensures i == 10 * (i / 10) + i % 10
  {
  }

  /** One entry more than a chunk holds, the last one with metadata that is too large. */
  function Oversized(): seq<Entry> {
    seq(ChunkSize + 1, i requires 0 <= i => Sample(i, i == ChunkSize))
  }

  lemma SampleFine(json: Json, i: nat, oversize: bool)
    requires json(Braces)
    ensures Acceptable(Sample(i, oversize)) && (Encodes(Sample(i, oversize)) <==> !oversize)
    ensures IdOf(OutboxRow(Sample(i, oversize))) == Text(Ids(i))
    ensures !oversize ==> Takes(json, OutboxColumns, OutboxRow(Sample(i, oversize)))
  {
    IdFine(i);
    TooWide();
    if !oversize {
      EntryTaken(json, Sample(i, false));
    }
  }

  lemma IdFine(i: nat)
    ensures !Blank(Ids(i)) && Ids(i) != AllZeroUuid
  {
    assert Ids(i)[0] == 'e' && !IsSpace('e') && AllZeroUuid[0] == '0';
  }

  lemma TooWide()
    ensures |WideMetadata()| == 65633 > MaxMetadataBytes
  {
    PairsLength(16);
  }

  lemma EntryTaken(json: Json, e: Entry)
    requires json(e.payload) && json(e.metadata) && e.observability.Null? && IsJson(json, e.principal)
    ensures Takes(json, OutboxColumns, OutboxRow(e))
  {
    forall j | 0 <= j < |OutboxRow(e)| ensures ColumnTakes(json, OutboxColumns[j], OutboxRow(e)[j]) {
      if OutboxColumns[j].Payload? || OutboxColumns[j].Metadata? || OutboxColumns[j].Observability? || OutboxColumns[j].Principal? {
        assert j == 5 || j == 6 || j == 9 || j == 10;
      }
    }
  }

  lemma FirstChunkFits(json: Json, a: seq<Entry>)
    requires json(Braces) && |a| <= 10000 && forall i | 0 <= i < |a| :: a[i] == Sample(i, false)
    ensures ChunkFits(json, [], a)
  {
    var rows := RowsOf(a);
    forall i | 0 <= i < |a| ensures Encodes(a[i]) && Takes(json, OutboxColumns, rows[i]) {
      SampleFine(json, i, false);
    }
    forall i, j | 0 <= i < j < |rows| ensures IdOf(rows[i]) != IdOf(rows[j]) {
      SampleFine(json, i, false);
      SampleFine(json, j, false);
      if IdOf(rows[i]) == IdOf(rows[j]) {
        IdsDiffer(i, j);
      }
    }
  }

  /** The documented "if any entry is invalid, no entries are written" fails for an entry beyond
      the first chunk whose metadata is too large: the first chunk is already in the table, and
      the transaction can go on. */
  lemma HalfWrittenBatch(json: Json)
    requires json(Braces)
    ensures WriteAll(json, [], Oversized()) == (RowsOf(Oversized()[..ChunkSize]), GoError)
    ensures |Oversized()| == 5401 && |WriteAll(json, [], Oversized()).0| == 5400
  {
    var entries := Oversized();
    var a, b := entries[..ChunkSize], entries[ChunkSize..];
    forall i | 0 <= i < |entries| ensures entries[i] == Sample(i, i == ChunkSize) && Acceptable(entries[i]) {
      SampleFine(json, i, i == ChunkSize);
    }
    FirstChunkFits(json, a);
    SampleFine(json, ChunkSize, true);
    assert b == [Sample(ChunkSize, true)];
    assert b[..ChunkEnd(|b|)] == b && !Encodes(b[0]);
    assert [] + RowsOf(a) == RowsOf(a);
    assert WriteChunks(json, [], entries) == WriteChunks(json, [] + RowsOf(a), b);
  }

  // ------------------------------------------------------------------
  // The journal
  // ------------------------------------------------------------------

  /** A row of projection_events with its generated position. */
  datatype Journaled = Journaled(seqNo: nat, row: Row)

  predicate HasId(journal: seq<Journaled>, id: Value) {
    exists i | 0 <= i < |journal| :: IdOf(journal[i].row) == id
  }

  /** Appends the rows whose id is new; every attempt takes a position. */
  function JournalEach(journal: seq<Journaled>, nextSeq: nat, rows: seq<Row>): (seq<Journaled>, nat)
    decreases |rows|
  {
    if rows == [] then (journal, nextSeq)
    else if HasId(journal, IdOf(rows[0])) then JournalEach(journal, nextSeq + 1, rows[1..])
    else JournalEach(journal + [Journaled(nextSeq, rows[0])], nextSeq + 1, rows[1..])
  }

  function JournalRowsOf(entries: seq<Entry>): seq<Row> {
    seq(|entries|, i requires 0 <= i < |entries| => JournalRow(entries[i]))
  }

  function Subset(entries: seq<Entry>, topics: set<string>): seq<Entry> {
    if entries == [] then []
    else Subset(entries[..|entries| - 1], topics) + if entries[|entries| - 1].topic in topics then [entries[|entries| - 1]] else []
  }

  lemma {:induction false} JournalSplits(journal: seq<Journaled>, nextSeq: nat, a: seq<Row>, b: seq<Row>)
    ensures var mid := JournalEach(journal, nextSeq, a);
            JournalEach(journal, nextSeq, a + b) == JournalEach(mid.0, mid.1, b)
    decreases |a|
  {
    if a == [] {
      assert a + b == b;
    } else {
      assert (a + b)[0] == a[0] && (a + b)[1..] == a[1..] + b;
      if HasId(journal, IdOf(a[0])) {
        JournalSplits(journal, nextSeq + 1, a[1..], b);
      } else {
        JournalSplits(journal + [Journaled(nextSeq, a[0])], nextSeq + 1, a[1..], b);
      }
    }
  }

  predicate Journalable(json: Json, e: Entry) {
    e.encodable && Takes(json, JournalColumns, JournalRow(e))
  }

  /** Writes the entries to the journal, chunk by chunk. */
  method AppendProjectionEvents(tx: Tx, entries: seq<Entry>) returns (ok: bool)
    modifies tx`journal, tx`nextSeq
    ensures ok <==> forall i | 0 <= i < |entries| :: Journalable(tx.json, entries[i])
    ensures ok ==> (tx.journal, tx.nextSeq) == JournalEach(old(tx.journal), old(tx.nextSeq), JournalRowsOf(entries))
  {
    var offset := 0;
    assert entries[0..] == entries;
    while offset < |entries|
      invariant 0 <= offset <= |entries|
      invariant forall i | 0 <= i < offset :: Journalable(tx.json, entries[i])
      invariant JournalEach(tx.journal, tx.nextSeq, JournalRowsOf(entries[offset..]))
             == JournalEach(old(tx.journal), old(tx.nextSeq), JournalRowsOf(entries))
    {
      var end := offset + ChunkEnd(|entries| - offset);
      ghost var rest := JournalRowsOf(entries[end..]);
      assert JournalRowsOf(entries[offset..]) == JournalRowsOf(entries[offset..end]) + rest;
      JournalSplits(tx.journal, tx.nextSeq, JournalRowsOf(entries[offset..end]), rest);
      ok := AppendChunk(tx, entries[offset..end]);
      assert forall i | offset <= i < end :: entries[offset..end][i - offset] == entries[i];
      if !ok {
        return;
      }
      offset := end;
    }
    return true;
  }

  method AppendChunk(tx: Tx, chunk: seq<Entry>) returns (ok: bool)
    requires 0 < |chunk| <= ChunkSize
    modifies tx`journal, tx`nextSeq
    ensures ok <==> forall i | 0 <= i < |chunk| :: Journalable(tx.json, chunk[i])
    ensures ok ==> (tx.journal, tx.nextSeq) == JournalEach(old(tx.journal), old(tx.nextSeq), JournalRowsOf(chunk))
  {
    var encoded, rows := EncodeJournalRows(chunk);
    if !encoded {
      return false;
    }
    var text, args := Render(rows, JournalCols);
    assert Proposed(text, args) == Some(rows) by {
      RenderedIsRead(rows, JournalCols);
    }
    ok := tx.ExecJournal(text, args);
    assert forall i | 0 <= i < |chunk| :: rows[i] == JournalRow(chunk[i]);
  }

  method EncodeJournalRows(chunk: seq<Entry>) returns (ok: bool, rows: seq<Row>)
    ensures ok <==> forall i | 0 <= i < |chunk| :: chunk[i].encodable
    ensures ok ==> rows == JournalRowsOf(chunk)
  {
    rows := [];
    for i := 0 to |chunk|
      invariant |rows| == i && forall j | 0 <= j < i :: chunk[j].encodable && rows[j] == JournalRow(chunk[j])
    {
      if !chunk[i].encodable {
        return false, rows;
      }
      rows := rows + [JournalRow(chunk[i])];
    }
    ok := true;
  }

  /** Picks out the entries a projection replays. */
  method Filter(entries: seq<Entry>, topics: set<string>) returns (subset: seq<Entry>)
    ensures subset == Subset(entries, topics)
  {
    subset := [];
    for i := 0 to |entries|
      invariant subset == Subset(entries[..i], topics)
    {
      assert entries[..i + 1][..i] == entries[..i];
      if entries[i].topic in topics {
        subset := subset + [entries[i]];
      }
    }
    assert entries[..|entries|] == entries;
  }

  // ------------------------------------------------------------------
  // Every projection row has one journal row
  // ------------------------------------------------------------------

  predicate UniqueIds(journal: seq<Journaled>) {
    forall i, j | 0 <= i < j < |journal| :: IdOf(journal[i].row) != IdOf(journal[j].row)
  }

  /** Every outbox row on a projection topic has a journal row with its id; ids are unique there. */
  ghost predicate Journals(outbox: seq<Row>, journal: seq<Journaled>, topics: set<string>) {
    && UniqueIds(journal)
    && forall i | 0 <= i < |outbox| :: Covered(outbox[i], journal, topics)
  }

  predicate OnTopic(r: Row, topics: set<string>) {
    |r| == OutboxCols && r[4].Text? && r[4].text in topics
  }

  ghost predicate Covered(r: Row, journal: seq<Journaled>, topics: set<string>) {
    OnTopic(r, topics) ==> HasId(journal, IdOf(r))
  }

  lemma {:induction false} JournalOnlyGrows(journal: seq<Journaled>, nextSeq: nat, rows: seq<Row>)
    requires UniqueIds(journal)
    ensures var out := JournalEach(journal, nextSeq, rows).0;
            && journal <= out && UniqueIds(out)
            && (forall i | 0 <= i < |rows| :: HasId(out, IdOf(rows[i])))
    decreases |rows|
  {
    if rows != [] {
      var next := if HasId(journal, IdOf(rows[0])) then journal else journal + [Journaled(nextSeq, rows[0])];
      assert HasId(next, IdOf(rows[0])) by {
        assert !HasId(journal, IdOf(rows[0])) ==> next[|journal|].row == rows[0];
      }
      JournalOnlyGrows(next, nextSeq + 1, rows[1..]);
      var out := JournalEach(next, nextSeq + 1, rows[1..]).0;
      assert out == JournalEach(journal, nextSeq, rows).0;
      HasIdStays(next, out, IdOf(rows[0]));
      forall i | 0 <= i < |rows| ensures HasId(out, IdOf(rows[i])) {
        assert i > 0 ==> rows[i] == rows[1..][i - 1];
      }
    }
  }

  lemma HasIdStays(journal: seq<Journaled>, later: seq<Journaled>, id: Value)
    requires journal <= later && HasId(journal, id)
    ensures HasId(later, id)
  {
    var i :| 0 <= i < |journal| && IdOf(journal[i].row) == id;
    assert later[i] == journal[i];
  }

  lemma {:induction false} SubsetHas(entries: seq<Entry>, topics: set<string>, i: nat)
    requires i < |entries| && entries[i].topic in topics
    ensures entries[i] in Subset(entries, topics)
    decreases |entries|
  {
    if i < |entries| - 1 {
      SubsetHas(entries[..|entries| - 1], topics, i);
    }
  }

  /** A successful write keeps the two tables in step. */
  lemma StillJournaled(outbox: seq<Row>, journal: seq<Journaled>, nextSeq: nat, entries: seq<Entry>, topics: set<string>)
    requires Journals(outbox, journal, topics)
    ensures Journals(outbox + RowsOf(entries), JournalEach(journal, nextSeq, JournalRowsOf(Subset(entries, topics))).0, topics)
  {
    var subset := Subset(entries, topics);
    var rows := JournalRowsOf(subset);
    var out := JournalEach(journal, nextSeq, rows).0;
    JournalOnlyGrows(journal, nextSeq, rows);
    var all := outbox + RowsOf(entries);
    forall i | 0 <= i < |all| ensures Covered(all[i], out, topics) {
      if i < |outbox| {
        assert Covered(outbox[i], journal, topics);
        if OnTopic(all[i], topics) {
          HasIdStays(journal, out, IdOf(all[i]));
        }
      } else if OnTopic(all[i], topics) {
        var e := entries[i - |outbox|];
        SubsetHas(entries, topics, i - |outbox|);
        var k :| 0 <= k < |subset| && subset[k] == e;
        assert IdOf(rows[k]) == IdOf(OutboxRow(e));
      }
    }
  }

  lemma {:induction false} SubsetJournalable(json: Json, entries: seq<Entry>, topics: set<string>)
    requires forall i | 0 <= i < |entries| :: Encodes(entries[i]) && Takes(json, OutboxColumns, OutboxRow(entries[i]))
    ensures forall e | e in Subset(entries, topics) :: Journalable(json, e)
    decreases |entries|
  {
    if entries == [] {
      assert Subset(entries, topics) == [];
    } else {
      var init, last := entries[..|entries| - 1], entries[|entries| - 1];
      SubsetJournalable(json, init, topics);
      JournalTakes(json, last);
      var head, all := Subset(init, topics), Subset(entries, topics);
      assert Journalable(json, last) && forall e | e in head :: Journalable(json, e);
      assert all == head || all == head + [last];
    }
  }

  /** The decorated batch writer. If the call succeeds every projection row of the outbox has
      exactly one journal row, and nothing already journaled moves. If it fails nothing is
      journaled, and what the plain batch left in the outbox stays there. */
  method WriteBatchJournaled(tx: Tx, entries: seq<Entry>, topics: set<string>) returns (out: Outcome)
    requires Journals(tx.outbox, tx.journal, topics)
    modifies tx
    ensures out.Written? <==> WriteEach(tx.json, old(tx.outbox), entries).Some?
    ensures out.Written? ==>
              && tx.outbox == WriteEach(tx.json, old(tx.outbox), entries).value
              && Journals(tx.outbox, tx.journal, topics) && old(tx.journal) <= tx.journal
    ensures !out.Written? ==>
              (tx.outbox, out) == WriteAll(tx.json, old(tx.outbox), entries) && tx.journal == old(tx.journal) && tx.nextSeq == old(tx.nextSeq)
  {
    ghost var outbox, journal, nextSeq := tx.outbox, tx.journal, tx.nextSeq;
    out := WriteBatch(tx, entries);
    BatchIsOneByOne(tx.json, outbox, entries);
    if !out.Written? {
      return;
    }
    EachIs(tx.json, outbox, entries);
    var subset := Filter(entries, topics);
    StillJournaled(outbox, journal, nextSeq, entries, topics);
    JournalOnlyGrows(journal, nextSeq, JournalRowsOf(subset));
    AllTaken(tx.json, outbox, entries);
    SubsetJournalable(tx.json, entries, topics);
    var done := AppendProjectionEvents(tx, subset);
  }

  lemma AllTaken(json: Json, table: seq<Row>, entries: seq<Entry>)
    requires AllFit(json, table, entries)
    ensures forall i | 0 <= i < |entries| :: Takes(json, OutboxColumns, OutboxRow(entries[i]))
  {
    forall i | 0 <= i < |entries| ensures Takes(json, OutboxColumns, OutboxRow(entries[i])) {
      assert RowsOf(entries)[i] == OutboxRow(entries[i]);
    }
  }

  method WriteJournaled(tx: Tx, e: Entry, topics: set<string>) returns (ok: bool)
    requires Journals(tx.outbox, tx.journal, topics)
    modifies tx
    ensures ok <==> WriteOne(tx.json, old(tx.outbox), e).Some?
    ensures ok ==> tx.outbox == WriteOne(tx.json, old(tx.outbox), e).value && Journals(tx.outbox, tx.journal, topics)
    ensures ok ==> old(tx.journal) <= tx.journal
    ensures !ok ==> tx.outbox == old(tx.outbox) && tx.journal == old(tx.journal)
  {
    ghost var outbox, journal, nextSeq := tx.outbox, tx.journal, tx.nextSeq;
    ok := Write(tx, e);
    if !ok {
      return;
    }
    var subset := Filter([e], topics);
    StillJournaled(outbox, journal, nextSeq, [e], topics);
    assert RowsOf([e]) == [OutboxRow(e)];
    JournalOnlyGrows(journal, nextSeq, JournalRowsOf(subset));
    assert Takes(tx.json, OutboxColumns, [OutboxRow(e)][0]);
    SubsetJournalable(tx.json, [e], topics);
    var done := AppendProjectionEvents(tx, subset);
  }

  // ------------------------------------------------------------------
  // A failed call, swallowed
  // ------------------------------------------------------------------

  lemma EntryCovered(e: Entry, journal: seq<Journaled>, topics: set<string>)
    ensures Covered(OutboxRow(e), journal, topics) <==> (e.topic in topics ==> HasId(journal, Text(e.id)))
  {
    assert OutboxRow(e)[4] == Text(e.topic) && IdOf(OutboxRow(e)) == Text(e.id);
  }

  lemma InStepWith(outbox: seq<Row>, journal: seq<Journaled>, written: seq<Entry>, topics: set<string>)
    requires Journals(outbox, journal, topics)
    ensures Journals(outbox + RowsOf(written), journal, topics)
       <==> forall i | 0 <= i < |written| && written[i].topic in topics :: HasId(journal, Text(written[i].id))
  {
    var all := outbox + RowsOf(written);
    forall i | 0 <= i < |written|
      ensures Covered(all[|outbox| + i], journal, topics) <==> (written[i].topic in topics ==> HasId(journal, Text(written[i].id)))
    {
      assert all[|outbox| + i] == OutboxRow(written[i]);
      EntryCovered(written[i], journal, topics);
    }
    assert forall i | |outbox| <= i < |all| :: all[i] == all[|outbox| + (i - |outbox|)];
  }

  /** After a failed batch the tables are still in step if and only if an entry was unacceptable, so
      that nothing was written, or every projection entry of the chunks that were written was in the
      journal before. */
  lemma FailedBatchInStep(json: Json, outbox: seq<Row>, journal: seq<Journaled>, entries: seq<Entry>, topics: set<string>)
    requires Journals(outbox, journal, topics)
    requires !WriteAll(json, outbox, entries).1.Written?
    ensures Journals(WriteAll(json, outbox, entries).0, journal, topics)
       <==> || (exists i | 0 <= i < |entries| :: !Acceptable(entries[i]))
            || (forall i | 0 <= i < FailsFrom(json, outbox, entries) && entries[i].topic in topics :: HasId(journal, Text(entries[i].id)))
  {
    ChunksBeforeFailure(json, outbox, entries);
    var n := FailsFrom(json, outbox, entries);
    InStepWith(outbox, journal, entries[..n], topics);
    assert forall i | 0 <= i < n :: entries[..n][i] == entries[i];
  }

  /** The half-written batch on a projection topic: 5400 outbox rows without a journal row, in a
      transaction that can be committed. */
  lemma HalfWrittenBatchUnjournaled(json: Json)
    requires json(Braces)
    ensures var (out, how) := WriteAll(json, [], Oversized());
            how == GoError && |out| == ChunkSize
            && forall i | 0 <= i < |out| :: OnTopic(out[i], {"orders"}) && !Covered(out[i], [], {"orders"})
  {
    HalfWrittenBatch(json);
    var out := RowsOf(Oversized()[..ChunkSize]);
    forall i | 0 <= i < |out| ensures OnTopic(out[i], {"orders"}) && !Covered(out[i], [], {"orders"}) {
      assert out[i] == OutboxRow(Sample(i, false));
      EntryOnTopic(Sample(i, false), {"orders"});
    }
  }

  lemma EntryOnTopic(e: Entry, topics: set<string>)
    requires e.topic in topics
    ensures OnTopic(OutboxRow(e), topics) && !Covered(OutboxRow(e), [], topics)
  {
    assert OutboxRow(e)[4] == Text(e.topic);
  }
}
