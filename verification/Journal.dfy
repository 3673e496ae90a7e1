/** Outbox and journal across transactions, adapters/postgres/journaling_outbox_writer.go.

    Transactions (READ COMMITTED) open and end nested scopes and call the journaling writer any
    number of times. A call inserts its entries into the outbox, chunk by chunk, and then the
    projection entries into the journal. The writer itself rolls nothing back: a call that fails on
    the Go side leaves its chunks in a transaction that can go on, and the callback may pass the
    error on, so that a scope or the transaction is rolled back, or swallow it. A server error
    leaves the transaction aborted until a scope is rolled back. Positions come from a sequence,
    which never goes back. The journal is keyed by position here, so that one row per id is
    something to be proved. */
module Journal {
  type Id = nat
  type Topic = string
  type Pos = nat
  type TxId = nat

  type Outbox = map<Id, Topic>
  type Rows = map<Pos, Id>

  /** What a transaction has written. `strays` are the projection rows that failed calls left in it
      without a journal row. */
  datatype View = View(outbox: Outbox, journal: Rows, strays: set<Id>)

  /** The ids the running call has written to the outbox, and those it has put to the journal. */
  datatype Call = NoCall | Calling(written: set<Id>, done: set<Id>)

  datatype Tx = Tx(now: View, scopes: seq<View>, call: Call, aborted: bool)

  /** `swallowed` are the strays that were committed. */
  datatype Db = Db(outbox: Outbox, journal: Rows, nextPos: Pos, txs: map<TxId, Tx>, swallowed: set<Id>)

  const Nothing := View(map[], map[], {})
  const Init := Db(map[], map[], 0, map[], {})

  datatype Action =
    | Begin(t: TxId)
    | OpenScope(t: TxId)
    | LeaveScope(t: TxId)
    | RollbackScope(t: TxId)
    | StartCall(t: TxId)
    | InsertChunk(t: TxId, chunk: Outbox)
    | InsertJournal(t: TxId, id: Id)
    | EndCall(t: TxId)
    | GoFails(t: TxId)
    | ServerFails(t: TxId)
    | Commit(t: TxId)
    | Rollback(t: TxId)
    | Cleanup(t: TxId, id: Id)  // by the relay, of a published row

  predicate Has(rows: Rows, id: Id) {
    exists p | p in rows :: rows[p] == id
  }

  predicate OutboxByOther(db: Db, t: TxId, ids: set<Id>) {
    exists u | u in db.txs :: u != t && !(ids !! db.txs[u].now.outbox.Keys)
  }

  predicate JournalByOther(db: Db, t: TxId, id: Id) {
    exists u | u in db.txs :: u != t && Has(db.txs[u].now.journal, id)
  }

  /** In the committed journal or in the transaction's own rows. */
  predicate Known(base: Rows, own: Rows, id: Id) {
    Has(base, id) || Has(own, id)
  }

  function With(db: Db, t: TxId, tx: Tx): Db {
    db.(txs := db.txs[t := tx])
  }

  /** The writer journals all projection entries of the call before it returns. */
  predicate CallDone(topics: set<Topic>, tx: Tx)
    requires tx.call.Calling?
  {
    forall id | id in tx.call.written && id in tx.now.outbox && tx.now.outbox[id] in topics :: id in tx.call.done
  }

  /** The projection rows of the running call whose ids the journal does not know. */
  function Unjournaled(topics: set<Topic>, db: Db, tx: Tx): set<Id>
    requires tx.call.Calling?
  {
    set id | id in tx.call.written && id in tx.now.outbox && tx.now.outbox[id] in topics && !Known(db.journal, tx.now.journal, id)
  }

  function Broken(tx: Tx): Tx {
    Tx(tx.now, tx.scopes, NoCall, true)
  }

  function ChunkStep(db: Db, t: TxId, tx: Tx, chunk: Outbox): Db {
    if !tx.call.Calling? || OutboxByOther(db, t, chunk.Keys) then db
    else if !(chunk.Keys !! db.outbox.Keys) || !(chunk.Keys !! tx.now.outbox.Keys) then With(db, t, Broken(tx))  // duplicate key
    else With(db, t, Tx(tx.now.(outbox := tx.now.outbox + chunk), tx.scopes,
                        Calling(tx.call.written + chunk.Keys, tx.call.done), false))
  }

  function Skipped(tx: Tx, id: Id): Tx
    requires tx.call.Calling?
  {
    Tx(tx.now, tx.scopes, Calling(tx.call.written, tx.call.done + {id}), false)
  }

  function Appended(tx: Tx, p: Pos, id: Id): Tx
    requires tx.call.Calling?
  {
    Tx(View(tx.now.outbox, tx.now.journal[p := id], tx.now.strays), tx.scopes, Calling(tx.call.written, tx.call.done + {id}), false)
  }

  function JournalStep(topics: set<Topic>, db: Db, t: TxId, tx: Tx, id: Id): Db {
    if !tx.call.Calling? || id !in tx.call.written || JournalByOther(db, t, id) then db
    else if id !in tx.now.outbox || tx.now.outbox[id] !in topics then db
    else if Known(db.journal, tx.now.journal, id) then
      // DO NOTHING, but the position is used up
      With(db.(nextPos := db.nextPos + 1), t, Skipped(tx, id))
    else
      With(db.(nextPos := db.nextPos + 1), t, Appended(tx, db.nextPos, id))
  }

  function Step(topics: set<Topic>, db: Db, a: Action): Db {
    if a.Begin? then
      if a.t in db.txs then db else With(db, a.t, Tx(Nothing, [], NoCall, false))
    else if a.Cleanup? then db.(outbox := db.outbox - {a.id})
    else if a.t !in db.txs then db
    else if a.Rollback? then db.(txs := db.txs - {a.t})
    else if a.RollbackScope? then
      var tx := db.txs[a.t];
      if tx.scopes == [] then db
      else With(db, a.t, Tx(tx.scopes[|tx.scopes| - 1], tx.scopes[..|tx.scopes| - 1], NoCall, false))
    else if db.txs[a.t].aborted then
      if a.Commit? then db.(txs := db.txs - {a.t}) else db
    else
      var tx := db.txs[a.t];
      match a
      case OpenScope(t) => if tx.call.Calling? then db else With(db, t, Tx(tx.now, tx.scopes + [tx.now], NoCall, false))
      case LeaveScope(t) =>
        if tx.call.Calling? || tx.scopes == [] then db
        else With(db, t, Tx(tx.now, tx.scopes[..|tx.scopes| - 1], NoCall, false))
      case StartCall(t) => if tx.call.Calling? then db else With(db, t, Tx(tx.now, tx.scopes, Calling({}, {}), false))
      case InsertChunk(t, chunk) => ChunkStep(db, t, tx, chunk)
      case InsertJournal(t, id) => JournalStep(topics, db, t, tx, id)
      case EndCall(t) =>
        if !tx.call.Calling? || !CallDone(topics, tx) then db else With(db, t, Tx(tx.now, tx.scopes, NoCall, false))
      case GoFails(t) =>
        if !tx.call.Calling? then db
        else With(db, t, Tx(tx.now.(strays := tx.now.strays + Unjournaled(topics, db, tx)), tx.scopes, NoCall, false))
      case ServerFails(t) => With(db, t, Broken(tx))
      case Commit(t) =>
        if tx.call.Calling? then db
        else Db(db.outbox + tx.now.outbox, db.journal + tx.now.journal, db.nextPos, db.txs - {t}, db.swallowed + tx.now.strays)
  }

  function Run(topics: set<Topic>, db: Db, acts: seq<Action>): Db
    decreases |acts|
  {
    if acts == [] then db else Run(topics, Step(topics, db, acts[0]), acts[1..])
  }

  // ------------------------------------------------------------------
  // The invariant
  // ------------------------------------------------------------------

  ghost predicate OncePerId(rows: Rows) {
    forall p, q | p in rows && q in rows && p != q :: rows[p] != rows[q]
  }

  ghost predicate Below(rows: Rows, n: Pos) {
    forall p | p in rows :: p < n
  }

  /** No id and no position in both. */
  ghost predicate Apart(a: Rows, b: Rows) {
    a.Keys !! b.Keys && forall p, q | p in a && q in b :: a[p] != b[q]
  }

  /** Every projection row is journaled, in `base` or in the view, or accounted for in `open`. */
  ghost predicate Covered(topics: set<Topic>, outbox: Outbox, base: Rows, own: Rows, open: set<Id>) {
    forall id | id in outbox && outbox[id] in topics :: Known(base, own, id) || id in open
  }

  /** A projection row of the view that is nowhere in the journal. */
  ghost predicate Stray(topics: set<Topic>, base: Rows, v: View, id: Id) {
    id in v.outbox && v.outbox[id] in topics && !Known(base, v.journal, id)
  }

  ghost predicate ViewOk(topics: set<Topic>, base: Rows, n: Pos, v: View, open: set<Id>) {
    && OncePerId(v.journal) && Below(v.journal, n) && Apart(base, v.journal)
    && (forall p | p in v.journal :: v.journal[p] in v.outbox)
    && Covered(topics, v.outbox, base, v.journal, v.strays + open)
    && (forall id | id in v.strays :: Stray(topics, base, v, id))
  }

  /** What the running call has still to journal. */
  ghost function Open(tx: Tx): set<Id> {
    if tx.call.Calling? then tx.call.written - tx.call.done else {}
  }

  ghost predicate CallOk(base: Rows, tx: Tx) {
    tx.call.Calling? ==>
      && tx.call.written <= tx.now.outbox.Keys && tx.call.written !! tx.now.strays
      && (forall id | id in tx.call.done :: Known(base, tx.now.journal, id))
  }

  /** The earlier view holds no row the later one does not. */
  ghost predicate Within(v: View, w: View) {
    v.outbox.Keys <= w.outbox.Keys && forall p | p in v.journal :: p in w.journal && w.journal[p] == v.journal[p]
  }

  ghost predicate ScopesOk(topics: set<Topic>, base: Rows, n: Pos, tx: Tx) {
    && (forall i | 0 <= i < |tx.scopes| :: ViewOk(topics, base, n, tx.scopes[i], {}) && Within(tx.scopes[i], tx.now))
    && (forall i, j | 0 <= i < j < |tx.scopes| :: Within(tx.scopes[i], tx.scopes[j]))
  }

  /** An aborted transaction is only good for its scopes. */
  ghost predicate TxOk(topics: set<Topic>, base: Rows, n: Pos, tx: Tx) {
    && OncePerId(tx.now.journal) && Below(tx.now.journal, n) && Apart(base, tx.now.journal)
    && (forall p | p in tx.now.journal :: tx.now.journal[p] in tx.now.outbox)
    && (!tx.aborted ==> ViewOk(topics, base, n, tx.now, Open(tx)) && CallOk(base, tx))
    && ScopesOk(topics, base, n, tx)
  }

  ghost predicate PairOk(a: Tx, b: Tx) {
    a.now.outbox.Keys !! b.now.outbox.Keys && Apart(a.now.journal, b.now.journal)
  }

  ghost predicate Inv(topics: set<Topic>, db: Db) {
    && OncePerId(db.journal) && Below(db.journal, db.nextPos)
    && Covered(topics, db.outbox, db.journal, map[], db.swallowed)
    && (forall t | t in db.txs :: TxOk(topics, db.journal, db.nextPos, db.txs[t]))
    && (forall t, u | t in db.txs && u in db.txs && t != u :: PairOk(db.txs[t], db.txs[u]))
  }

  lemma LaterView(topics: set<Topic>, base: Rows, n: Pos, m: Pos, v: View, open: set<Id>)
    requires ViewOk(topics, base, n, v, open) && n <= m
    ensures ViewOk(topics, base, m, v, open)
  {
  }

  lemma LaterTx(topics: set<Topic>, base: Rows, n: Pos, m: Pos, tx: Tx)
    requires TxOk(topics, base, n, tx) && n <= m
    ensures TxOk(topics, base, m, tx)
  {
    forall i | 0 <= i < |tx.scopes| ensures ViewOk(topics, base, m, tx.scopes[i], {}) {
      LaterView(topics, base, n, m, tx.scopes[i], {});
    }
  }

  /** A step of one transaction, which may use up positions. */
  lemma OnlyTx(topics: set<Topic>, db: Db, t: TxId, tx: Tx, n: Pos)
    requires Inv(topics, db) && db.nextPos <= n && TxOk(topics, db.journal, n, tx)
    requires forall u | u in db.txs && u != t :: PairOk(tx, db.txs[u])
    ensures Inv(topics, With(db.(nextPos := n), t, tx))
  {
    var db' := With(db.(nextPos := n), t, tx);
    forall u | u in db'.txs ensures TxOk(topics, db'.journal, n, db'.txs[u]) {
      if u != t {
        LaterTx(topics, db.journal, db.nextPos, n, db.txs[u]);
      }
    }
    forall u, v | u in db'.txs && v in db'.txs && u != v ensures PairOk(db'.txs[u], db'.txs[v]) {
      if v == t {
        assert PairOk(tx, db.txs[u]);
      } else if u != t {
        assert PairOk(db.txs[u], db.txs[v]);
      }
    }
  }

  /** The transaction holds no more rows than it did. */
  lemma NoMoreRows(topics: set<Topic>, db: Db, t: TxId, tx: Tx)
    requires Inv(topics, db) && t in db.txs
    requires TxOk(topics, db.journal, db.nextPos, tx) && Within(tx.now, db.txs[t].now)
    ensures Inv(topics, With(db, t, tx))
  {
    forall u | u in db.txs && u != t ensures PairOk(tx, db.txs[u]) {
      assert PairOk(db.txs[t], db.txs[u]);
    }
    OnlyTx(topics, db, t, tx, db.nextPos);
    assert db.(nextPos := db.nextPos) == db;
  }

  // ------------------------------------------------------------------
  // Scopes and the ends of calls
  // ------------------------------------------------------------------

  lemma RollbackScopeKeeps(topics: set<Topic>, db: Db, t: TxId)
    requires Inv(topics, db) && t in db.txs && db.txs[t].scopes != []
    ensures Inv(topics, Step(topics, db, RollbackScope(t)))
  {
    var tx := db.txs[t];
    var last := |tx.scopes| - 1;
    var tx' := Tx(tx.scopes[last], tx.scopes[..last], NoCall, false);
    assert TxOk(topics, db.journal, db.nextPos, tx) && ViewOk(topics, db.journal, db.nextPos, tx.scopes[last], {});
    forall i | 0 <= i < last ensures ViewOk(topics, db.journal, db.nextPos, tx'.scopes[i], {}) && Within(tx'.scopes[i], tx'.now) {
      assert tx'.scopes[i] == tx.scopes[i];
    }
    NoMoreRows(topics, db, t, tx');
  }

  lemma OpenScopeKeeps(topics: set<Topic>, db: Db, t: TxId)
    requires Inv(topics, db) && t in db.txs && !db.txs[t].aborted && db.txs[t].call.NoCall?
    ensures var tx := db.txs[t]; Inv(topics, With(db, t, Tx(tx.now, tx.scopes + [tx.now], NoCall, false)))
  {
    var tx := db.txs[t];
    assert TxOk(topics, db.journal, db.nextPos, tx);
    NoMoreRows(topics, db, t, Tx(tx.now, tx.scopes + [tx.now], NoCall, false));
  }

  /** Nothing is written; the call, if it goes on, is still accounted for. */
  lemma SameRows(topics: set<Topic>, db: Db, t: TxId, tx: Tx)
    requires Inv(topics, db) && t in db.txs && tx.now == db.txs[t].now
    requires tx.scopes == db.txs[t].scopes || (db.txs[t].scopes != [] && tx.scopes == db.txs[t].scopes[..|db.txs[t].scopes| - 1])
    requires !tx.aborted ==> ViewOk(topics, db.journal, db.nextPos, tx.now, Open(tx)) && CallOk(db.journal, tx)
    ensures Inv(topics, With(db, t, tx))
  {
    assert TxOk(topics, db.journal, db.nextPos, db.txs[t]);
    NoMoreRows(topics, db, t, tx);
  }

  /** The call ends well: whatever was open is journaled or on no projection topic. */
  lemma EndCallKeeps(topics: set<Topic>, db: Db, t: TxId)
    requires Inv(topics, db) && t in db.txs && !db.txs[t].aborted && db.txs[t].call.Calling? && CallDone(topics, db.txs[t])
    ensures Inv(topics, With(db, t, Tx(db.txs[t].now, db.txs[t].scopes, NoCall, false)))
  {
    assert TxOk(topics, db.journal, db.nextPos, db.txs[t]);
    SameRows(topics, db, t, Tx(db.txs[t].now, db.txs[t].scopes, NoCall, false));
  }

  /** The call fails on the Go side: its unjournaled projection rows are strays from now on. */
  lemma GoFailsKeeps(topics: set<Topic>, db: Db, t: TxId)
    requires Inv(topics, db) && t in db.txs && !db.txs[t].aborted && db.txs[t].call.Calling?
    ensures Inv(topics, Step(topics, db, GoFails(t)))
  {
    var tx := db.txs[t];
    assert TxOk(topics, db.journal, db.nextPos, tx);
    var now := tx.now.(strays := tx.now.strays + Unjournaled(topics, db, tx));
    forall id | id in now.strays ensures Stray(topics, db.journal, now, id) {
      assert id in tx.now.strays ==> Stray(topics, db.journal, tx.now, id);
    }
    NoMoreRows(topics, db, t, Tx(now, tx.scopes, NoCall, false));
  }

  // ------------------------------------------------------------------
  // Writing
  // ------------------------------------------------------------------

  lemma ChunkKeeps(topics: set<Topic>, db: Db, t: TxId, chunk: Outbox)
    requires Inv(topics, db) && t in db.txs && !db.txs[t].aborted && db.txs[t].call.Calling?
    requires !OutboxByOther(db, t, chunk.Keys) && chunk.Keys !! db.txs[t].now.outbox.Keys
    ensures var tx := db.txs[t];
            Inv(topics, With(db, t, Tx(tx.now.(outbox := tx.now.outbox + chunk), tx.scopes,
                                       Calling(tx.call.written + chunk.Keys, tx.call.done), false)))
  {
    var tx := db.txs[t];
    var now := tx.now.(outbox := tx.now.outbox + chunk);
    var tx' := Tx(now, tx.scopes, Calling(tx.call.written + chunk.Keys, tx.call.done), false);
    assert TxOk(topics, db.journal, db.nextPos, tx);
    ChunkView(topics, db.journal, db.nextPos, tx, chunk);
    forall u | u in db.txs && u != t ensures PairOk(tx', db.txs[u]) {
      assert PairOk(tx, db.txs[u]) && chunk.Keys !! db.txs[u].now.outbox.Keys;
    }
    OnlyTx(topics, db, t, tx', db.nextPos);
    assert db.(nextPos := db.nextPos) == db;
  }

  lemma ChunkView(topics: set<Topic>, base: Rows, n: Pos, tx: Tx, chunk: Outbox)
    requires tx.call.Calling? && ViewOk(topics, base, n, tx.now, Open(tx)) && CallOk(base, tx)
    requires chunk.Keys !! tx.now.outbox.Keys
    ensures var tx' := Tx(tx.now.(outbox := tx.now.outbox + chunk), tx.scopes,
                          Calling(tx.call.written + chunk.Keys, tx.call.done), false);
            ViewOk(topics, base, n, tx'.now, Open(tx')) && CallOk(base, tx')
  {
    var tx' := Tx(tx.now.(outbox := tx.now.outbox + chunk), tx.scopes,
                  Calling(tx.call.written + chunk.Keys, tx.call.done), false);
    forall id | id in tx'.now.strays ensures Stray(topics, base, tx'.now, id) {
      assert Stray(topics, base, tx.now, id);
    }
  }

  lemma HasMore(rows: Rows, p: Pos, id: Id, x: Id)
    requires p !in rows
    ensures Has(rows[p := id], x) <==> x == id || Has(rows, x)
  {
    var more := rows[p := id];
    assert more[p] == id;
    if Has(rows, x) {
      var q :| q in rows && rows[q] == x;
      assert more[q] == x;
    }
  }

  lemma NewRowApart(journal: Rows, own: Rows, n: Pos, id: Id)
    requires OncePerId(own) && Below(own, n) && Below(journal, n) && Apart(journal, own)
    requires !Has(journal, id) && !Has(own, id)
    ensures OncePerId(own[n := id]) && Below(own[n := id], n + 1) && Apart(journal, own[n := id])
  {
  }

  /** The running call with one journal row more: fresh position, an id the journal does not know. */
  lemma NewRowView(topics: set<Topic>, base: Rows, n: Pos, tx: Tx, id: Id)
    requires tx.call.Calling? && ViewOk(topics, base, n, tx.now, Open(tx)) && CallOk(base, tx) && Below(base, n)
    requires id in tx.call.written && !Known(base, tx.now.journal, id)
    ensures var tx' := Appended(tx, n, id);
            ViewOk(topics, base, n + 1, tx'.now, Open(tx')) && CallOk(base, tx')
  {
    var tx' := Appended(tx, n, id);
    NewRowApart(base, tx.now.journal, n, id);
    forall x ensures Has(tx'.now.journal, x) <==> x == id || Has(tx.now.journal, x) {
      HasMore(tx.now.journal, n, id, x);
    }
    forall x | x in tx'.now.strays ensures Stray(topics, base, tx'.now, x) {
      assert Stray(topics, base, tx.now, x);
    }
  }

  lemma NewRowTx(topics: set<Topic>, base: Rows, n: Pos, tx: Tx, id: Id)
    requires TxOk(topics, base, n, tx) && !tx.aborted && tx.call.Calling? && Below(base, n)
    requires id in tx.call.written && !Known(base, tx.now.journal, id)
    ensures TxOk(topics, base, n + 1,
                 Appended(tx, n, id))
  {
    NewRowView(topics, base, n, tx, id);
    LaterTx(topics, base, n, n + 1, tx);
  }

  /** Rows of different transactions are for different ids, because their outbox rows are. */
  lemma GrownApart(a: Tx, b: Tx, n: Pos, id: Id)
    requires PairOk(a, b) && Below(b.now.journal, n) && id in a.now.outbox
    requires forall p | p in b.now.journal :: b.now.journal[p] in b.now.outbox
    ensures Apart(a.now.journal[n := id], b.now.journal)
  {
  }

  lemma AddsRow(topics: set<Topic>, db: Db, t: TxId, id: Id)
    requires Inv(topics, db) && t in db.txs && !db.txs[t].aborted && db.txs[t].call.Calling? && id in db.txs[t].call.written
    requires !Known(db.journal, db.txs[t].now.journal, id)
    ensures var tx := db.txs[t];
            Inv(topics, With(db.(nextPos := db.nextPos + 1), t,
                             Appended(tx, db.nextPos, id)))
  {
    var tx := db.txs[t];
    var tx' := Appended(tx, db.nextPos, id);
    assert TxOk(topics, db.journal, db.nextPos, tx);
    NewRowTx(topics, db.journal, db.nextPos, tx, id);
    forall u | u in db.txs && u != t ensures PairOk(tx', db.txs[u]) {
      assert PairOk(tx, db.txs[u]) && TxOk(topics, db.journal, db.nextPos, db.txs[u]);
      GrownApart(tx, db.txs[u], db.nextPos, id);
    }
    OnlyTx(topics, db, t, tx', db.nextPos + 1);
  }

  lemma SkippedView(topics: set<Topic>, base: Rows, n: Pos, tx: Tx, id: Id)
    requires tx.call.Calling? && ViewOk(topics, base, n, tx.now, Open(tx)) && CallOk(base, tx) && Known(base, tx.now.journal, id)
    ensures ViewOk(topics, base, n, tx.now, Open(Skipped(tx, id))) && CallOk(base, Skipped(tx, id))
  {
  }

  /** Only how far the call has come changes, and a position is used up. */
  lemma SkipsRow(topics: set<Topic>, db: Db, t: TxId, id: Id)
    requires Inv(topics, db) && t in db.txs && !db.txs[t].aborted && db.txs[t].call.Calling?
    requires Known(db.journal, db.txs[t].now.journal, id)
    ensures Inv(topics, With(db.(nextPos := db.nextPos + 1), t, Skipped(db.txs[t], id)))
  {
    assert TxOk(topics, db.journal, db.nextPos, db.txs[t]);
    SkippedView(topics, db.journal, db.nextPos, db.txs[t], id);
    SameRows(topics, db, t, Skipped(db.txs[t], id));
    var db' := With(db, t, Skipped(db.txs[t], id));
    PositionUsed(topics, db');
    assert db'.(nextPos := db'.nextPos + 1) == With(db.(nextPos := db.nextPos + 1), t, Skipped(db.txs[t], id));
  }

  lemma PositionUsed(topics: set<Topic>, db: Db)
    requires Inv(topics, db)
    ensures Inv(topics, db.(nextPos := db.nextPos + 1))
  {
    forall t | t in db.txs ensures TxOk(topics, db.journal, db.nextPos + 1, db.txs[t]) {
      LaterTx(topics, db.journal, db.nextPos, db.nextPos + 1, db.txs[t]);
    }
  }

  // ------------------------------------------------------------------
  // Committing
  // ------------------------------------------------------------------

  lemma MergedHas(a: Rows, b: Rows, id: Id)
    requires a.Keys !! b.Keys
    ensures Has(a + b, id) <==> Has(a, id) || Has(b, id)
  {
    if Has(a, id) {
      var p :| p in a && a[p] == id;
      assert (a + b)[p] == id;
    }
    if Has(b, id) {
      var p :| p in b && b[p] == id;
      assert (a + b)[p] == id;
    }
  }

  lemma MergedOnce(a: Rows, b: Rows, n: Pos)
    requires OncePerId(a) && OncePerId(b) && Apart(a, b) && Below(a, n) && Below(b, n)
    ensures OncePerId(a + b) && Below(a + b, n)
  {
  }

  lemma MergedApart(a: Rows, b: Rows, c: Rows)
    requires Apart(a, c) && Apart(b, c)
    ensures Apart(a + b, c)
  {
  }

  /** Journal rows of others, for other ids, change nothing for a view. */
  lemma LargerBase(topics: set<Topic>, base: Rows, more: Rows, n: Pos, v: View, open: set<Id>)
    requires ViewOk(topics, base, n, v, open) && Apart(more, v.journal) && base.Keys !! more.Keys
    requires forall p | p in more :: more[p] !in v.outbox
    ensures ViewOk(topics, base + more, n, v, open)
  {
    MergedApart(base, more, v.journal);
    forall id ensures Has(base + more, id) <==> Has(base, id) || Has(more, id) {
      MergedHas(base, more, id);
    }
    forall id | id in v.strays ensures Stray(topics, base + more, v, id) {
      assert Stray(topics, base, v, id);
    }
  }

  lemma CommitOther(topics: set<Topic>, base: Rows, more: Rows, n: Pos, tx: Tx)
    requires TxOk(topics, base, n, tx) && Apart(more, tx.now.journal) && base.Keys !! more.Keys
    requires forall p | p in more :: more[p] !in tx.now.outbox
    ensures TxOk(topics, base + more, n, tx)
  {
    MergedApart(base, more, tx.now.journal);
    if !tx.aborted {
      LargerBase(topics, base, more, n, tx.now, Open(tx));
      forall id | Has(base, id) ensures Has(base + more, id) {
        MergedHas(base, more, id);
      }
    }
    forall i | 0 <= i < |tx.scopes| ensures ViewOk(topics, base + more, n, tx.scopes[i], {}) {
      assert Within(tx.scopes[i], tx.now);
      LargerBase(topics, base, more, n, tx.scopes[i], {});
    }
  }

  lemma MergedCovered(topics: set<Topic>, db: Db, v: View)
    requires Covered(topics, db.outbox, db.journal, map[], db.swallowed)
    requires Covered(topics, v.outbox, db.journal, v.journal, v.strays) && db.journal.Keys !! v.journal.Keys
    ensures Covered(topics, db.outbox + v.outbox, db.journal + v.journal, map[], db.swallowed + v.strays)
  {
    forall id ensures Has(db.journal + v.journal, id) <==> Has(db.journal, id) || Has(v.journal, id) {
      MergedHas(db.journal, v.journal, id);
    }
  }

  lemma CommitKeeps(topics: set<Topic>, db: Db, t: TxId)
    requires Inv(topics, db) && t in db.txs && !db.txs[t].aborted && db.txs[t].call.NoCall?
    ensures Inv(topics, Step(topics, db, Commit(t)))
  {
    var tx, db' := db.txs[t], Step(topics, db, Commit(t));
    assert TxOk(topics, db.journal, db.nextPos, tx);
    assert tx.now.strays + {} == tx.now.strays;
    MergedCovered(topics, db, tx.now);
    MergedOnce(db.journal, tx.now.journal, db.nextPos);
    forall u | u in db'.txs ensures TxOk(topics, db'.journal, db'.nextPos, db'.txs[u]) {
      assert PairOk(tx, db.txs[u]);
      CommitOther(topics, db.journal, tx.now.journal, db.nextPos, db.txs[u]);
    }
    assert forall u, v | u in db'.txs && v in db'.txs && u != v :: PairOk(db.txs[u], db.txs[v]);
  }

  // ------------------------------------------------------------------
  // Every step
  // ------------------------------------------------------------------

  /** Steps that write nothing: scopes, the start of a call, a server error. */
  lemma QuietStepKeeps(topics: set<Topic>, db: Db, a: Action)
    requires Inv(topics, db) && a.t in db.txs && !db.txs[a.t].aborted
    requires a.OpenScope? || a.LeaveScope? || a.StartCall? || a.ServerFails?
    ensures Inv(topics, Step(topics, db, a))
  {
    var tx := db.txs[a.t];
    assert TxOk(topics, db.journal, db.nextPos, tx);
    match a
    case OpenScope(t) => if tx.call.NoCall? { OpenScopeKeeps(topics, db, t); }
    case LeaveScope(t) =>
      if tx.call.NoCall? && tx.scopes != [] {
        SameRows(topics, db, t, Tx(tx.now, tx.scopes[..|tx.scopes| - 1], NoCall, false));
      }
    case StartCall(t) => if tx.call.NoCall? { SameRows(topics, db, t, Tx(tx.now, tx.scopes, Calling({}, {}), false)); }
    case ServerFails(t) => SameRows(topics, db, t, Broken(tx));
  }

  lemma JournalStepKeeps(topics: set<Topic>, db: Db, t: TxId, id: Id)
    requires Inv(topics, db) && t in db.txs && !db.txs[t].aborted && db.txs[t].call.Calling?
    ensures Inv(topics, JournalStep(topics, db, t, db.txs[t], id))
  {
    var tx, db' := db.txs[t], JournalStep(topics, db, t, db.txs[t], id);
    if db' == db {
    } else if Known(db.journal, tx.now.journal, id) {
      assert db' == With(db.(nextPos := db.nextPos + 1), t, Skipped(tx, id));
      SkipsRow(topics, db, t, id);
    } else {
      assert db' == With(db.(nextPos := db.nextPos + 1), t, Appended(tx, db.nextPos, id));
      AddsRow(topics, db, t, id);
    }
  }

  lemma CallStepKeeps(topics: set<Topic>, db: Db, a: Action)
    requires Inv(topics, db) && a.t in db.txs && !db.txs[a.t].aborted && db.txs[a.t].call.Calling?
    requires a.InsertChunk? || a.InsertJournal? || a.EndCall? || a.GoFails?
    ensures Inv(topics, Step(topics, db, a))
  {
    var tx := db.txs[a.t];
    match a
    case InsertChunk(t, chunk) =>
      if !OutboxByOther(db, t, chunk.Keys) {
        if chunk.Keys !! db.outbox.Keys && chunk.Keys !! tx.now.outbox.Keys {
          ChunkKeeps(topics, db, t, chunk);
        } else {
          SameRows(topics, db, t, Broken(tx));
        }
      }
    case InsertJournal(t, id) =>
      JournalStepKeeps(topics, db, t, id);
      assert Step(topics, db, a) == JournalStep(topics, db, t, tx, id);
    case EndCall(t) => if CallDone(topics, tx) { EndCallKeeps(topics, db, t); }
    case GoFails(t) => GoFailsKeeps(topics, db, t);
  }

  lemma StepKeeps(topics: set<Topic>, db: Db, a: Action)
    requires Inv(topics, db)
    ensures Inv(topics, Step(topics, db, a))
  {
    if a.Begin? {
      if a.t !in db.txs {
        OnlyTx(topics, db, a.t, Tx(Nothing, [], NoCall, false), db.nextPos);
        assert db.(nextPos := db.nextPos) == db;
      }
    } else if a.Cleanup? || a.t !in db.txs || a.Rollback? {
    } else if a.RollbackScope? {
      if db.txs[a.t].scopes != [] {
        RollbackScopeKeeps(topics, db, a.t);
      }
    } else if !db.txs[a.t].aborted {
      if a.Commit? {
        if db.txs[a.t].call.NoCall? {
          CommitKeeps(topics, db, a.t);
        }
      } else if a.OpenScope? || a.LeaveScope? || a.StartCall? || a.ServerFails? {
        QuietStepKeeps(topics, db, a);
      } else if db.txs[a.t].call.Calling? {
        CallStepKeeps(topics, db, a);
      }
    }
  }

  lemma {:induction false} RunKeeps(topics: set<Topic>, db: Db, acts: seq<Action>)
    requires Inv(topics, db)
    ensures Inv(topics, Run(topics, db, acts))
    decreases |acts|
  {
    if acts != [] {
      StepKeeps(topics, db, acts[0]);
      RunKeeps(topics, Step(topics, db, acts[0]), acts[1..]);
    }
  }

  // ------------------------------------------------------------------
  // Over every run
  // ------------------------------------------------------------------

  /** Every committed projection row has a journal row. */
  ghost predicate AllJournaled(topics: set<Topic>, db: Db) {
    Covered(topics, db.outbox, db.journal, map[], {})
  }

  /** So it was in every state of the run. */
  ghost predicate AlwaysJournaled(topics: set<Topic>, db: Db, acts: seq<Action>)
    decreases |acts|
  {
    AllJournaled(topics, db) && (acts == [] || AlwaysJournaled(topics, Step(topics, db, acts[0]), acts[1..]))
  }

  lemma {:induction false} SwallowedStays(topics: set<Topic>, db: Db, acts: seq<Action>)
    ensures db.swallowed <= Run(topics, db, acts).swallowed
    decreases |acts|
  {
    if acts != [] {
      SwallowedStays(topics, Step(topics, db, acts[0]), acts[1..]);
    }
  }

  /** A stray that is committed is a projection row without a journal row. */
  lemma StrayShows(topics: set<Topic>, db: Db, a: Action)
    requires Inv(topics, db) && db.swallowed == {} && Step(topics, db, a).swallowed != {}
    ensures !AllJournaled(topics, Step(topics, db, a))
  {
    var db' := Step(topics, db, a);
    assert a.Commit? && a.t in db.txs && !db.txs[a.t].aborted && db.txs[a.t].call.NoCall?;
    var v := db.txs[a.t].now;
    assert TxOk(topics, db.journal, db.nextPos, db.txs[a.t]);
    var id :| id in db'.swallowed;
    assert Stray(topics, db.journal, v, id);
    MergedHas(db.journal, v.journal, id);
    assert id in db'.outbox && db'.outbox[id] in topics && !Has(db'.journal, id);
  }

  lemma {:induction false} AlwaysJournaledIff(topics: set<Topic>, db: Db, acts: seq<Action>)
    requires Inv(topics, db) && db.swallowed == {}
    ensures AlwaysJournaled(topics, db, acts) <==> Run(topics, db, acts).swallowed == {}
    decreases |acts|
  {
    if acts != [] {
      var next := Step(topics, db, acts[0]);
      StepKeeps(topics, db, acts[0]);
      if next.swallowed == {} {
        AlwaysJournaledIff(topics, next, acts[1..]);
      } else {
        StrayShows(topics, db, acts[0]);
        SwallowedStays(topics, next, acts[1..]);
        assert !AlwaysJournaled(topics, next, acts[1..]);
      }
    }
  }

  /** In every state of a run every committed outbox row on a projection topic has its journal row
      if and only if no transaction committed a failed call's projection row whose id was new to
      the journal: it did not roll back, but swallowed, a Go-side failure after a chunk. */
  lemma JournaledIffNothingSwallowed(topics: set<Topic>, acts: seq<Action>)
    ensures AlwaysJournaled(topics, Init, acts) <==> Run(topics, Init, acts).swallowed == {}
  {
    AlwaysJournaledIff(topics, Init, acts);
  }

  /** Then it is exactly one; and nowhere does an id have two. */
  lemma ExactlyOneJournalRow(topics: set<Topic>, acts: seq<Action>, id: Id)
    ensures var db := Run(topics, Init, acts);
            && (forall p, q | p in db.journal && q in db.journal && db.journal[p] == id && db.journal[q] == id :: p == q)
            && (id in db.outbox && db.outbox[id] in topics && id !in db.swallowed ==> exists p | p in db.journal :: db.journal[p] == id)
  {
    RunKeeps(topics, Init, acts);
    var db := Run(topics, Init, acts);
    assert id in db.outbox && db.outbox[id] in topics && id !in db.swallowed ==> Has(db.journal, id);
  }

  function OneTx(tx: Tx): Db {
    Db(map[], map[], 0, map[1 := tx], {})
  }

  lemma FirstChunk(chunk: Outbox)
    ensures Step({"orders"}, OneTx(Tx(Nothing, [], Calling({}, {}), false)), InsertChunk(1, chunk))
         == OneTx(Tx(View(chunk, map[], {}), [], Calling(chunk.Keys, {}), false))
  {
    var tx := Tx(Nothing, [], Calling({}, {}), false);
    assert !OutboxByOther(OneTx(tx), 1, chunk.Keys);
    assert tx.now.outbox + chunk == chunk && tx.call.written + chunk.Keys == chunk.Keys;
  }

  lemma FailsAfterChunk()
    ensures Step({"orders"}, OneTx(Tx(View(map[7 := "orders"], map[], {}), [], Calling({7}, {}), false)), GoFails(1))
         == OneTx(Tx(View(map[7 := "orders"], map[], {7}), [], NoCall, false))
  {
    var tx := Tx(View(map[7 := "orders"], map[], {}), [], Calling({7}, {}), false);
    assert Unjournaled({"orders"}, OneTx(tx), tx) == {7};
    assert tx.now.strays + {7} == {7};
  }

  lemma CommitsStray()
    ensures Step({"orders"}, OneTx(Tx(View(map[7 := "orders"], map[], {7}), [], NoCall, false)), Commit(1))
         == Db(map[7 := "orders"], map[], 0, map[], {7})
  {
    var db := OneTx(Tx(View(map[7 := "orders"], map[], {7}), [], NoCall, false));
    assert db.outbox + map[7 := "orders"] == map[7 := "orders"] && db.swallowed + {7} == {7};
    assert db.txs - {1} == map[];
  }

  lemma FiveSteps(topics: set<Topic>, db: Db, acts: seq<Action>)
    requires |acts| == 5
    ensures Run(topics, db, acts)
         == Step(topics, Step(topics, Step(topics, Step(topics, Step(topics, db, acts[0]), acts[1]), acts[2]), acts[3]), acts[4])
  {
    var db1 := Step(topics, db, acts[0]);
    var db2 := Step(topics, db1, acts[1]);
    var db3 := Step(topics, db2, acts[2]);
    var db4 := Step(topics, db3, acts[3]);
    assert Run(topics, db, acts) == Run(topics, db1, acts[1..]);
    assert acts[1..][1..] == acts[2..] && Run(topics, db1, acts[1..]) == Run(topics, db2, acts[2..]);
    assert acts[2..][1..] == acts[3..] && Run(topics, db2, acts[2..]) == Run(topics, db3, acts[3..]);
    assert acts[3..][1..] == acts[4..] && Run(topics, db3, acts[3..]) == Run(topics, db4, acts[4..]);
    assert acts[4..][1..] == [] && Run(topics, db4, acts[4..]) == Run(topics, Step(topics, db4, acts[4]), []);
  }

  function Breaking(): seq<Action> {
    [Begin(1), StartCall(1), InsertChunk(1, map[7 := "orders"]), GoFails(1), Commit(1)]
  }

  lemma BreakingStarts()
    ensures Step({"orders"}, Step({"orders"}, Init, Breaking()[0]), Breaking()[1]) == OneTx(Tx(Nothing, [], Calling({}, {}), false))
  {
  }

  /** The run that breaks it: a chunk, a Go-side failure, and a callback that commits. */
  lemma SwallowedFailureShows()
    ensures Run({"orders"}, Init, Breaking()) == Db(map[7 := "orders"], map[], 0, map[], {7})
  {
    FiveSteps({"orders"}, Init, Breaking());
    BreakingStarts();
    FirstChunk(map[7 := "orders"]);
    assert map[7 := "orders"].Keys == {7};
    FailsAfterChunk();
    CommitsStray();
  }

  lemma OneStepOnlyAdds(topics: set<Topic>, db: Db, a: Action)
    requires Inv(topics, db)
    ensures var next := Step(topics, db, a); forall p | p in db.journal :: p in next.journal && next.journal[p] == db.journal[p]
  {
    if a.Commit? && a.t in db.txs {
      assert TxOk(topics, db.journal, db.nextPos, db.txs[a.t]);
    }
  }

  /** Committed journal rows keep their positions for good, and ids stay unique. */
  lemma {:induction false} PositionsNeverMove(topics: set<Topic>, db: Db, more: seq<Action>)
    requires Inv(topics, db)
    ensures var later := Run(topics, db, more);
            && OncePerId(later.journal)
            && forall p | p in db.journal :: p in later.journal && later.journal[p] == db.journal[p]
    decreases |more|
  {
    if more != [] {
      StepKeeps(topics, db, more[0]);
      OneStepOnlyAdds(topics, db, more[0]);
      PositionsNeverMove(topics, Step(topics, db, more[0]), more[1..]);
    }
  }
}
