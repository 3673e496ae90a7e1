/** Concurrent appends to the audit ledger, adapters/postgres/audit_ledger_store.go.

    Any number of READ COMMITTED transactions append to any number of (namespace, tenant)
    chains; each SQL statement is one atomic step, and a step that would wait for the
    advisory lock leaves the state as it is.  Different chains may share a lock key.  The
    row lock taken on the tail row is not needed for what is proved here and is left out,
    so the results hold without it.

    Append hashes the entry it was given, with its times in nanoseconds; the table keeps
    microseconds.  Every row is therefore recorded with what was sent to Append. */
module AuditLedger {
  import opened AuditVerify

  type TxId = nat

  datatype ChainId = ChainId(namespace: string, tenant: string)

  /** A stored row and the fields it was appended with. */
  datatype Record = Record(sent: Fields, entry: Entry)

  type Log = map<int, Record>

  /** Rows by chain; a chain that is not listed is empty. */
  type Table = map<ChainId, Log>

  /** What Verify reads. */
  function Entries(m: Log): Chain {
    map p | p in m :: m[p].entry
  }

  const NanosPerMicro := 1000

  /** TIMESTAMPTZ keeps whole microseconds. */
  function ToMicros(nanos: int): int {
    nanos / NanosPerMicro * NanosPerMicro
  }

  function Stored(f: Fields): Fields {
    f.(occurredAt := ToMicros(f.occurredAt), timestamp := ToMicros(f.timestamp))
  }

  predicate WholeMicros(f: Fields) {
    f.occurredAt % NanosPerMicro == 0 && f.timestamp % NanosPerMicro == 0
  }

  /** lockKey stands for the pair of hashtext values; hash for the per-namespace keyed hash. */
  datatype Config = Config(lockKey: ChainId -> int, hash: string -> Hasher)

  /** One append under way: the entry, and what its statements have found so far. */
  datatype Pc =
    | Idle
    | Locked(chain: ChainId, fields: Fields, traceId: string)
    | Checked(chain: ChainId, fields: Fields, traceId: string)
    | Tailed(chain: ChainId, fields: Fields, traceId: string, prevHash: string, seqNo: int)

  datatype Tx = Tx(own: Table, locks: set<int>, pc: Pc, saved: Table, savedLocks: set<int>)

  datatype Db = Db(committed: Table, txs: map<TxId, Tx>)

  datatype Action =
    | Begin(t: TxId)
    | Lock(t: TxId, chain: ChainId, fields: Fields, traceId: string)
    | CheckFingerprint(t: TxId)
    | ReadTail(t: TxId)
    | Insert(t: TxId)
    | CallFails(t: TxId)
    | Commit(t: TxId)
    | Rollback(t: TxId)

  const Init := Db(map[], map[])

  function Rows(table: Table, chain: ChainId): Log {
    if chain in table then table[chain] else map[]
  }

  function Merge(table: Table, own: Table): Table {
    map chain | chain in table.Keys + own.Keys :: Rows(table, chain) + Rows(own, chain)
  }

  /** The rows of a chain that a statement of `tx` sees. */
  function Visible(committed: Table, tx: Tx, chain: ChainId): Log {
    Rows(committed, chain) + Rows(tx.own, chain)
  }

  /** checkFingerprint: some row of the chain carries the event id. */
  predicate HasEvent(m: Log, eventId: string) {
    exists p | p in m :: m[p].entry.fields.eventId == eventId
  }

  /** ORDER BY seq_no DESC LIMIT 1. */
  predicate IsTail(m: Log, p: int) {
    p in m && forall q | q in m :: q <= p
  }

  function Failed(tx: Tx): Tx {
    Tx(tx.saved, tx.savedLocks, Idle, tx.saved, tx.savedLocks)
  }

  /** readTailForUpdate: "" and 1 for an empty chain. */
  function AfterTail(committed: Table, tx: Tx): Tx
    requires tx.pc.Checked?
  {
    var m := Visible(committed, tx, tx.pc.chain);
    if exists p | p in m :: IsTail(m, p) then
      var p :| p in m && IsTail(m, p);
      tx.(pc := Tailed(tx.pc.chain, tx.pc.fields, tx.pc.traceId, m[p].entry.hash, p + 1))
    else
      tx.(pc := Tailed(tx.pc.chain, tx.pc.fields, tx.pc.traceId, "", 1))
  }

  /** Hashed as sent, stored with its times cut to microseconds. */
  function NewRecord(cfg: Config, pc: Pc): Record
    requires pc.Tailed?
  {
    Record(pc.fields,
           Entry(Stored(pc.fields), pc.traceId, pc.prevHash, cfg.hash(pc.chain.namespace)(pc.prevHash, pc.fields)))
  }

  function Inserted(cfg: Config, tx: Tx): Tx
    requires tx.pc.Tailed?
  {
    var chain := tx.pc.chain;
    tx.(own := tx.own[chain := Rows(tx.own, chain)[tx.pc.seqNo := NewRecord(cfg, tx.pc)]], pc := Idle)
  }

  predicate LockFree(db: Db, t: TxId, key: int) {
    forall u | u in db.txs && u != t :: key !in db.txs[u].locks
  }

  /** No unique index is violated, by a committed row or by anybody's uncommitted one. */
  predicate Insertable(db: Db, chain: ChainId, seqNo: int, eventId: string) {
    && seqNo !in Rows(db.committed, chain) && !HasEvent(Rows(db.committed, chain), eventId)
    && forall u | u in db.txs :: seqNo !in Rows(db.txs[u].own, chain) && !HasEvent(Rows(db.txs[u].own, chain), eventId)
  }

  function SetTx(db: Db, t: TxId, tx: Tx): Db {
    db.(txs := db.txs[t := tx])
  }

  function Step(cfg: Config, db: Db, a: Action): Db {
    if a.Begin? then
      if a.t in db.txs then db else SetTx(db, a.t, Tx(map[], {}, Idle, map[], {}))
    else if a.t !in db.txs then db
    else
      var tx := db.txs[a.t];
      match a
      case Begin(_) => db
      case Lock(t, chain, fields, traceId) =>
        if tx.pc.Idle? && chain.tenant == fields.tenantId && LockFree(db, t, cfg.lockKey(chain)) then
          SetTx(db, t, Tx(tx.own, tx.locks + {cfg.lockKey(chain)}, Locked(chain, fields, traceId), tx.own, tx.locks))
        else db
      case CheckFingerprint(t) =>
        if !tx.pc.Locked? then db
        else if HasEvent(Visible(db.committed, tx, tx.pc.chain), tx.pc.fields.eventId) then SetTx(db, t, Failed(tx))
        else SetTx(db, t, tx.(pc := Checked(tx.pc.chain, tx.pc.fields, tx.pc.traceId)))
      case ReadTail(t) =>
        if tx.pc.Checked? then SetTx(db, t, AfterTail(db.committed, tx)) else db
      case Insert(t) =>
        if !tx.pc.Tailed? then db
        else if Insertable(db, tx.pc.chain, tx.pc.seqNo, tx.pc.fields.eventId) then SetTx(db, t, Inserted(cfg, tx))
        else SetTx(db, t, Failed(tx))
      case CallFails(t) => if tx.pc.Idle? then db else SetTx(db, t, Failed(tx))
      case Commit(t) => if tx.pc.Idle? then Db(Merge(db.committed, tx.own), db.txs - {t}) else db
      case Rollback(t) => db.(txs := db.txs - {t})
  }

  function Run(cfg: Config, db: Db, acts: seq<Action>): Db
    decreases |acts|
  {
    if acts == [] then db else Run(cfg, Step(cfg, db, acts[0]), acts[1..])
  }

  // ------------------------------------------------------------------
  // The invariant
  // ------------------------------------------------------------------

  ghost predicate DistinctEvents(m: Log) {
    forall p, q | p in m && q in m && m[p].entry.fields.eventId == m[q].entry.fields.eventId :: p == q
  }

  /** The hash of the row before `p`, or "" at genesis. */
  function PrevHash(m: Log, p: int): string {
    if p > 1 && p - 1 in m then m[p - 1].entry.hash else ""
  }

  /** Present, linked to its predecessor, hashed over what was sent and stored as far as the
      column types allow. */
  predicate Linked(h: Hasher, m: Log, p: int) {
    && p in m
    && m[p].entry.prevHash == PrevHash(m, p)
    && m[p].entry.hash == h(m[p].entry.prevHash, m[p].sent)
    && m[p].entry.fields == Stored(m[p].sent)
  }

  /** Numbered 1..n without gaps, linked from "", one row per event id. */
  ghost predicate WellFormed(h: Hasher, m: Log) {
    && (forall p :: p in m <==> 1 <= p <= |m|)
    && (forall p | 1 <= p <= |m| :: Linked(h, m, p))
    && DistinctEvents(m)
  }

  /** Every chain as the transaction sees it is well formed, and it holds the lock of every
      chain it has added to. */
  ghost predicate ChainOk(cfg: Config, committed: Table, tx: Tx, chain: ChainId) {
    && WellFormed(cfg.hash(chain.namespace), Visible(committed, tx, chain))
    && (Rows(tx.own, chain) != map[] ==> cfg.lockKey(chain) in tx.locks)
    && Rows(committed, chain).Keys !! Rows(tx.own, chain).Keys
  }

  /** What an append has found out still holds. */
  ghost predicate PcOk(cfg: Config, committed: Table, tx: Tx) {
    tx.pc.Idle? ||
    (var m := Visible(committed, tx, tx.pc.chain);
     && cfg.lockKey(tx.pc.chain) in tx.locks
     && (!tx.pc.Locked? ==> !HasEvent(m, tx.pc.fields.eventId))
     && (tx.pc.Tailed? ==> tx.pc.seqNo == |m| + 1 && tx.pc.prevHash == PrevHash(m, |m| + 1)))
  }

  ghost predicate Local(cfg: Config, committed: Table, tx: Tx) {
    (forall chain: ChainId :: ChainOk(cfg, committed, tx, chain)) && PcOk(cfg, committed, tx)
  }

  ghost predicate Restorable(cfg: Config, committed: Table, tx: Tx) {
    tx.savedLocks <= tx.locks && Local(cfg, committed, Failed(tx))
  }

  ghost predicate Inv(cfg: Config, db: Db) {
    && (forall chain: ChainId :: WellFormed(cfg.hash(chain.namespace), Rows(db.committed, chain)))
    && (forall t | t in db.txs ::
          Local(cfg, db.committed, db.txs[t]) && (!db.txs[t].pc.Idle? ==> Restorable(cfg, db.committed, db.txs[t])))
    && (forall t, u | t in db.txs && u in db.txs && t != u :: db.txs[t].locks !! db.txs[u].locks)
  }

  lemma OnlyTx(cfg: Config, db: Db, t: TxId, tx: Tx)
    requires Inv(cfg, db) && Local(cfg, db.committed, tx) && (!tx.pc.Idle? ==> Restorable(cfg, db.committed, tx))
    requires forall u | u in db.txs && u != t :: tx.locks !! db.txs[u].locks
    ensures Inv(cfg, SetTx(db, t, tx))
  {
  }

  lemma KeepsChains(cfg: Config, committed: Table, tx: Tx, tx': Tx)
    requires Local(cfg, committed, tx) && tx'.own == tx.own && tx.locks <= tx'.locks && PcOk(cfg, committed, tx')
    ensures Local(cfg, committed, tx')
  {
    forall chain: ChainId ensures ChainOk(cfg, committed, tx', chain) {
      assert ChainOk(cfg, committed, tx, chain);
      assert Visible(committed, tx', chain) == Visible(committed, tx, chain);
    }
  }

  lemma KeepsBegin(cfg: Config, db: Db, t: TxId)
    requires Inv(cfg, db) && t !in db.txs
    ensures Inv(cfg, SetTx(db, t, Tx(map[], {}, Idle, map[], {})))
  {
    var tx := Tx(map[], {}, Idle, map[], {});
    forall chain: ChainId ensures ChainOk(cfg, db.committed, tx, chain) {
      assert Visible(db.committed, tx, chain) == Rows(db.committed, chain);
    }
    OnlyTx(cfg, db, t, tx);
  }

  lemma KeepsLock(cfg: Config, db: Db, a: Action)
    requires Inv(cfg, db) && a.Lock? && a.t in db.txs
    requires db.txs[a.t].pc.Idle? && LockFree(db, a.t, cfg.lockKey(a.chain))
    ensures Inv(cfg, Step(cfg, db, a))
  {
    if a.chain.tenant == a.fields.tenantId {
      var tx := db.txs[a.t];
      var tx' := Tx(tx.own, tx.locks + {cfg.lockKey(a.chain)}, Locked(a.chain, a.fields, a.traceId), tx.own, tx.locks);
      KeepsChains(cfg, db.committed, tx, tx');
      KeepsChains(cfg, db.committed, tx, Failed(tx'));
      OnlyTx(cfg, db, a.t, tx');
    }
  }

  lemma KeepsCheck(cfg: Config, db: Db, a: Action)
    requires Inv(cfg, db) && a.CheckFingerprint? && a.t in db.txs && db.txs[a.t].pc.Locked?
    ensures Inv(cfg, Step(cfg, db, a))
  {
    var tx := db.txs[a.t];
    if HasEvent(Visible(db.committed, tx, tx.pc.chain), tx.pc.fields.eventId) {
      OnlyTx(cfg, db, a.t, Failed(tx));
    } else {
      var tx' := tx.(pc := Checked(tx.pc.chain, tx.pc.fields, tx.pc.traceId));
      KeepsChains(cfg, db.committed, tx, tx');
      OnlyTx(cfg, db, a.t, tx');
    }
  }

  lemma TailIsLast(h: Hasher, m: Log, p: int)
    requires WellFormed(h, m)
    ensures IsTail(m, p) <==> m != map[] && p == |m|
  {
    if m != map[] {
      assert |m| in m;
    }
  }

  lemma KeepsTail(cfg: Config, db: Db, a: Action)
    requires Inv(cfg, db) && a.ReadTail? && a.t in db.txs && db.txs[a.t].pc.Checked?
    ensures Inv(cfg, Step(cfg, db, a))
  {
    var tx := db.txs[a.t];
    var tx' := AfterTail(db.committed, tx);
    var m := Visible(db.committed, tx, tx.pc.chain);
    assert ChainOk(cfg, db.committed, tx, tx.pc.chain);
    TailIsLast(cfg.hash(tx.pc.chain.namespace), m, |m|);
    forall p ensures IsTail(m, p) ==> p == |m| { TailIsLast(cfg.hash(tx.pc.chain.namespace), m, p); }
    assert m != map[] ==> IsTail(m, |m|);
    KeepsChains(cfg, db.committed, tx, tx');
    OnlyTx(cfg, db, a.t, tx');
  }

  /** One more row on top of a well-formed chain. */
  lemma Extends(h: Hasher, m: Log, r: Record)
    requires WellFormed(h, m) && !HasEvent(m, r.sent.eventId)
    requires r.entry.prevHash == PrevHash(m, |m| + 1) && r.entry.hash == h(r.entry.prevHash, r.sent)
    requires r.entry.fields == Stored(r.sent)
    ensures WellFormed(h, m[|m| + 1 := r])
  {
    var n := |m| + 1;
    var m' := m[n := r];
    assert n !in m && |m'| == n;
    forall p | 1 <= p <= n ensures Linked(h, m', p) {
      if p < n { assert Linked(h, m, p); }
    }
  }

  lemma VisibleAfterInsert(cfg: Config, committed: Table, tx: Tx, chain: ChainId)
    requires tx.pc.Tailed?
    ensures Visible(committed, Inserted(cfg, tx), chain)
            == if chain == tx.pc.chain then Visible(committed, tx, chain)[tx.pc.seqNo := NewRecord(cfg, tx.pc)]
               else Visible(committed, tx, chain)
  {
  }

  lemma InsertExtendsChain(cfg: Config, committed: Table, tx: Tx)
    requires tx.pc.Tailed? && PcOk(cfg, committed, tx) && ChainOk(cfg, committed, tx, tx.pc.chain)
    requires tx.pc.seqNo !in Rows(committed, tx.pc.chain)
    ensures ChainOk(cfg, committed, Inserted(cfg, tx), tx.pc.chain)
  {
    var chain := tx.pc.chain;
    var m, h := Visible(committed, tx, chain), cfg.hash(chain.namespace);
    VisibleAfterInsert(cfg, committed, tx, chain);
    Extends(h, m, NewRecord(cfg, tx.pc));
    assert WellFormed(h, Visible(committed, Inserted(cfg, tx), chain));
  }

  lemma InsertKeepsChain(cfg: Config, committed: Table, tx: Tx, chain: ChainId)
    requires tx.pc.Tailed? && PcOk(cfg, committed, tx) && ChainOk(cfg, committed, tx, chain)
    requires tx.pc.seqNo !in Rows(committed, tx.pc.chain)
    ensures ChainOk(cfg, committed, Inserted(cfg, tx), chain)
  {
    if chain == tx.pc.chain {
      InsertExtendsChain(cfg, committed, tx);
    } else {
      VisibleAfterInsert(cfg, committed, tx, chain);
    }
  }

  lemma KeepsInsert(cfg: Config, db: Db, a: Action)
    requires Inv(cfg, db) && a.Insert? && a.t in db.txs && db.txs[a.t].pc.Tailed?
    ensures Inv(cfg, Step(cfg, db, a))
  {
    var tx := db.txs[a.t];
    if Insertable(db, tx.pc.chain, tx.pc.seqNo, tx.pc.fields.eventId) {
      forall chain: ChainId ensures ChainOk(cfg, db.committed, Inserted(cfg, tx), chain) {
        assert ChainOk(cfg, db.committed, tx, chain);
        InsertKeepsChain(cfg, db.committed, tx, chain);
      }
      OnlyTx(cfg, db, a.t, Inserted(cfg, tx));
    } else {
      OnlyTx(cfg, db, a.t, Failed(tx));
    }
  }

  /** The unique indexes never have to refuse an append: what it inserts is new. */
  lemma NoConflictWith(cfg: Config, committed: Table, tx: Tx, other: Tx)
    requires Local(cfg, committed, tx) && Local(cfg, committed, other) && tx.pc.Tailed?
    requires other == tx || tx.locks !! other.locks
    ensures var rows := Rows(other.own, tx.pc.chain);
            tx.pc.seqNo !in rows && !HasEvent(rows, tx.pc.fields.eventId)
  {
    var chain := tx.pc.chain;
    var m := Visible(committed, tx, chain);
    assert ChainOk(cfg, committed, tx, chain) && ChainOk(cfg, committed, other, chain);
    if other == tx {
      assert forall p | p in Rows(tx.own, chain) :: p in m && m[p] == Rows(tx.own, chain)[p];
    }
  }

  lemma InsertNeverConflicts(cfg: Config, db: Db, t: TxId)
    requires Inv(cfg, db) && t in db.txs && db.txs[t].pc.Tailed?
    ensures Insertable(db, db.txs[t].pc.chain, db.txs[t].pc.seqNo, db.txs[t].pc.fields.eventId)
  {
    var tx := db.txs[t];
    var m, rows := Visible(db.committed, tx, tx.pc.chain), Rows(db.committed, tx.pc.chain);
    assert ChainOk(cfg, db.committed, tx, tx.pc.chain);
    assert forall p | p in rows :: p in m && (p !in Rows(tx.own, tx.pc.chain) ==> m[p] == rows[p]);
    forall u | u in db.txs
      ensures var own := Rows(db.txs[u].own, tx.pc.chain); tx.pc.seqNo !in own && !HasEvent(own, tx.pc.fields.eventId)
    {
      NoConflictWith(cfg, db.committed, tx, db.txs[u]);
    }
  }

  lemma RowsAfterCommit(committed: Table, tx: Tx, chain: ChainId)
    ensures Rows(Merge(committed, tx.own), chain) == Visible(committed, tx, chain)
  {
  }

  lemma VisibleAfterCommit(committed: Table, tx: Tx, other: Tx, chain: ChainId)
    ensures Rows(Merge(committed, tx.own), chain) == Visible(committed, tx, chain)
    ensures Rows(tx.own, chain) == map[] ==>
              && Rows(Merge(committed, tx.own), chain) == Rows(committed, chain)
              && Visible(Merge(committed, tx.own), other, chain) == Visible(committed, other, chain)
    ensures Rows(other.own, chain) == map[] ==>
              Visible(Merge(committed, tx.own), other, chain) == Visible(committed, tx, chain)
  {
    RowsAfterCommit(committed, tx, chain);
    var m: Log := Visible(committed, tx, chain);
    assert m + map[] == m;
    assert Rows(committed, chain) + map[] == Rows(committed, chain);
  }

  lemma CommitLeavesChain(cfg: Config, committed: Table, tx: Tx, other: Tx, chain: ChainId)
    requires ChainOk(cfg, committed, tx, chain) && ChainOk(cfg, committed, other, chain) && tx.locks !! other.locks
    ensures ChainOk(cfg, Merge(committed, tx.own), other, chain)
    ensures cfg.lockKey(chain) in other.locks ==>
              Visible(Merge(committed, tx.own), other, chain) == Visible(committed, other, chain)
  {
    VisibleAfterCommit(committed, tx, other, chain);
  }

  lemma CommitLeavesOthers(cfg: Config, committed: Table, tx: Tx, other: Tx)
    requires forall chain: ChainId :: WellFormed(cfg.hash(chain.namespace), Rows(committed, chain))
    requires Local(cfg, committed, tx) && Local(cfg, committed, other) && tx.locks !! other.locks
    ensures Local(cfg, Merge(committed, tx.own), other)
  {
    forall chain: ChainId ensures ChainOk(cfg, Merge(committed, tx.own), other, chain) {
      assert ChainOk(cfg, committed, tx, chain) && ChainOk(cfg, committed, other, chain);
      CommitLeavesChain(cfg, committed, tx, other, chain);
    }
    if !other.pc.Idle? {
      assert ChainOk(cfg, committed, tx, other.pc.chain) && ChainOk(cfg, committed, other, other.pc.chain);
      CommitLeavesChain(cfg, committed, tx, other, other.pc.chain);
    }
  }

  lemma CommitSettles(cfg: Config, committed: Table, tx: Tx)
    requires Local(cfg, committed, tx)
    ensures forall chain: ChainId :: WellFormed(cfg.hash(chain.namespace), Rows(Merge(committed, tx.own), chain))
  {
    forall chain: ChainId ensures WellFormed(cfg.hash(chain.namespace), Rows(Merge(committed, tx.own), chain)) {
      assert ChainOk(cfg, committed, tx, chain);
      RowsAfterCommit(committed, tx, chain);
    }
  }

  lemma CommitLeavesTx(cfg: Config, db: Db, t: TxId, u: TxId)
    requires Inv(cfg, db) && t in db.txs && u in db.txs && t != u
    ensures var merged := Merge(db.committed, db.txs[t].own);
            Local(cfg, merged, db.txs[u]) && (!db.txs[u].pc.Idle? ==> Restorable(cfg, merged, db.txs[u]))
  {
    CommitLeavesOthers(cfg, db.committed, db.txs[t], db.txs[u]);
    if !db.txs[u].pc.Idle? {
      CommitLeavesOthers(cfg, db.committed, db.txs[t], Failed(db.txs[u]));
    }
  }

  lemma KeepsCommit(cfg: Config, db: Db, a: Action)
    requires Inv(cfg, db) && a.Commit? && a.t in db.txs && db.txs[a.t].pc.Idle?
    ensures Inv(cfg, Step(cfg, db, a))
  {
    var merged := Merge(db.committed, db.txs[a.t].own);
    CommitSettles(cfg, db.committed, db.txs[a.t]);
    forall u | u in db.txs && u != a.t
      ensures Local(cfg, merged, db.txs[u]) && (!db.txs[u].pc.Idle? ==> Restorable(cfg, merged, db.txs[u]))
    {
      CommitLeavesTx(cfg, db, a.t, u);
    }
    assert Step(cfg, db, a) == Db(merged, db.txs - {a.t});
  }

  lemma StepKeeps(cfg: Config, db: Db, a: Action)
    requires Inv(cfg, db)
    ensures Inv(cfg, Step(cfg, db, a))
  {
    if a.Begin? {
      if a.t !in db.txs { KeepsBegin(cfg, db, a.t); }
    } else if a.t in db.txs {
      var tx := db.txs[a.t];
      match a
      case Begin(_) =>
      case Lock(t, chain, _, _) => if tx.pc.Idle? && LockFree(db, t, cfg.lockKey(chain)) { KeepsLock(cfg, db, a); }
      case CheckFingerprint(_) => if tx.pc.Locked? { KeepsCheck(cfg, db, a); }
      case ReadTail(_) => if tx.pc.Checked? { KeepsTail(cfg, db, a); }
      case Insert(_) => if tx.pc.Tailed? { KeepsInsert(cfg, db, a); }
      case CallFails(_) => if !tx.pc.Idle? { OnlyTx(cfg, db, a.t, Failed(tx)); }
      case Commit(_) => if tx.pc.Idle? { KeepsCommit(cfg, db, a); }
      case Rollback(_) =>
    }
  }

  lemma {:induction false} RunKeeps(cfg: Config, db: Db, acts: seq<Action>)
    requires Inv(cfg, db)
    ensures Inv(cfg, Run(cfg, db, acts))
    decreases |acts|
  {
    if acts != [] {
      StepKeeps(cfg, db, acts[0]);
      RunKeeps(cfg, Step(cfg, db, acts[0]), acts[1..]);
    }
  }

  // ------------------------------------------------------------------
  // Over every run
  // ------------------------------------------------------------------

  /** After every interleaving each chain is numbered 1..n, every row is linked to the one before
      it and hashed over the entry it was appended with, and each event is there once. */
  lemma ChainsStayLinked(cfg: Config, acts: seq<Action>, chain: ChainId, p: int)
    ensures var m := Rows(Run(cfg, Init, acts).committed, chain);
            && (p in m <==> 1 <= p <= |m|)
            && DistinctEvents(m)
            && (p in m ==>
                  && m[p].entry.prevHash == PrevOf(Entries(m), p)
                  && m[p].entry.hash == cfg.hash(chain.namespace)(m[p].entry.prevHash, m[p].sent))
  {
    RunKeeps(cfg, Init, acts);
    var m := Rows(Run(cfg, Init, acts).committed, chain);
    assert WellFormed(cfg.hash(chain.namespace), m);
    assert p in m ==> Linked(cfg.hash(chain.namespace), m, p);
  }

  lemma StoredIsSent(f: Fields)
    ensures Stored(f) == f <==> WholeMicros(f)
  {
  }

  /** A linked row rehashes if its times are whole microseconds, and under a collision-free hash
      only then. */
  lemma IntactIff(h: Hasher, m: Log, p: int)
    requires Linked(h, m, p)
    ensures WholeMicros(m[p].sent) ==> Intact(h, Entries(m), p)
    ensures CollisionFree(h) && Intact(h, Entries(m), p) ==> WholeMicros(m[p].sent)
  {
    StoredIsSent(m[p].sent);
    assert PrevOf(Entries(m), p) == PrevHash(m, p);
  }

  /** Any range of a chain verifies if everything appended in it had whole microseconds. */
  lemma WholeMicrosVerify(cfg: Config, acts: seq<Action>, chain: ChainId, a: int, c: int, r: Report)
    requires var m := Rows(Run(cfg, Init, acts).committed, chain);
             && 1 <= a <= c <= |m| && (forall p | a <= p <= c && p in m :: WholeMicros(m[p].sent))
             && IsReport(cfg.hash(chain.namespace), Entries(m), a, c, r)
    ensures r == Report(true, -1, NoFault)
  {
    RunKeeps(cfg, Init, acts);
    var m, h := Rows(Run(cfg, Init, acts).committed, chain), cfg.hash(chain.namespace);
    assert WellFormed(h, m);
    forall p | a <= p <= c ensures Intact(h, Entries(m), p) {
      assert p in m && Linked(h, m, p);
      IntactIff(h, m, p);
    }
    assert AllIntact(h, Entries(m), a, c);
  }

  /** Under a collision-free hash Verify of a range inside 1..n succeeds if and only if both times
      of every entry appended in it are whole microseconds; otherwise it names the first that is not. */
  lemma VerifiesIffWholeMicros(cfg: Config, acts: seq<Action>, chain: ChainId, a: int, c: int, r: Report)
    requires CollisionFree(cfg.hash(chain.namespace))
    requires var m := Rows(Run(cfg, Init, acts).committed, chain);
             1 <= a <= c <= |m| && IsReport(cfg.hash(chain.namespace), Entries(m), a, c, r)
    ensures var m := Rows(Run(cfg, Init, acts).committed, chain);
            && (r.valid <==> forall p | a <= p <= c && p in m :: WholeMicros(m[p].sent))
            && (!r.valid ==>
                  && a <= r.firstInvalid <= c && r.firstInvalid in m && !WholeMicros(m[r.firstInvalid].sent)
                  && forall p | a <= p < r.firstInvalid && p in m :: WholeMicros(m[p].sent))
  {
    RunKeeps(cfg, Init, acts);
    var m, h := Rows(Run(cfg, Init, acts).committed, chain), cfg.hash(chain.namespace);
    assert WellFormed(h, m);
    forall p | a <= p <= c ensures p in m && (Intact(h, Entries(m), p) <==> WholeMicros(m[p].sent)) {
      assert p in m && Linked(h, m, p);
      IntactIff(h, m, p);
    }
  }

  /** The six steps of an append that nothing interrupts, and its commit. */
  function AppendAlone(t: TxId, chain: ChainId, f: Fields, traceId: string): seq<Action> {
    [Begin(t), Lock(t, chain, f, traceId), CheckFingerprint(t), ReadTail(t), Insert(t), Commit(t)]
  }

  /** On an empty ledger the append stores row 1. */
  lemma FirstAppend(cfg: Config, t: TxId, chain: ChainId, f: Fields, traceId: string)
    requires chain.tenant == f.tenantId
    ensures Rows(Run(cfg, Init, AppendAlone(t, chain, f, traceId)).committed, chain)
         == map[1 := Record(f, Entry(Stored(f), traceId, "", cfg.hash(chain.namespace)("", f)))]
  {
    var acts := AppendAlone(t, chain, f, traceId);
    var key := cfg.lockKey(chain);
    var tx2 := Tx(map[], {key}, Locked(chain, f, traceId), map[], {});
    var db1 := Step(cfg, Init, acts[0]);
    var db2 := Step(cfg, db1, acts[1]);
    assert db1.txs[t].locks + {key} == {key} && LockFree(db1, t, key);
    assert db2 == Db(map[], map[t := tx2]);
    var db3 := Step(cfg, db2, acts[2]);
    var tx3 := tx2.(pc := Checked(chain, f, traceId));
    assert Visible(map[], tx2, chain) == map[] && !HasEvent(map[], f.eventId);
    assert db3 == Db(map[], map[t := tx3]);
    var db4 := Step(cfg, db3, acts[3]);
    var tx4 := tx2.(pc := Tailed(chain, f, traceId, "", 1));
    assert Visible(map[], tx3, chain) == map[];
    assert db4 == Db(map[], map[t := tx4]);
    FirstInsert(cfg, t, chain, f, traceId);
    SixSteps(cfg, Init, acts);
  }

  lemma FirstInsert(cfg: Config, t: TxId, chain: ChainId, f: Fields, traceId: string)
    ensures var tx := Tx(map[], {cfg.lockKey(chain)}, Tailed(chain, f, traceId, "", 1), map[], {});
            var db := Step(cfg, Step(cfg, Db(map[], map[t := tx]), Insert(t)), Commit(t));
            Rows(db.committed, chain) == map[1 := Record(f, Entry(Stored(f), traceId, "", cfg.hash(chain.namespace)("", f)))]
  {
    var tx := Tx(map[], {cfg.lockKey(chain)}, Tailed(chain, f, traceId, "", 1), map[], {});
    var db := Db(map[], map[t := tx]);
    assert Insertable(db, chain, 1, f.eventId);
    assert Step(cfg, db, Insert(t)) == SetTx(db, t, Inserted(cfg, tx));
  }

  lemma SixSteps(cfg: Config, db: Db, acts: seq<Action>)
    requires |acts| == 6
    ensures Run(cfg, db, acts)
         == Step(cfg, Step(cfg, Step(cfg, Step(cfg, Step(cfg, Step(cfg, db, acts[0]), acts[1]), acts[2]), acts[3]), acts[4]), acts[5])
  {
    var db1 := Step(cfg, db, acts[0]);
    var db2 := Step(cfg, db1, acts[1]);
    var db3 := Step(cfg, db2, acts[2]);
    var db4 := Step(cfg, db3, acts[3]);
    var db5 := Step(cfg, db4, acts[4]);
    assert Run(cfg, db, acts) == Run(cfg, db1, acts[1..]);
    assert acts[1..][1..] == acts[2..] && Run(cfg, db1, acts[1..]) == Run(cfg, db2, acts[2..]);
    assert acts[2..][1..] == acts[3..] && Run(cfg, db2, acts[2..]) == Run(cfg, db3, acts[3..]);
    assert acts[3..][1..] == acts[4..] && Run(cfg, db3, acts[3..]) == Run(cfg, db4, acts[4..]);
    assert acts[4..][1..] == acts[5..] && Run(cfg, db4, acts[4..]) == Run(cfg, db5, acts[5..]);
    assert acts[5..][1..] == [] && Run(cfg, db5, acts[5..]) == Run(cfg, Step(cfg, db5, acts[5]), []);
  }

  /** A time one nanosecond past a microsecond: the entry is reported as tampered with right after
      a clean append to an empty ledger. */
  lemma NanosecondEntryFailsVerify(cfg: Config, t: TxId, chain: ChainId, traceId: string, r: Report)
    requires CollisionFree(cfg.hash(chain.namespace))
    requires var f := Fields("e", "auth.fail", "system", "", chain.tenant, "", "", 0, 1, []);
             IsReport(cfg.hash(chain.namespace), Entries(Rows(Run(cfg, Init, AppendAlone(t, chain, f, traceId)).committed, chain)), 1, 1, r)
    ensures r == Report(false, 1, NoFault)
  {
    var f := Fields("e", "auth.fail", "system", "", chain.tenant, "", "", 0, 1, []);
    FirstAppend(cfg, t, chain, f, traceId);
    var acts := AppendAlone(t, chain, f, traceId);
    var m := Rows(Run(cfg, Init, acts).committed, chain);
    assert m[1].sent == f && !WholeMicros(f);
    VerifiesIffWholeMicros(cfg, acts, chain, 1, 1, r);
    assert 1 in Entries(m);
  }
}
