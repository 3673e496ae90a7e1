/** What every reachable state of the refresh token table satisfies. */
module RefreshInvariants {
  import opened Options
  import opened RefreshTokens

  ghost predicate SameLineage(a: Row, b: Row) {
    a.root == b.root && a.session == b.session && a.subject == b.subject && a.epoch == b.epoch
  }

  /** The row's root and parent are there and agree with it. */
  ghost predicate RowOk(cfg: Config, m: map<Id, Row>, id: Id, r: Row) {
    && r.root in m && SameLineage(m[r.root], r)
    && (r.parent.None? ==> r.root == id)
    && (r.parent.Some? ==> r.parent.value in m && SameLineage(m[r.parent.value], r))
    && r.usedTimes <= cfg.policy.graceMaxReuses
  }

  /** How often the row has been exchanged for a child, by its own columns. */
  ghost function Uses(r: Row): nat {
    r.usedTimes + if r.rotatedAt.Some? then 1 else 0
  }

  ghost function UsesIn(m: map<Id, Row>, id: Id): nat {
    if id in m then Uses(m[id]) else 0
  }

  ghost function Children(m: map<Id, Row>, id: Id): set<Id> {
    set c | c in m && m[c].parent == Some(id)
  }

  /** Children of `id` the transaction has inserted. */
  ghost function NewChildren(committed: map<Id, Row>, own: map<Id, Row>, id: Id): set<Id> {
    set c | c in own && c !in committed && own[c].parent == Some(id)
  }

  ghost predicate Settled(cfg: Config, committed: map<Id, Row>) {
    && (forall id | id in committed :: RowOk(cfg, committed, id, committed[id]))
    && (forall id: Id :: Balanced(committed, id))
  }

  ghost predicate Balanced(committed: map<Id, Row>, id: Id) {
    |Children(committed, id)| == UsesIn(committed, id)
  }

  /** A committed row of the lineage that the transaction has locked or is about to mark. */
  ghost predicate Anchored(committed: map<Id, Row>, tx: Tx, root: Id) {
    exists p :: p in committed && committed[p].root == root
                && (p in tx.own || (tx.pc.Marking? && tx.pc.id == p))
  }

  ghost predicate OwnRowOk(cfg: Config, committed: map<Id, Row>, tx: Tx, id: Id)
    requires id in tx.own
  {
    var r := tx.own[id];
    && RowOk(cfg, Visible(committed, tx), id, r)
    && r.revokedAt.None?
    && (r.root in committed ==> cfg.lockKey(r.session) in tx.locks)
    && (id in committed ==>
          r == committed[id].(rotatedAt := r.rotatedAt, firstUsedAt := r.firstUsedAt, usedTimes := r.usedTimes))
    && (id !in committed && r.root in committed ==> Anchored(committed, tx, r.root))
  }

  /** The row a call has read under the session lock is still what it was. */
  ghost predicate PcOk(cfg: Config, committed: map<Id, Row>, tx: Tx) {
    var m := Visible(committed, tx);
    match tx.pc
    case Idle => true
    case Located(id, _, _, session) => id in m && m[id].session == session
    case Locked(id, _, _, session) => cfg.lockKey(session) in tx.locks && id in m && m[id].session == session
    case Cascading(session, _) => cfg.lockKey(session) in tx.locks
    case Counting(id, row, _) =>
      && cfg.lockKey(row.session) in tx.locks && id in m && m[id] == row
      && row.revokedAt.None? && row.rotatedAt.Some? && row.usedTimes < cfg.policy.graceMaxReuses
    case Inserting(id, row) =>
      && cfg.lockKey(row.session) in tx.locks && id in m && SameLineage(m[id], row) && m[id].revokedAt.None?
      && (row.rotatedAt.None? ==> m[id] == row)
      && (row.rotatedAt.Some? ==> id in tx.own)
    case Marking(id, row, _) =>
      && cfg.lockKey(row.session) in tx.locks && id in m && m[id] == row
      && row.revokedAt.None? && row.rotatedAt.None?
  }

  /** Children inserted but not yet accounted for in the parent, or the other way round. */
  ghost function Unmarked(pc: Pc, id: Id): nat {
    if pc.Marking? && pc.id == id then 1 else 0
  }

  ghost function Uninserted(pc: Pc, id: Id): nat {
    if pc.Inserting? && pc.id == id && pc.row.rotatedAt.Some? then 1 else 0
  }

  ghost predicate Accounted(committed: map<Id, Row>, tx: Tx, id: Id) {
    |NewChildren(committed, tx.own, id)| + Uninserted(tx.pc, id) + UsesIn(committed, id)
    == UsesIn(Visible(committed, tx), id) + Unmarked(tx.pc, id)
  }

  ghost predicate Local(cfg: Config, committed: map<Id, Row>, tx: Tx) {
    && (forall id | id in tx.own :: OwnRowOk(cfg, committed, tx, id))
    && PcOk(cfg, committed, tx)
    && (forall id: Id :: Accounted(committed, tx, id))
  }

  /** What the savepoint of the running call would bring back. */
  ghost function Restored(tx: Tx): Tx {
    Tx(tx.saved, tx.savedLocks, Idle, tx.saved, tx.savedLocks)
  }

  ghost predicate Restorable(cfg: Config, committed: map<Id, Row>, tx: Tx) {
    tx.pc.Idle? ||
    (tx.saved.Keys <= tx.own.Keys && tx.savedLocks <= tx.locks && Local(cfg, committed, Restored(tx)))
  }

  ghost predicate Apart(a: Tx, b: Tx) {
    a.own.Keys !! b.own.Keys && a.locks !! b.locks
  }

  ghost predicate Inv(cfg: Config, db: Db) {
    && Settled(cfg, db.committed)
    && (forall t | t in db.txs :: Local(cfg, db.committed, db.txs[t]) && Restorable(cfg, db.committed, db.txs[t]))
    && (forall t, u | t in db.txs && u in db.txs && t != u :: Apart(db.txs[t], db.txs[u]))
  }

  // ------------------------------------------------------------------
  // Steps that only change the transaction taking them
  // ------------------------------------------------------------------

  /** Enough to know about the new version of one transaction. */
  lemma OnlyTx(cfg: Config, db: Db, t: TxId, tx: Tx)
    requires Inv(cfg, db)
    requires Local(cfg, db.committed, tx) && Restorable(cfg, db.committed, tx)
    requires forall u | u in db.txs && u != t :: Apart(tx, db.txs[u])
    ensures Inv(cfg, SetTx(db, t, tx))
  {
  }

  /** No half-finished bookkeeping at this point of a call. */
  ghost predicate Even(pc: Pc) {
    !pc.Marking? && (pc.Inserting? ==> pc.row.rotatedAt.None?)
  }

  /** A change of program counter alone. */
  lemma MovePc(cfg: Config, committed: map<Id, Row>, tx: Tx, tx': Tx)
    requires Local(cfg, committed, tx)
    requires tx'.own == tx.own && tx.locks <= tx'.locks
    requires Even(tx.pc) && Even(tx'.pc)
    requires PcOk(cfg, committed, tx')
    ensures Local(cfg, committed, tx')
  {
    assert Visible(committed, tx') == Visible(committed, tx);
    forall id: Id ensures Accounted(committed, tx', id) {
      assert Accounted(committed, tx, id);
    }
    forall id | id in tx'.own ensures OwnRowOk(cfg, committed, tx', id) {
      assert OwnRowOk(cfg, committed, tx, id);
      if id !in committed && tx.own[id].root in committed {
        var p :| p in committed && committed[p].root == tx.own[id].root && p in tx.own;
        assert Anchored(committed, tx', tx.own[id].root);
      }
    }
  }

  lemma KeepsBegin(cfg: Config, db: Db, t: TxId)
    requires Inv(cfg, db) && t !in db.txs
    ensures Inv(cfg, SetTx(db, t, Tx(map[], {}, Idle, map[], {})))
  {
    var tx := Tx(map[], {}, Idle, map[], {});
    assert Visible(db.committed, tx) == db.committed;
    assert forall id: Id :: NewChildren(db.committed, tx.own, id) == {};
    OnlyTx(cfg, db, t, tx);
  }

  lemma KeepsIssue(cfg: Config, db: Db, a: Action)
    requires ValidConfig(cfg) && Inv(cfg, db) && a.Issue? && a.t in db.txs
    requires db.txs[a.t].pc.Idle? && Unused(db, a.id)
    ensures Inv(cfg, SetTx(db, a.t, db.txs[a.t].(own := db.txs[a.t].own[a.id := RootRow(cfg, a)])))
  {
    var tx := db.txs[a.t];
    var tx' := tx.(own := tx.own[a.id := RootRow(cfg, a)]);
    AddRow(cfg, db.committed, tx, a.id, RootRow(cfg, a), Idle);
    assert tx' == With(tx, a.id, RootRow(cfg, a), Idle);
    OnlyTx(cfg, db, a.t, tx');
  }

  /** A row nobody knows: a root, or a child of the row a call has read. */
  ghost predicate Insertable(committed: map<Id, Row>, tx: Tx, id: Id, r: Row, pc: Pc) {
    && id !in committed && id !in tx.own
    && r.rotatedAt.None? && r.revokedAt.None? && r.usedTimes == 0
    && (r.parent.None? ==> r.root == id && tx.pc == pc == Idle)
    && (r.parent.Some? ==>
          && tx.pc.Inserting? && r.parent.value == tx.pc.id && SameLineage(r, tx.pc.row)
          && if tx.pc.row.rotatedAt.None? then pc.Marking? && pc.id == tx.pc.id && pc.row == tx.pc.row else pc == Idle)
  }

  ghost function With(tx: Tx, id: Id, r: Row, pc: Pc): Tx {
    Tx(tx.own[id := r], tx.locks, pc, tx.saved, tx.savedLocks)
  }

  lemma AddedRows(cfg: Config, committed: map<Id, Row>, tx: Tx, id: Id, r: Row, pc: Pc)
    requires ValidConfig(cfg) && Settled(cfg, committed) && Local(cfg, committed, tx)
    requires Insertable(committed, tx, id, r, pc)
    ensures var tx' := With(tx, id, r, pc); forall k | k in tx'.own :: OwnRowOk(cfg, committed, tx', k)
  {
    NewRowOk(cfg, committed, tx, id, r, pc);
    forall k | k in tx.own ensures OwnRowOk(cfg, committed, With(tx, id, r, pc), k) {
      OldRowOk(cfg, committed, tx, id, r, pc, k);
    }
  }

  lemma AddRow(cfg: Config, committed: map<Id, Row>, tx: Tx, id: Id, r: Row, pc: Pc)
    requires ValidConfig(cfg) && Settled(cfg, committed) && Local(cfg, committed, tx)
    requires Insertable(committed, tx, id, r, pc)
    ensures Local(cfg, committed, With(tx, id, r, pc))
  {
    var tx' := With(tx, id, r, pc);
    AddedRows(cfg, committed, tx, id, r, pc);
    NoChildrenOfUnknown(cfg, committed, tx, id);
    forall k: Id ensures Accounted(committed, tx', k) {
      assert Accounted(committed, tx, k);
      AddedAccounted(committed, tx, id, r, pc, k);
    }
    VisibleWith(committed, tx, id, r, pc);
  }

  lemma NewRowAnchored(cfg: Config, committed: map<Id, Row>, tx: Tx, id: Id, r: Row, pc: Pc)
    requires Settled(cfg, committed) && Local(cfg, committed, tx) && Insertable(committed, tx, id, r, pc)
    requires r.parent.Some? && r.root in committed
    ensures Anchored(committed, With(tx, id, r, pc), r.root)
  {
    var p, tx' := tx.pc.id, With(tx, id, r, pc);
    if p in committed {
      assert committed[p].root == r.root && (p in tx'.own || tx'.pc.Marking?);
    } else {
      assert OwnRowOk(cfg, committed, tx, p);
      var q :| q in committed && committed[q].root == r.root && q in tx.own;
      assert q in tx'.own;
    }
  }

  /** A new row agrees with its root and its parent if its parent does. */
  lemma NewRowLinked(cfg: Config, m: map<Id, Row>, id: Id, r: Row)
    requires ValidConfig(cfg) && id !in m && r.usedTimes == 0
    requires r.parent.None? ==> r.root == id
    requires r.parent.Some? ==>
               && r.parent.value in m && SameLineage(r, m[r.parent.value])
               && RowOk(cfg, m, r.parent.value, m[r.parent.value])
    ensures RowOk(cfg, m[id := r], id, r)
  {
  }

  lemma VisibleWith(committed: map<Id, Row>, tx: Tx, id: Id, r: Row, pc: Pc)
    ensures Visible(committed, With(tx, id, r, pc)) == Visible(committed, tx)[id := r]
  {
  }

  /** The parent of a new row, and the lock its lineage is held by. */
  lemma NewRowParent(cfg: Config, committed: map<Id, Row>, tx: Tx, id: Id, r: Row, pc: Pc)
    requires Settled(cfg, committed) && Local(cfg, committed, tx)
    requires Insertable(committed, tx, id, r, pc) && r.parent.Some?
    ensures var m, p := Visible(committed, tx), tx.pc.id;
            p in m && SameLineage(r, m[p]) && RowOk(cfg, m, p, m[p])
    ensures cfg.lockKey(r.session) in tx.locks
  {
    VisibleRowOk(cfg, committed, tx, tx.pc.id);
  }

  lemma NewRowOk(cfg: Config, committed: map<Id, Row>, tx: Tx, id: Id, r: Row, pc: Pc)
    requires ValidConfig(cfg) && Settled(cfg, committed) && Local(cfg, committed, tx)
    requires Insertable(committed, tx, id, r, pc)
    ensures OwnRowOk(cfg, committed, With(tx, id, r, pc), id)
  {
    if r.parent.Some? {
      NewRowParent(cfg, committed, tx, id, r, pc);
      if r.root in committed {
        NewRowAnchored(cfg, committed, tx, id, r, pc);
      }
    }
    NewRowLinked(cfg, Visible(committed, tx), id, r);
    VisibleWith(committed, tx, id, r, pc);
  }

  lemma OldRowOk(cfg: Config, committed: map<Id, Row>, tx: Tx, id: Id, r: Row, pc: Pc, k: Id)
    requires k in tx.own && OwnRowOk(cfg, committed, tx, k) && Insertable(committed, tx, id, r, pc)
    ensures OwnRowOk(cfg, committed, With(tx, id, r, pc), k)
  {
    if k !in committed && tx.own[k].root in committed {
      var p :| p in committed && committed[p].root == tx.own[k].root && p in tx.own;
      assert Anchored(committed, With(tx, id, r, pc), tx.own[k].root);
    }
  }

  lemma AddedAccounted(committed: map<Id, Row>, tx: Tx, id: Id, r: Row, pc: Pc, k: Id)
    requires Accounted(committed, tx, k) && Insertable(committed, tx, id, r, pc)
    requires NewChildren(committed, tx.own, id) == {}
    requires tx.pc.Inserting? ==> tx.pc.id != id
    ensures Accounted(committed, With(tx, id, r, pc), k)
  {
    var was, now := NewChildren(committed, tx.own, k), NewChildren(committed, tx.own[id := r], k);
    if r.parent == Some(k) {
      assert now == was + {id};
    } else {
      assert now == was;
    }
    assert k != id ==> UsesIn(Visible(committed, With(tx, id, r, pc)), k) == UsesIn(Visible(committed, tx), k);
  }

  lemma VisibleRowOk(cfg: Config, committed: map<Id, Row>, tx: Tx, id: Id)
    requires Settled(cfg, committed) && Local(cfg, committed, tx)
    requires id in Visible(committed, tx)
    ensures RowOk(cfg, Visible(committed, tx), id, Visible(committed, tx)[id])
  {
    if id in tx.own {
      assert OwnRowOk(cfg, committed, tx, id);
    } else {
      var r := committed[id];
      assert RowOk(cfg, committed, id, r);
      if r.root in tx.own { assert OwnRowOk(cfg, committed, tx, r.root); }
      if r.parent.Some? && r.parent.value in tx.own { assert OwnRowOk(cfg, committed, tx, r.parent.value); }
    }
  }

  lemma NoChildrenOfUnknown(cfg: Config, committed: map<Id, Row>, tx: Tx, id: Id)
    requires Local(cfg, committed, tx)
    requires id !in committed && id !in tx.own
    ensures NewChildren(committed, tx.own, id) == {}
  {
    forall c | c in tx.own ensures tx.own[c].parent != Some(id) {
      assert OwnRowOk(cfg, committed, tx, c);
    }
  }

  /** A new version of a row the call has read under the session lock. */
  ghost predicate Updates(cfg: Config, committed: map<Id, Row>, tx: Tx, id: Id, r: Row, pc: Pc) {
    && id in Visible(committed, tx)
    && var was := Visible(committed, tx)[id];
    && r == was.(rotatedAt := r.rotatedAt, firstUsedAt := r.firstUsedAt, usedTimes := r.usedTimes)
    && r.revokedAt.None? && r.usedTimes <= cfg.policy.graceMaxReuses
    && cfg.lockKey(r.session) in tx.locks
    && Uses(r) == Uses(was) + 1
    && ((tx.pc.Marking? && tx.pc.id == id && pc == Idle)
        || (tx.pc.Counting? && tx.pc.id == id && pc == Inserting(id, tx.pc.row) && tx.pc.row.rotatedAt.Some?))
  }

  lemma UpdateRow(cfg: Config, committed: map<Id, Row>, tx: Tx, id: Id, r: Row, pc: Pc)
    requires ValidConfig(cfg) && Settled(cfg, committed) && Local(cfg, committed, tx)
    requires Updates(cfg, committed, tx, id, r, pc)
    ensures Local(cfg, committed, With(tx, id, r, pc))
  {
    var tx' := With(tx, id, r, pc);
    forall k | k in tx'.own ensures OwnRowOk(cfg, committed, tx', k) {
      UpdatedRowOk(cfg, committed, tx, id, r, pc, k);
    }
    forall k: Id ensures Accounted(committed, tx', k) {
      assert Accounted(committed, tx, k);
      UpdatedAccounted(cfg, committed, tx, id, r, pc, k);
    }
    UpdatedPcOk(cfg, committed, tx, id, r, pc);
  }

  lemma UpdatedPcOk(cfg: Config, committed: map<Id, Row>, tx: Tx, id: Id, r: Row, pc: Pc)
    requires PcOk(cfg, committed, tx) && Updates(cfg, committed, tx, id, r, pc)
    ensures PcOk(cfg, committed, With(tx, id, r, pc))
  {
    assert Visible(committed, With(tx, id, r, pc)) == Visible(committed, tx)[id := r];
  }

  lemma UpdatedRowOk(cfg: Config, committed: map<Id, Row>, tx: Tx, id: Id, r: Row, pc: Pc, k: Id)
    requires Settled(cfg, committed) && Local(cfg, committed, tx)
    requires Updates(cfg, committed, tx, id, r, pc)
    requires k == id || k in tx.own
    ensures OwnRowOk(cfg, committed, With(tx, id, r, pc), k)
  {
    VisibleRowOk(cfg, committed, tx, k);
    UpdatedLineage(cfg, committed, tx, id, r, pc, k);
    if k in tx.own {
      assert OwnRowOk(cfg, committed, tx, k);
      if k !in committed && tx.own[k].root in committed {
        var p :| p in committed && committed[p].root == tx.own[k].root
                 && (p in tx.own || (tx.pc.Marking? && tx.pc.id == p));
        assert Anchored(committed, With(tx, id, r, pc), tx.own[k].root);
      }
    }
  }

  lemma UpdatedLineage(cfg: Config, committed: map<Id, Row>, tx: Tx, id: Id, r: Row, pc: Pc, k: Id)
    requires Updates(cfg, committed, tx, id, r, pc)
    requires k in Visible(committed, tx)
    requires RowOk(cfg, Visible(committed, tx), k, Visible(committed, tx)[k])
    ensures RowOk(cfg, Visible(committed, With(tx, id, r, pc)), k, Visible(committed, With(tx, id, r, pc))[k])
  {
    assert Visible(committed, With(tx, id, r, pc)) == Visible(committed, tx)[id := r];
  }

  lemma UpdatedAccounted(cfg: Config, committed: map<Id, Row>, tx: Tx, id: Id, r: Row, pc: Pc, k: Id)
    requires Accounted(committed, tx, k)
    requires Updates(cfg, committed, tx, id, r, pc)
    ensures Accounted(committed, With(tx, id, r, pc), k)
  {
    var m := Visible(committed, tx);
    assert NewChildren(committed, tx.own[id := r], k) == NewChildren(committed, tx.own, k);
    assert k != id ==> UsesIn(Visible(committed, With(tx, id, r, pc)), k) == UsesIn(m, k);
  }

  lemma KeepsPresent(cfg: Config, db: Db, a: Action)
    requires Inv(cfg, db) && a.Present? && a.t in db.txs
    ensures Inv(cfg, Step(cfg, db, a))
  {
    var tx := db.txs[a.t];
    if tx.pc.Idle? && a.id in Visible(db.committed, tx) {
      var tx' := Step(cfg, db, a).txs[a.t];
      MovePc(cfg, db.committed, tx, tx');
      MovePc(cfg, db.committed, tx, Restored(tx'));
      OnlyTx(cfg, db, a.t, tx');
    }
  }

  lemma KeepsLock(cfg: Config, db: Db, a: Action)
    requires Inv(cfg, db) && a.Lock? && a.t in db.txs
    ensures Inv(cfg, Step(cfg, db, a))
  {
    var tx := db.txs[a.t];
    if tx.pc.Located? && LockFree(db, a.t, cfg.lockKey(tx.pc.session)) {
      var tx' := Step(cfg, db, a).txs[a.t];
      MovePc(cfg, db.committed, tx, tx');
      OnlyTx(cfg, db, a.t, tx');
    }
  }

  lemma RereadOk(cfg: Config, committed: map<Id, Row>, tx: Tx, now: Time, later: Time)
    requires tx.pc.Locked? && PcOk(cfg, committed, tx)
    ensures var tx' := AfterReread(cfg, committed, tx, now, later);
            PcOk(cfg, committed, tx') && Even(tx'.pc) && tx' == tx.(pc := tx'.pc)
  {
  }

  lemma KeepsValidate(cfg: Config, db: Db, a: Action)
    requires Inv(cfg, db) && a.Validate? && a.t in db.txs
    ensures Inv(cfg, Step(cfg, db, a))
  {
    var tx := db.txs[a.t];
    if tx.pc.Locked? {
      var tx' := AfterReread(cfg, db.committed, tx, a.now, a.later);
      RereadOk(cfg, db.committed, tx, a.now, a.later);
      MovePc(cfg, db.committed, tx, tx');
      OnlyTx(cfg, db, a.t, tx');
    }
  }

  lemma KeepsCountGrace(cfg: Config, db: Db, a: Action)
    requires ValidConfig(cfg) && Inv(cfg, db) && a.CountGrace? && a.t in db.txs
    ensures Inv(cfg, Step(cfg, db, a))
  {
    var tx := db.txs[a.t];
    if tx.pc.Counting? && RowFree(db, a.t, tx.pc.id) {
      var r := CountedRow(Visible(db.committed, tx)[tx.pc.id], tx.pc.at);
      UpdateRow(cfg, db.committed, tx, tx.pc.id, r, Inserting(tx.pc.id, tx.pc.row));
      OnlyTx(cfg, db, a.t, With(tx, tx.pc.id, r, Inserting(tx.pc.id, tx.pc.row)));
    }
  }

  lemma KeepsMarkRotated(cfg: Config, db: Db, a: Action)
    requires ValidConfig(cfg) && Inv(cfg, db) && a.MarkRotated? && a.t in db.txs
    ensures Inv(cfg, Step(cfg, db, a))
  {
    var tx := db.txs[a.t];
    if tx.pc.Marking? && RowFree(db, a.t, tx.pc.id) {
      VisibleRowOk(cfg, db.committed, tx, tx.pc.id);
      var r := Visible(db.committed, tx)[tx.pc.id].(rotatedAt := Some(tx.pc.at));
      UpdateRow(cfg, db.committed, tx, tx.pc.id, r, Idle);
      OnlyTx(cfg, db, a.t, With(tx, tx.pc.id, r, Idle));
    }
  }

  lemma KeepsInsertChild(cfg: Config, db: Db, a: Action)
    requires ValidConfig(cfg) && Inv(cfg, db) && a.InsertChild? && a.t in db.txs
    ensures Inv(cfg, Step(cfg, db, a))
  {
    var tx := db.txs[a.t];
    if tx.pc.Inserting? && Unused(db, a.id) {
      var r := ChildRow(cfg, tx.pc.id, tx.pc.row, a.verifier, a.now);
      var pc := if tx.pc.row.rotatedAt.None? then Marking(tx.pc.id, tx.pc.row, a.now) else Idle;
      AddRow(cfg, db.committed, tx, a.id, r, pc);
      OnlyTx(cfg, db, a.t, With(tx, a.id, r, pc));
    }
  }

  lemma KeepsCallFails(cfg: Config, db: Db, a: Action)
    requires Inv(cfg, db) && a.CallFails? && a.t in db.txs
    ensures Inv(cfg, Step(cfg, db, a))
  {
    var tx := db.txs[a.t];
    if !tx.pc.Idle? {
      assert forall u | u in db.txs && u != a.t :: Apart(tx, db.txs[u]) ==> Apart(Restored(tx), db.txs[u]);
      OnlyTx(cfg, db, a.t, Restored(tx));
    }
  }

  // ------------------------------------------------------------------
  // Commit
  // ------------------------------------------------------------------

  lemma CommitSettles(cfg: Config, committed: map<Id, Row>, tx: Tx)
    requires Settled(cfg, committed) && Local(cfg, committed, tx) && tx.pc.Idle?
    ensures Settled(cfg, Visible(committed, tx))
  {
    var m := Visible(committed, tx);
    forall id | id in m ensures RowOk(cfg, m, id, m[id]) {
      VisibleRowOk(cfg, committed, tx, id);
    }
    forall id: Id ensures Balanced(m, id) {
      assert Balanced(committed, id) && Accounted(committed, tx, id);
      ChildrenAdd(cfg, committed, tx, id);
    }
  }

  lemma ChildrenAdd(cfg: Config, committed: map<Id, Row>, tx: Tx, id: Id)
    requires Local(cfg, committed, tx)
    ensures Children(Visible(committed, tx), id) == Children(committed, id) + NewChildren(committed, tx.own, id)
  {
    var m := Visible(committed, tx);
    forall c | c in m ensures m[c].parent == Some(id) <==> c in Children(committed, id) + NewChildren(committed, tx.own, id) {
      if c in tx.own { assert OwnRowOk(cfg, committed, tx, c); }
    }
  }

  /** What another transaction's commit leaves of the rows one can see. */
  lemma AfterOtherCommit(cfg: Config, committed: map<Id, Row>, tx: Tx, other: Tx, id: Id)
    requires Settled(cfg, committed) && Local(cfg, committed, tx) && Apart(tx, other)
    requires id in Visible(committed, other)
    ensures id in Visible(Visible(committed, tx), other)
    ensures SameLineage(Visible(Visible(committed, tx), other)[id], Visible(committed, other)[id])
    ensures id in Visible(committed, tx) ==> id in committed
    ensures cfg.lockKey(Visible(committed, other)[id].session) in other.locks ==>
              Visible(Visible(committed, tx), other)[id] == Visible(committed, other)[id]
  {
    if id !in other.own && id in tx.own {
      assert OwnRowOk(cfg, committed, tx, id);
      assert RowOk(cfg, committed, id, committed[id]);
    }
  }

  lemma CommitLeavesRow(cfg: Config, committed: map<Id, Row>, tx: Tx, other: Tx, id: Id)
    requires Settled(cfg, committed) && Local(cfg, committed, tx) && Local(cfg, committed, other)
    requires Apart(tx, other) && id in other.own
    ensures OwnRowOk(cfg, Visible(committed, tx), other, id)
  {
    assert OwnRowOk(cfg, committed, other, id);
    var r := other.own[id];
    AfterOtherCommit(cfg, committed, tx, other, r.root);
    if r.parent.Some? { AfterOtherCommit(cfg, committed, tx, other, r.parent.value); }
    if id !in committed && r.root in committed {
      var p :| p in committed && committed[p].root == r.root && (p in other.own || (other.pc.Marking? && other.pc.id == p));
      if p in tx.own { assert OwnRowOk(cfg, committed, tx, p); }
      assert Anchored(Visible(committed, tx), other, r.root);
    }
  }

  lemma CommitLeavesAccounts(cfg: Config, committed: map<Id, Row>, tx: Tx, other: Tx, id: Id)
    requires Accounted(committed, other, id) && Apart(tx, other)
    ensures Accounted(Visible(committed, tx), other, id)
  {
    assert NewChildren(Visible(committed, tx), other.own, id) == NewChildren(committed, other.own, id);
  }

  lemma CommitLeavesOthers(cfg: Config, committed: map<Id, Row>, tx: Tx, other: Tx)
    requires Settled(cfg, committed) && Local(cfg, committed, tx) && Local(cfg, committed, other)
    requires Apart(tx, other)
    ensures Local(cfg, Visible(committed, tx), other)
  {
    forall id | id in other.own ensures OwnRowOk(cfg, Visible(committed, tx), other, id) {
      CommitLeavesRow(cfg, committed, tx, other, id);
    }
    forall id: Id ensures Accounted(Visible(committed, tx), other, id) {
      assert Accounted(committed, other, id);
      CommitLeavesAccounts(cfg, committed, tx, other, id);
    }
    if !other.pc.Idle? && !other.pc.Cascading? {
      AfterOtherCommit(cfg, committed, tx, other, other.pc.id);
    }
  }

  lemma KeepsCommit(cfg: Config, db: Db, a: Action)
    requires Inv(cfg, db) && a.Commit? && a.t in db.txs && db.txs[a.t].pc.Idle?
    ensures Inv(cfg, Db(db.committed + db.txs[a.t].own, db.txs - {a.t}))
  {
    var tx := db.txs[a.t];
    CommitSettles(cfg, db.committed, tx);
    forall u | u in db.txs && u != a.t
      ensures Local(cfg, Visible(db.committed, tx), db.txs[u]) && Restorable(cfg, Visible(db.committed, tx), db.txs[u])
    {
      var other := db.txs[u];
      assert Apart(tx, other);
      CommitLeavesOthers(cfg, db.committed, tx, other);
      if !other.pc.Idle? { CommitLeavesOthers(cfg, db.committed, tx, Restored(other)); }
    }
  }

  // ------------------------------------------------------------------
  // The cascade
  // ------------------------------------------------------------------

  lemma RevokeSettles(cfg: Config, committed: map<Id, Row>, session: string, at: Time)
    requires Settled(cfg, committed)
    ensures Settled(cfg, Revoke(committed, session, at))
  {
    var m := Revoke(committed, session, at);
    forall id | id in m ensures RowOk(cfg, m, id, m[id]) {
      assert RowOk(cfg, committed, id, committed[id]);
    }
    forall id: Id ensures Balanced(m, id) {
      assert Balanced(committed, id);
      assert Children(m, id) == Children(committed, id);
    }
  }

  lemma RevokeLeavesRow(cfg: Config, committed: map<Id, Row>, tx: Tx, session: string, at: Time, id: Id)
    requires id in tx.own && OwnRowOk(cfg, committed, tx, id)
    requires id in committed ==> committed[id].session != session
    ensures OwnRowOk(cfg, Revoke(committed, session, at), tx, id)
  {
    var m := Revoke(committed, session, at);
    if id !in committed && tx.own[id].root in committed {
      var p :| p in committed && committed[p].root == tx.own[id].root && (p in tx.own || (tx.pc.Marking? && tx.pc.id == p));
      assert Anchored(m, tx, tx.own[id].root);
    }
  }

  lemma RevokeLeavesPc(cfg: Config, committed: map<Id, Row>, tx: Tx, session: string, at: Time)
    requires PcOk(cfg, committed, tx)
    requires tx.pc.Counting? || tx.pc.Inserting? || tx.pc.Marking? ==> tx.pc.row.session != session || tx.pc.id in tx.own
    ensures PcOk(cfg, Revoke(committed, session, at), tx)
  {
  }

  lemma RevokeLeavesTx(cfg: Config, committed: map<Id, Row>, tx: Tx, session: string, at: Time)
    requires Settled(cfg, committed) && Local(cfg, committed, tx)
    requires forall id | id in tx.own && id in committed :: committed[id].session != session
    requires tx.pc.Counting? || tx.pc.Inserting? || tx.pc.Marking? ==> tx.pc.row.session != session || tx.pc.id in tx.own
    ensures Local(cfg, Revoke(committed, session, at), tx)
  {
    var m := Revoke(committed, session, at);
    forall id | id in tx.own ensures OwnRowOk(cfg, m, tx, id) {
      RevokeLeavesRow(cfg, committed, tx, session, at, id);
    }
    RevokeLeavesPc(cfg, committed, tx, session, at);
    forall id: Id ensures Accounted(m, tx, id) {
      assert Accounted(committed, tx, id);
      assert NewChildren(m, tx.own, id) == NewChildren(committed, tx.own, id);
    }
  }

  lemma KeepsCascade(cfg: Config, db: Db, a: Action)
    requires Inv(cfg, db) && a.Cascade? && a.t in db.txs
    ensures Inv(cfg, Step(cfg, db, a))
  {
    var tx := db.txs[a.t];
    if tx.pc.Cascading? && CascadeUnblocked(db, tx.pc.session) {
      var session, at := tx.pc.session, tx.pc.at;
      RevokeSettles(cfg, db.committed, session, at);
      var after := SetTx(db, a.t, tx.(pc := Idle));
      forall u | u in db.txs
        ensures Local(cfg, Revoke(db.committed, session, at), after.txs[u])
        ensures Restorable(cfg, Revoke(db.committed, session, at), after.txs[u])
      {
        var other := after.txs[u];
        if u == a.t { MovePc(cfg, db.committed, tx, other); } else { assert Apart(tx, other); }
        OwnRowsElsewhere(cfg, db, u, session);
        RevokeLeavesTx(cfg, db.committed, other, session, at);
        if !other.pc.Idle? { RevokeLeavesTx(cfg, db.committed, Restored(other), session, at); }
      }
    }
  }

  lemma OwnRowsElsewhere(cfg: Config, db: Db, u: TxId, session: string)
    requires Inv(cfg, db) && u in db.txs && CascadeUnblocked(db, session)
    ensures forall id | id in db.txs[u].own && id in db.committed :: db.committed[id].session != session
  {
    forall id | id in db.txs[u].own && id in db.committed ensures db.committed[id].session != session {
      assert OwnRowOk(cfg, db.committed, db.txs[u], id);
    }
  }

  // ------------------------------------------------------------------
  // Every reachable state
  // ------------------------------------------------------------------

  lemma StepKeeps(cfg: Config, db: Db, a: Action)
    requires ValidConfig(cfg) && Inv(cfg, db)
    ensures Inv(cfg, Step(cfg, db, a))
  {
    if a.Begin? {
      if a.t !in db.txs { KeepsBegin(cfg, db, a.t); }
    } else if a.t in db.txs {
      match a
      case Begin(_) =>
      case Issue(_, _, _, _, _, _, _) =>
        if db.txs[a.t].pc.Idle? && Unused(db, a.id) { KeepsIssue(cfg, db, a); }
      case Present(_, _, _, _) => KeepsPresent(cfg, db, a);
      case Lock(_) => KeepsLock(cfg, db, a);
      case Validate(_, _, _) => KeepsValidate(cfg, db, a);
      case Cascade(_) => KeepsCascade(cfg, db, a);
      case CountGrace(_) => KeepsCountGrace(cfg, db, a);
      case InsertChild(_, _, _, _) => KeepsInsertChild(cfg, db, a);
      case MarkRotated(_) => KeepsMarkRotated(cfg, db, a);
      case CallFails(_) => KeepsCallFails(cfg, db, a);
      case Commit(_) => if db.txs[a.t].pc.Idle? { KeepsCommit(cfg, db, a); }
      case Rollback(_) =>
    }
  }

  lemma {:induction false} RunKeeps(cfg: Config, db: Db, acts: seq<Action>)
    requires ValidConfig(cfg) && Inv(cfg, db)
    ensures Inv(cfg, Run(cfg, db, acts))
    decreases |acts|
  {
    if acts != [] {
      StepKeeps(cfg, db, acts[0]);
      RunKeeps(cfg, Step(cfg, db, acts[0]), acts[1..]);
    }
  }
}
