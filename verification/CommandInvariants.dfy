/** What every step of the command queue keeps. */
module CommandInvariants {
  import opened Options
  import opened CommandQueue

  /** A lease is present exactly while the command is out with the device. */
  predicate RowOk(r: Command) {
    r.lease.Some? <==> Leased(r.status)
  }

  /** At most one non-terminal command holds a key. */
  ghost predicate UniqueKeys(m: Table) {
    forall i, j | i in m && j in m && i != j :: !Clash(m[i], m[j])
  }

  predicate Clash(r: Command, s: Command) {
    r.key.Some? && r.key == s.key && !Terminal(r.status) && !Terminal(s.status)
  }

  /** A row changed by a transaction: same command, not terminal before, further on now. */
  predicate Moves(r: Command, s: Command) {
    r.key == s.key && r.device == s.device && !Terminal(r.status) && Onward(r.status, s.status) && RowOk(s)
  }

  ghost predicate RowsOk(m: Table) {
    forall id | id in m :: RowOk(m[id])
  }

  ghost predicate PcOk(rows: Table, tx: Tx) {
    match tx.pc
    case Inserted(id, row, cap) => id !in rows && id !in tx.own && row.status.Pending? && RowOk(row)
    case Locked(id, status, target, _) => id in rows + tx.own && (rows + tx.own)[id].status == status && Terminal(target)
    case _ => true
  }

  ghost predicate TxOk(rows: Table, tx: Tx) {
    && tx.own.Keys <= tx.locks
    && RowsOk(tx.own)
    && (forall id | id in tx.own && id in rows :: Moves(rows[id], tx.own[id]))
    && UniqueKeys(rows + Overlay(tx))
    && PcOk(rows, tx)
  }

  ghost predicate Apart(rows: Table, a: Table, b: Table) {
    forall i, j, key | Occupies(rows, a, i, key) && Occupies(rows, b, j, key) :: key.None?
  }

  ghost predicate PairOk(cfg: Config, rows: Table, a: Tx, b: Tx) {
    && Rows(a) !! Rows(b)
    && Quotas(cfg, a) !! Quotas(cfg, b)
    && Apart(rows, Overlay(a), Overlay(b))
  }

  ghost predicate Inv(cfg: Config, db: Db) {
    && RowsOk(db.rows) && UniqueKeys(db.rows)
    && (forall t | t in db.txs :: TxOk(db.rows, db.txs[t]))
    && (forall t, u | t in db.txs && u in db.txs && t != u :: PairOk(cfg, db.rows, db.txs[t], db.txs[u]))
  }

  // ------------------------------------------------------------------
  // Steps of one transaction
  // ------------------------------------------------------------------

  lemma OnlyTx(cfg: Config, db: Db, t: TxId, tx: Tx)
    requires Inv(cfg, db) && TxOk(db.rows, tx)
    requires forall u | u in db.txs && u != t :: PairOk(cfg, db.rows, tx, db.txs[u])
    ensures Inv(cfg, With(db, t, tx))
  {
    var db' := With(db, t, tx);
    forall u, v | u in db'.txs && v in db'.txs && u != v ensures PairOk(cfg, db.rows, db'.txs[u], db'.txs[v]) {
      if v == t {
        assert PairOk(cfg, db.rows, tx, db.txs[u]);
      } else if u != t {
        assert PairOk(cfg, db.rows, db.txs[u], db.txs[v]);
      }
    }
  }

  /** A part of a table with unique keys has unique keys. */
  lemma FewerKeys(m: Table, n: Table)
    requires UniqueKeys(n) && forall id | id in m :: id in n && n[id] == m[id]
    ensures UniqueKeys(m)
  {
    forall i, j | i in m && j in m && i != j ensures !Clash(m[i], m[j]) {
      assert !Clash(n[i], n[j]);
    }
  }

  /** Moving the program counter without a new row: the speculative row, if any, is dropped. */
  lemma MovesPc(cfg: Config, db: Db, t: TxId, pc: Pc, quotas: set<int>)
    requires Inv(cfg, db) && t in db.txs && !pc.Inserted?
    requires var tx := db.txs[t].(pc := pc, quotas := quotas);
             && PcOk(db.rows, tx)
             && (forall id | id in Rows(tx) :: id in Rows(db.txs[t]) || !LockedByOther(db, t, id))
             && (forall k | k in Quotas(cfg, tx) :: k in Quotas(cfg, db.txs[t]) || !QuotaByOther(cfg, db, t, k))
    ensures Inv(cfg, With(db, t, db.txs[t].(pc := pc, quotas := quotas)))
  {
    var tx, tx' := db.txs[t], db.txs[t].(pc := pc, quotas := quotas);
    FewerKeys(db.rows + tx'.own, db.rows + Overlay(tx));
    assert TxOk(db.rows, tx');
    forall u | u in db.txs && u != t ensures PairOk(cfg, db.rows, tx', db.txs[u]) {
      assert PairOk(cfg, db.rows, tx, db.txs[u]);
      LessApart(db.rows, tx, db.txs[u]);
      forall id | id in Rows(tx') ensures id !in Rows(db.txs[u]) {
        assert id in Rows(db.txs[u]) ==> LockedByOther(db, t, id);
      }
      forall k | k in Quotas(cfg, tx') ensures k !in Quotas(cfg, db.txs[u]) {
        assert k in Quotas(cfg, db.txs[u]) ==> QuotaByOther(cfg, db, t, k);
      }
    }
    OnlyTx(cfg, db, t, tx');
  }

  lemma LessApart(rows: Table, tx: Tx, other: Tx)
    requires Apart(rows, Overlay(tx), Overlay(other)) && PcOk(rows, tx)
    ensures Apart(rows, tx.own, Overlay(other))
  {
    forall i, j, key | Occupies(rows, tx.own, i, key) && Occupies(rows, Overlay(other), j, key) ensures key.None? {
      assert Occupies(rows, Overlay(tx), i, key);
    }
  }

  // ------------------------------------------------------------------
  // Writing rows that exist
  // ------------------------------------------------------------------

  /** `changes` moves on rows that `tx` sees and that nobody else has locked. */
  ghost predicate Changes(db: Db, t: TxId, tx: Tx, changes: Table) {
    forall id | id in changes ::
      && id in db.rows + tx.own
      && !LockedByOther(db, t, id)
      && Moves((db.rows + tx.own)[id], changes[id])
  }

  lemma MovedKeys(seen: Table, changes: Table)
    requires UniqueKeys(seen) && forall id | id in changes :: id in seen && Moves(seen[id], changes[id])
    ensures UniqueKeys(seen + changes)
  {
    var seen' := seen + changes;
    forall i, j | i in seen' && j in seen' && i != j ensures !Clash(seen'[i], seen'[j]) {
      assert i in seen && j in seen && !Clash(seen[i], seen[j]);
    }
  }

  lemma ChangedTxOk(rows: Table, tx: Tx, changes: Table, locks: set<Id>)
    requires TxOk(rows, tx) && !tx.pc.Inserted? && changes.Keys <= locks
    requires forall id | id in changes :: id in rows + tx.own && Moves((rows + tx.own)[id], changes[id])
    ensures TxOk(rows, Tx(tx.own + changes, tx.locks + locks, tx.quotas, Idle))
  {
    MovedKeys(rows + tx.own, changes);
    assert rows + (tx.own + changes) == (rows + tx.own) + changes;
  }

  /** A committed, non-terminal row that another transaction does not hold is not its rival for a key. */
  lemma NoRival(cfg: Config, db: Db, u: TxId, id: Id, j: Id, key: Option<Key>)
    requires Inv(cfg, db) && u in db.txs && id !in Rows(db.txs[u])
    requires id in db.rows && !Terminal(db.rows[id].status) && db.rows[id].key == key && key.Some?
    ensures !Occupies(db.rows, Overlay(db.txs[u]), j, key)
  {
    var o := Overlay(db.txs[u]);
    var seen := db.rows + o;
    assert o.Keys <= Rows(db.txs[u]) && seen[id] == db.rows[id];
    assert j in o ==> !Clash(seen[id], seen[j]);
    assert j in o && j in db.rows ==> j in db.txs[u].own && Moves(db.rows[j], o[j]) && !Clash(db.rows[id], db.rows[j]);
  }

  lemma ChangedApart(cfg: Config, db: Db, t: TxId, changes: Table, u: TxId)
    requires Inv(cfg, db) && t in db.txs && !db.txs[t].pc.Inserted? && u in db.txs && u != t
    requires Changes(db, t, db.txs[t], changes)
    ensures Apart(db.rows, db.txs[t].own + changes, Overlay(db.txs[u]))
  {
    var tx, o := db.txs[t], Overlay(db.txs[u]);
    forall i, j, key | Occupies(db.rows, tx.own + changes, i, key) && Occupies(db.rows, o, j, key) ensures key.None? {
      assert PairOk(cfg, db.rows, tx, db.txs[u]);
      if i in tx.own {
        assert Occupies(db.rows, tx.own, i, key) ==> key.None?;
        assert i in changes ==> Moves(tx.own[i], changes[i]);
      } else {
        assert i !in Rows(db.txs[u]) by {
          assert !LockedByOther(db, t, i);
        }
        if key.Some? {
          NoRival(cfg, db, u, i, j, key);
        }
      }
    }
  }

  lemma ChangesKeep(cfg: Config, db: Db, t: TxId, changes: Table, locks: set<Id>)
    requires Inv(cfg, db) && t in db.txs && !db.txs[t].pc.Inserted? && !db.txs[t].pc.Quota?
    requires Changes(db, t, db.txs[t], changes) && changes.Keys <= locks
    requires forall id | id in locks :: !LockedByOther(db, t, id)
    ensures var tx := db.txs[t]; Inv(cfg, With(db, t, Tx(tx.own + changes, tx.locks + locks, tx.quotas, Idle)))
  {
    var tx := db.txs[t];
    var tx' := Tx(tx.own + changes, tx.locks + locks, tx.quotas, Idle);
    ChangedTxOk(db.rows, tx, changes, locks);
    forall u | u in db.txs && u != t ensures PairOk(cfg, db.rows, tx', db.txs[u]) {
      assert PairOk(cfg, db.rows, tx, db.txs[u]);
      ChangedApart(cfg, db, t, changes, u);
      assert forall id | id in locks :: id !in Rows(db.txs[u]);
    }
    OnlyTx(cfg, db, t, tx');
  }

  lemma WroteKeeps(cfg: Config, db: Db, t: TxId, id: Id, r: Command)
    requires Inv(cfg, db) && t in db.txs && !db.txs[t].pc.Inserted? && !db.txs[t].pc.Quota?
    requires !LockedByOther(db, t, id) && id in db.rows + db.txs[t].own && Moves((db.rows + db.txs[t].own)[id], r)
    ensures Inv(cfg, With(db, t, Wrote(db.txs[t], id, r)))
  {
    var tx := db.txs[t];
    var changes: Table := map[id := r];
    assert Changes(db, t, tx, changes);
    ChangesKeep(cfg, db, t, changes, {id});
    OneChange(tx.own, id, r);
  }

  lemma OneChange(own: Table, id: Id, r: Command)
    ensures own + map[id := r] == own[id := r]
  {
  }

  lemma SeesInserted(rows: Table, own: Table, id: Id, row: Command)
    ensures rows + own[id := row] == (rows + own)[id := row]
  {
  }

  // ------------------------------------------------------------------
  // Inserting
  // ------------------------------------------------------------------

  lemma InsertedKeys(seen: Table, id: Id, row: Command)
    requires UniqueKeys(seen) && id !in seen && !KeyTaken(seen, row.key)
    ensures UniqueKeys(seen[id := row])
  {
    var seen' := seen[id := row];
    forall i, j | i in seen' && j in seen' && i != j ensures !Clash(seen'[i], seen'[j]) {
      assert i in seen && j in seen ==> !Clash(seen[i], seen[j]);
    }
  }

  lemma InsertedApart(rows: Table, own: Table, id: Id, row: Command, other: Table)
    requires Apart(rows, own, other) && id !in rows && id !in own
    requires row.key.Some? ==> forall j | j in other :: !Occupies(rows, other, j, row.key)
    ensures Apart(rows, own[id := row], other)
  {
    var own' := own[id := row];
    forall i, j, key | Occupies(rows, own', i, key) && Occupies(rows, other, j, key) ensures key.None? {
      assert i != id ==> Occupies(rows, own, i, key);
    }
  }

  /** A fresh row, speculative or final. */
  lemma InsertKeeps(cfg: Config, db: Db, t: TxId, id: Id, row: Command, tx': Tx)
    requires Inv(cfg, db) && t in db.txs && !db.txs[t].pc.Inserted?
    requires !KeyByOther(db, t, row.key) && !KeyTaken(db.rows + db.txs[t].own, row.key)
    requires id !in db.rows + db.txs[t].own && !LockedByOther(db, t, id) && row.status.Pending? && RowOk(row)
    requires var tx := db.txs[t];
             tx' == Tx(tx.own[id := row], tx.locks + {id}, tx.quotas, Idle)
             || (tx'.pc.Inserted? && tx' == Tx(tx.own, tx.locks, tx.quotas, Inserted(id, row, tx'.pc.cap)))
    requires Quotas(cfg, tx') <= Quotas(cfg, db.txs[t])
    ensures Inv(cfg, With(db, t, tx'))
  {
    var tx := db.txs[t];
    InsertedKeys(db.rows + tx.own, id, row);
    assert Overlay(tx') == tx.own[id := row] && Overlay(tx) == tx.own;
    SeesInserted(db.rows, tx.own, id, row);
    forall u | u in db.txs && u != t ensures PairOk(cfg, db.rows, tx', db.txs[u]) {
      assert PairOk(cfg, db.rows, tx, db.txs[u]);
      InsertedApart(db.rows, tx.own, id, row, Overlay(db.txs[u]));
    }
    OnlyTx(cfg, db, t, tx');
  }

  lemma InsertStepKeeps(cfg: Config, db: Db, a: Action)
    requires Inv(cfg, db) && a.Insert? && a.t in db.txs
    ensures Inv(cfg, Step(cfg, db, a))
  {
    var t, tx, db' := a.t, db.txs[a.t], Step(cfg, db, a);
    var row := NewCommand(a.device, a.key, a.now);
    if db' != db {
      assert !tx.pc.Inserted? && Seen(db, tx) == db.rows + tx.own;
      if KeyTaken(Seen(db, tx), row.key) {
        MovesPc(cfg, db, t, Idle, Quotas(cfg, tx));
      } else if a.id in Seen(db, tx) || row.device !in cfg.devices {
        MovesPc(cfg, db, t, Broken, tx.quotas);
      } else {
        InsertKeeps(cfg, db, t, a.id, row, db'.txs[t]);
      }
    }
  }

  lemma CheckStepKeeps(cfg: Config, db: Db, a: Action)
    requires Inv(cfg, db) && a.CheckCap? && a.t in db.txs
    ensures Inv(cfg, Step(cfg, db, a))
  {
    var t, tx, db' := a.t, db.txs[a.t], Step(cfg, db, a);
    if tx.pc.Inserted? {
      if |PendingOf(Seen(db, tx), tx.pc.row.device)| > tx.pc.cap {
        MovesPc(cfg, db, t, Broken, tx.quotas);
      } else {
        var tx' := db'.txs[t];
        assert Overlay(tx') == Overlay(tx) && Rows(tx') == Rows(tx) && Quotas(cfg, tx') == Quotas(cfg, tx);
        forall u | u in db.txs && u != t ensures PairOk(cfg, db.rows, tx', db.txs[u]) {
          assert PairOk(cfg, db.rows, tx, db.txs[u]);
        }
        OnlyTx(cfg, db, t, tx');
      }
    }
  }

  // ------------------------------------------------------------------
  // The other operations
  // ------------------------------------------------------------------

  lemma DequeueStepKeeps(cfg: Config, db: Db, a: Action)
    requires Inv(cfg, db) && a.Dequeue? && a.t in db.txs
    ensures Inv(cfg, Step(cfg, db, a))
  {
    var t, tx := a.t, db.txs[a.t];
    if tx.pc.Idle? && forall id | id in a.picked :: id in PendingOf(Seen(db, tx), a.device) && !LockedByOther(db, t, id) {
      var changes := Claims(Seen(db, tx), a);
      ClaimsMove(db, a);
      ChangesKeep(cfg, db, t, changes, a.picked);
      assert Step(cfg, db, a) == With(db, t, Tx(tx.own + changes, tx.locks + a.picked, tx.quotas, Idle));
    }
  }

  ghost function Claims(seen: Table, a: Action): Table
    requires a.Dequeue?
  {
    map id | id in a.picked && id in seen :: Dequeued(seen[id], a.now, a.expiry)
  }

  lemma ClaimsMove(db: Db, a: Action)
    requires a.Dequeue? && a.t in db.txs && db.txs[a.t].pc.Idle?
    requires forall id | id in a.picked :: id in PendingOf(Seen(db, db.txs[a.t]), a.device) && !LockedByOther(db, a.t, id)
    ensures Changes(db, a.t, db.txs[a.t], Claims(Seen(db, db.txs[a.t]), a)) && Claims(Seen(db, db.txs[a.t]), a).Keys <= a.picked
  {
  }

  lemma ReportStepKeeps(cfg: Config, db: Db, a: Action)
    requires Inv(cfg, db) && a.Report? && a.t in db.txs
    ensures Inv(cfg, Step(cfg, db, a))
  {
    var t, tx, db' := a.t, db.txs[a.t], Step(cfg, db, a);
    var seen := Seen(db, tx);
    if db' != db {
      if a.id in seen && seen[a.id].status.Sent? {
        SeenOk(cfg, db, t, a.id);
        WroteKeeps(cfg, db, t, a.id, Reported(seen[a.id], a.now));
      } else {
        MovesPc(cfg, db, t, Broken, tx.quotas);
      }
    }
  }

  lemma SeenOk(cfg: Config, db: Db, t: TxId, id: Id)
    requires Inv(cfg, db) && t in db.txs && id in db.rows + db.txs[t].own
    ensures RowOk((db.rows + db.txs[t].own)[id])
  {
  }

  lemma LockStepKeeps(cfg: Config, db: Db, a: Action)
    requires Inv(cfg, db) && a.LockRow? && a.t in db.txs
    ensures Inv(cfg, Step(cfg, db, a))
  {
    var t, tx, db' := a.t, db.txs[a.t], Step(cfg, db, a);
    if db' != db {
      MovesPc(cfg, db, t, db'.txs[t].pc, tx.quotas);
    }
  }

  lemma NotLockedByOther(cfg: Config, db: Db, t: TxId, id: Id)
    requires Inv(cfg, db) && t in db.txs && id in Rows(db.txs[t])
    ensures !LockedByOther(db, t, id)
  {
    forall u | u in db.txs && u != t ensures id !in Rows(db.txs[u]) {
      assert PairOk(cfg, db.rows, db.txs[t], db.txs[u]);
    }
  }

  /** A row lock more. */
  lemma LockedKeeps(cfg: Config, db: Db, t: TxId, id: Id)
    requires Inv(cfg, db) && t in db.txs && db.txs[t].pc.Locked? && !LockedByOther(db, t, id)
    ensures var tx := db.txs[t]; Inv(cfg, With(db, t, Tx(tx.own, tx.locks + {id}, tx.quotas, Idle)))
  {
    ChangesKeep(cfg, db, t, map[], {id});
    assert db.txs[t].own + map[] == db.txs[t].own;
  }

  lemma FinishStepKeeps(cfg: Config, db: Db, a: Action)
    requires Inv(cfg, db) && a.Finish? && a.t in db.txs
    ensures Inv(cfg, Step(cfg, db, a))
  {
    var t, tx, db' := a.t, db.txs[a.t], Step(cfg, db, a);
    if tx.pc.Locked? {
      var id, seen := tx.pc.rowId, Seen(db, tx);
      NotLockedByOther(cfg, db, t, id);
      if Terminal(tx.pc.status) && tx.pc.status == tx.pc.target && !tx.pc.cancel {
        LockedKeeps(cfg, db, t, id);
      } else if CanTransition(tx.pc.status, tx.pc.target) {
        WroteKeeps(cfg, db, t, id, Finished(seen[id], tx.pc.target, a.now));
      } else {
        MovesPc(cfg, db, t, Broken, tx.quotas);
      }
    }
  }

  lemma ExtendStepKeeps(cfg: Config, db: Db, a: Action)
    requires Inv(cfg, db) && a.Extend? && a.t in db.txs
    ensures Inv(cfg, Step(cfg, db, a))
  {
    var t, tx, db' := a.t, db.txs[a.t], Step(cfg, db, a);
    var seen := Seen(db, tx);
    if db' != db {
      if db'.txs[t].pc.Broken? {
        MovesPc(cfg, db, t, Broken, tx.quotas);
      } else {
        WroteKeeps(cfg, db, t, a.id, seen[a.id].(lease := Some(a.expiry)));
      }
    }
  }

  // ------------------------------------------------------------------
  // Ending a transaction
  // ------------------------------------------------------------------

  lemma CommitKeepsKeys(cfg: Config, db: Db, t: TxId, u: TxId)
    requires Inv(cfg, db) && t in db.txs && db.txs[t].pc.Idle? && u in db.txs && u != t
    ensures UniqueKeys(db.rows + db.txs[t].own + Overlay(db.txs[u]))
  {
    var own, o := db.txs[t].own, Overlay(db.txs[u]);
    assert PairOk(cfg, db.rows, db.txs[t], db.txs[u]);
    assert own.Keys !! o.Keys;
    var all, mine, theirs := db.rows + own + o, db.rows + own, db.rows + o;
    forall i, j | i in all && j in all && i != j ensures !Clash(all[i], all[j]) {
      if i !in o && j !in o {
        assert !Clash(mine[i], mine[j]);
      } else if i !in own && j !in own {
        assert !Clash(theirs[i], theirs[j]);
      } else {
        assert i in own ==> Occupies(db.rows, own, i, own[i].key) || Terminal(own[i].status);
        assert j in own ==> Occupies(db.rows, own, j, own[j].key) || Terminal(own[j].status);
        assert i in o ==> Occupies(db.rows, o, i, o[i].key) || Terminal(o[i].status);
        assert j in o ==> Occupies(db.rows, o, j, o[j].key) || Terminal(o[j].status);
      }
    }
  }

  lemma CommitKeepsTx(cfg: Config, db: Db, t: TxId, u: TxId)
    requires Inv(cfg, db) && t in db.txs && db.txs[t].pc.Idle? && u in db.txs && u != t
    ensures TxOk(db.rows + db.txs[t].own, db.txs[u])
  {
    assert PairOk(cfg, db.rows, db.txs[t], db.txs[u]);
    CommitKeepsKeys(cfg, db, t, u);
  }

  lemma CommitKeepsPair(cfg: Config, db: Db, t: TxId, u: TxId, v: TxId)
    requires Inv(cfg, db) && t in db.txs && db.txs[t].pc.Idle? && u in db.txs && u != t && v in db.txs && v != t && u != v
    ensures PairOk(cfg, db.rows + db.txs[t].own, db.txs[u], db.txs[v])
  {
    var own, a, b := db.txs[t].own, Overlay(db.txs[u]), Overlay(db.txs[v]);
    assert PairOk(cfg, db.rows, db.txs[t], db.txs[u]) && PairOk(cfg, db.rows, db.txs[t], db.txs[v]);
    assert PairOk(cfg, db.rows, db.txs[u], db.txs[v]);
    assert a.Keys !! own.Keys && b.Keys !! own.Keys;
    forall i, j, key | Occupies(db.rows + own, a, i, key) && Occupies(db.rows + own, b, j, key) ensures key.None? {
      assert Occupies(db.rows, a, i, key) && Occupies(db.rows, b, j, key);
    }
  }

  lemma CommitKeeps(cfg: Config, db: Db, a: Action)
    requires Inv(cfg, db) && a.Commit? && a.t in db.txs
    ensures Inv(cfg, Step(cfg, db, a))
  {
    if db.txs[a.t].pc.Idle? {
      var db' := Step(cfg, db, a);
      forall u | u in db'.txs ensures TxOk(db'.rows, db'.txs[u]) {
        CommitKeepsTx(cfg, db, a.t, u);
      }
      forall u, v | u in db'.txs && v in db'.txs && u != v ensures PairOk(cfg, db'.rows, db'.txs[u], db'.txs[v]) {
        CommitKeepsPair(cfg, db, a.t, u, v);
      }
      assert TxOk(db.rows, db.txs[a.t]);
    }
  }

  lemma BeginKeeps(cfg: Config, db: Db, t: TxId)
    requires Inv(cfg, db) && t !in db.txs
    ensures Inv(cfg, With(db, t, Tx(map[], {}, {}, Idle)))
  {
    assert db.rows + map[] == db.rows;
    OnlyTx(cfg, db, t, Tx(map[], {}, {}, Idle));
  }

  lemma StepKeeps(cfg: Config, db: Db, a: Action)
    requires Inv(cfg, db)
    ensures Inv(cfg, Step(cfg, db, a))
  {
    if a.t !in db.txs {
      if a.Begin? {
        BeginKeeps(cfg, db, a.t);
      }
    } else {
      match a
      case Begin(_) =>
      case LockQuota(t, device, cap) =>
        if Step(cfg, db, a) != db {
          MovesPc(cfg, db, t, Quota(device, cap), db.txs[t].quotas);
        }
      case Insert(_, _, _, _, _, _) => InsertStepKeeps(cfg, db, a);
      case CheckCap(_) => CheckStepKeeps(cfg, db, a);
      case Dequeue(_, _, _, _, _) => DequeueStepKeeps(cfg, db, a);
      case Report(_, _, _) => ReportStepKeeps(cfg, db, a);
      case LockRow(_, _, _, _) => LockStepKeeps(cfg, db, a);
      case Finish(_, _) => FinishStepKeeps(cfg, db, a);
      case Extend(_, _, _) => ExtendStepKeeps(cfg, db, a);
      case CallFails(t) => MovesPc(cfg, db, t, Idle, db.txs[t].quotas);
      case Commit(_) => CommitKeeps(cfg, db, a);
      case Rollback(_) =>
    }
  }

  lemma {:induction false} RunKeeps(cfg: Config, db: Db, acts: seq<Action>)
    requires Inv(cfg, db)
    ensures Inv(cfg, Run(cfg, db, acts))
    decreases |acts|
  {
    if acts != [] {
      StepKeeps(cfg, db, acts[0]);
      RunKeeps(cfg, Step(cfg, db, acts[0]), acts[1..]);
    }
  }
}
