/** The command queue over every run. */
module CommandTheorems {
  import opened Collections
  import opened Options
  import opened CommandQueue
  import opened CommandInvariants

  // ------------------------------------------------------------------
  // Lifecycle
  // ------------------------------------------------------------------

  /** Committed commands keep their device and key, move only along the status table, and
      once terminal do not change at all. */
  ghost predicate Follows(rows: Table, later: Table) {
    forall id | id in rows ::
      && id in later
      && later[id].device == rows[id].device && later[id].key == rows[id].key
      && Onward(rows[id].status, later[id].status)
      && (Terminal(rows[id].status) ==> later[id] == rows[id])
  }

  lemma FollowsOnward(a: Table, b: Table, c: Table)
    requires Follows(a, b) && Follows(b, c)
    ensures Follows(a, c)
  {
  }

  lemma OnlyCommitChangesRows(cfg: Config, db: Db, a: Action)
    requires !a.Commit?
    ensures Step(cfg, db, a).rows == db.rows
  {
  }

  lemma CommitFollows(cfg: Config, db: Db, t: TxId)
    requires Inv(cfg, db) && t in db.txs
    ensures Follows(db.rows, db.rows + db.txs[t].own)
  {
    assert TxOk(db.rows, db.txs[t]);
    assert forall id | id in db.rows && id in db.txs[t].own :: Moves(db.rows[id], db.txs[t].own[id]);
  }

  lemma StepFollows(cfg: Config, db: Db, a: Action)
    requires Inv(cfg, db)
    ensures Follows(db.rows, Step(cfg, db, a).rows)
  {
    if !a.Commit? {
      OnlyCommitChangesRows(cfg, db, a);
    } else if a.t in db.txs {
      CommitFollows(cfg, db, a.t);
    }
  }

  lemma {:induction false} RowsFollow(cfg: Config, db: Db, acts: seq<Action>)
    requires Inv(cfg, db)
    ensures Follows(db.rows, Run(cfg, db, acts).rows)
    decreases |acts|
  {
    if acts != [] {
      var next := Step(cfg, db, acts[0]);
      StepKeeps(cfg, db, acts[0]);
      StepFollows(cfg, db, acts[0]);
      RowsFollow(cfg, next, acts[1..]);
      FollowsOnward(db.rows, next.rows, Run(cfg, db, acts).rows);
    }
  }

  lemma InitInv(cfg: Config)
    ensures Inv(cfg, Init)
  {
  }

  /** From any moment of any run on: terminal commands never change. */
  lemma TerminalNeverChanges(cfg: Config, acts: seq<Action>, more: seq<Action>, id: Id)
    requires var db := Run(cfg, Init, acts); id in db.rows && Terminal(db.rows[id].status)
    ensures var db := Run(cfg, Init, acts);
            var later := Run(cfg, db, more);
            id in later.rows && later.rows[id] == db.rows[id]
  {
    InitInv(cfg);
    RunKeeps(cfg, Init, acts);
    RowsFollow(cfg, Run(cfg, Init, acts), more);
  }

  /** In every state of every run: a lease exactly while Sent or Delivered, and at most one
      non-terminal command per idempotency key. */
  lemma LeasesAndKeys(cfg: Config, acts: seq<Action>, i: Id, j: Id)
    requires var rows := Run(cfg, Init, acts).rows; i in rows && j in rows
    ensures var rows := Run(cfg, Init, acts).rows;
            && (rows[i].lease.Some? <==> rows[i].status.Sent? || rows[i].status.Delivered?)
            && (i != j && rows[i].key.Some? && rows[i].key == rows[j].key ==> Terminal(rows[i].status) || Terminal(rows[j].status))
  {
    InitInv(cfg);
    RunKeeps(cfg, Init, acts);
    var rows := Run(cfg, Init, acts).rows;
    assert i != j ==> !Clash(rows[i], rows[j]);
  }

  // ------------------------------------------------------------------
  // The per-device cap
  // ------------------------------------------------------------------

  /** The transaction has inserted a command for the device. */
  ghost predicate Adds(rows: Table, own: Table, d: Device) {
    exists id | id in own :: id !in rows && own[id].device == d
  }

  ghost predicate PcCapped(pc: Pc, d: Device, k: nat) {
    && (pc.Quota? && pc.device == d ==> pc.cap <= k)
    && (pc.Inserted? && pc.row.device == d ==> pc.cap <= k)
  }

  ghost predicate TxCapped(cfg: Config, rows: Table, tx: Tx, d: Device, k: nat) {
    && (Adds(rows, tx.own, d) ==> cfg.lockKey(d) in tx.quotas && |PendingOf(rows + tx.own, d)| <= k)
    && PcCapped(tx.pc, d, k)
  }

  ghost predicate Capped(cfg: Config, db: Db, d: Device, k: nat) {
    && |PendingOf(db.rows, d)| <= k
    && forall t | t in db.txs :: TxCapped(cfg, db.rows, db.txs[t], d, k)
  }

  /** Every enqueue for the device uses a cap, and none above k. */
  predicate EnqueuesCapped(a: Action, d: Device, k: nat) {
    && (a.LockQuota? && a.device == d ==> a.cap <= k)
    && (a.Insert? && a.device == d ==> 0 < a.cap)
  }

  /** Changing rows that exist adds no pending command. */
  lemma NoMorePending(m: Table, n: Table, d: Device)
    requires forall id | id in n && n[id].status.Pending? && n[id].device == d :: id in m && m[id].status.Pending? && m[id].device == d
    ensures |PendingOf(n, d)| <= |PendingOf(m, d)|
  {
    SubsetSize(PendingOf(n, d), PendingOf(m, d));
  }

  lemma OnlyTxCapped(cfg: Config, db: Db, t: TxId, tx: Tx, d: Device, k: nat)
    requires Capped(cfg, db, d, k) && TxCapped(cfg, db.rows, tx, d, k)
    ensures Capped(cfg, With(db, t, tx), d, k)
  {
  }

  /** A transaction step that keeps `own` and gives up no quota lock. */
  lemma SameOwn(cfg: Config, db: Db, t: TxId, tx: Tx, d: Device, k: nat)
    requires Capped(cfg, db, d, k) && t in db.txs
    requires tx.own == db.txs[t].own && db.txs[t].quotas <= tx.quotas && PcCapped(tx.pc, d, k)
    ensures Capped(cfg, With(db, t, tx), d, k)
  {
    assert TxCapped(cfg, db.rows, db.txs[t], d, k);
    OnlyTxCapped(cfg, db, t, tx, d, k);
  }

  /** A transaction step that moves on rows it sees. */
  lemma ChangedOwn(cfg: Config, db: Db, t: TxId, changes: Table, tx: Tx, d: Device, k: nat)
    requires Capped(cfg, db, d, k) && t in db.txs
    requires tx.own == db.txs[t].own + changes && tx.quotas == db.txs[t].quotas && tx.pc.Idle?
    requires forall id | id in changes ::
               && id in db.rows + db.txs[t].own
               && Moves((db.rows + db.txs[t].own)[id], changes[id])
    ensures Capped(cfg, With(db, t, tx), d, k)
  {
    var old' := db.txs[t];
    assert TxCapped(cfg, db.rows, old', d, k);
    if Adds(db.rows, tx.own, d) {
      var id :| id in tx.own && id !in db.rows && tx.own[id].device == d;
      assert id in old'.own && old'.own[id].device == d;
      assert Adds(db.rows, old'.own, d);
      NoMorePending(db.rows + old'.own, db.rows + tx.own, d);
    }
    OnlyTxCapped(cfg, db, t, tx, d, k);
  }

  lemma InsertIs(cfg: Config, db: Db, a: Action)
    requires a.t in db.txs && a.Insert?
    ensures var tx, db' := db.txs[a.t], Step(cfg, db, a);
            var row := NewCommand(a.device, a.key, a.now);
            || db' == db
            || db' == With(db, a.t, Tx(tx.own, tx.locks, Quotas(cfg, tx), Idle))
            || db' == With(db, a.t, tx.(pc := Broken))
            || (tx.pc == Quota(a.device, a.cap) && db' == With(db, a.t, tx.(pc := Inserted(a.id, row, a.cap))))
            || (a.cap == 0 && a.id !in db.rows + tx.own && db' == With(db, a.t, Wrote(tx, a.id, row)))
  {
  }

  lemma InsertCapped(cfg: Config, db: Db, a: Action, d: Device, k: nat)
    requires Capped(cfg, db, d, k) && a.Insert? && a.t in db.txs && EnqueuesCapped(a, d, k)
    ensures Capped(cfg, Step(cfg, db, a), d, k)
  {
    var t, tx, db' := a.t, db.txs[a.t], Step(cfg, db, a);
    InsertIs(cfg, db, a);
    assert TxCapped(cfg, db.rows, tx, d, k);
    if db' != db {
      var tx' := db'.txs[t];
      if tx'.own == tx.own {
        SameOwn(cfg, db, t, tx', d, k);
      } else {
        assert a.device != d;
        assert Adds(db.rows, tx'.own, d) ==> Adds(db.rows, tx.own, d);
        NoMorePending(db.rows + tx.own, db.rows + tx'.own, d);
        OnlyTxCapped(cfg, db, t, tx', d, k);
      }
    }
  }

  /** The speculative row passed the check: it belongs to the transaction now. */
  lemma CheckPassed(cfg: Config, rows: Table, tx: Tx, tx': Tx, d: Device, k: nat)
    requires TxCapped(cfg, rows, tx, d, k) && tx.pc.Inserted? && tx.pc.id !in rows && tx.pc.id !in tx.own
    requires |PendingOf(rows + Overlay(tx), tx.pc.row.device)| <= tx.pc.cap
    requires tx' == Tx(tx.own[tx.pc.id := tx.pc.row], tx.locks + {tx.pc.id}, Quotas(cfg, tx), Idle)
    ensures TxCapped(cfg, rows, tx', d, k)
  {
    if tx.pc.row.device != d && Adds(rows, tx'.own, d) {
      var id :| id in tx'.own && id !in rows && tx'.own[id].device == d;
      assert id in tx.own;
      NoMorePending(rows + tx.own, rows + tx'.own, d);
    }
  }

  lemma CheckCapped(cfg: Config, db: Db, a: Action, d: Device, k: nat)
    requires Capped(cfg, db, d, k) && a.CheckCap? && a.t in db.txs && PcOk(db.rows, db.txs[a.t])
    ensures Capped(cfg, Step(cfg, db, a), d, k)
  {
    var t, tx, db' := a.t, db.txs[a.t], Step(cfg, db, a);
    assert TxCapped(cfg, db.rows, tx, d, k);
    if tx.pc.Inserted? {
      if |PendingOf(Seen(db, tx), tx.pc.row.device)| > tx.pc.cap {
        SameOwn(cfg, db, t, tx.(pc := Broken), d, k);
      } else {
        CheckPassed(cfg, db.rows, tx, db'.txs[t], d, k);
        OnlyTxCapped(cfg, db, t, db'.txs[t], d, k);
      }
    }
  }

  /** Steps that move on one row they see, or none. */
  lemma OneMoveCapped(cfg: Config, db: Db, t: TxId, id: Id, tx: Tx, d: Device, k: nat)
    requires Capped(cfg, db, d, k) && t in db.txs && !tx.pc.Quota? && !tx.pc.Inserted?
    requires tx.quotas == db.txs[t].quotas
    requires tx.own == db.txs[t].own
             || (tx.pc.Idle? && id in db.rows + db.txs[t].own && id in tx.own
                 && Moves((db.rows + db.txs[t].own)[id], tx.own[id])
                 && tx.own == db.txs[t].own + map[id := tx.own[id]])
    ensures Capped(cfg, With(db, t, tx), d, k)
  {
    if tx.own == db.txs[t].own {
      SameOwn(cfg, db, t, tx, d, k);
    } else {
      ChangedOwn(cfg, db, t, map[id := tx.own[id]], tx, d, k);
    }
  }

  lemma ReportIs(cfg: Config, db: Db, a: Action)
    requires a.t in db.txs && a.Report?
    ensures var tx, db' := db.txs[a.t], Step(cfg, db, a);
            var seen := db.rows + tx.own;
            || db' == db
            || db' == With(db, a.t, tx.(pc := Broken))
            || (a.id in seen && seen[a.id].status.Sent? && db' == With(db, a.t, Wrote(tx, a.id, Reported(seen[a.id], a.now))))
  {
  }

  lemma ReportCapped(cfg: Config, db: Db, a: Action, d: Device, k: nat)
    requires Capped(cfg, db, d, k) && a.t in db.txs && a.Report?
    requires var seen := db.rows + db.txs[a.t].own; a.id in seen ==> RowOk(seen[a.id])
    ensures Capped(cfg, Step(cfg, db, a), d, k)
  {
    var tx, db' := db.txs[a.t], Step(cfg, db, a);
    ReportIs(cfg, db, a);
    if db' != db {
      var tx' := db'.txs[a.t];
      assert tx'.own == tx.own || tx'.own == tx.own + map[a.id := tx'.own[a.id]];
      OneMoveCapped(cfg, db, a.t, a.id, tx', d, k);
    }
  }

  lemma ExtendIs(cfg: Config, db: Db, a: Action)
    requires a.t in db.txs && a.Extend?
    ensures var tx, db' := db.txs[a.t], Step(cfg, db, a);
            var seen := db.rows + tx.own;
            || db' == db
            || db' == With(db, a.t, tx.(pc := Broken))
            || (a.id in seen && !Terminal(seen[a.id].status) && seen[a.id].lease.Some? && Leased(seen[a.id].status)
                && db' == With(db, a.t, Wrote(tx, a.id, seen[a.id].(lease := Some(a.expiry)))))
  {
  }

  lemma ExtendCapped(cfg: Config, db: Db, a: Action, d: Device, k: nat)
    requires Capped(cfg, db, d, k) && a.t in db.txs && a.Extend?
    ensures Capped(cfg, Step(cfg, db, a), d, k)
  {
    var tx, db' := db.txs[a.t], Step(cfg, db, a);
    ExtendIs(cfg, db, a);
    if db' != db {
      var tx' := db'.txs[a.t];
      assert tx'.own == tx.own || tx'.own == tx.own + map[a.id := tx'.own[a.id]];
      OneMoveCapped(cfg, db, a.t, a.id, tx', d, k);
    }
  }

  lemma FinishIs(cfg: Config, db: Db, a: Action)
    requires a.t in db.txs && a.Finish? && PcOk(db.rows, db.txs[a.t]) && db.txs[a.t].pc.Locked?
    ensures var tx, db' := db.txs[a.t], Step(cfg, db, a);
            var id, seen := tx.pc.rowId, db.rows + tx.own;
            || db' == With(db, a.t, tx.(pc := Broken))
            || db' == With(db, a.t, Tx(tx.own, tx.locks + {id}, tx.quotas, Idle))
            || (!Terminal(seen[id].status) && Terminal(tx.pc.target)
                && db' == With(db, a.t, Wrote(tx, id, Finished(seen[id], tx.pc.target, a.now))))
  {
  }

  lemma FinishCapped(cfg: Config, db: Db, a: Action, d: Device, k: nat)
    requires Capped(cfg, db, d, k) && a.t in db.txs && a.Finish? && PcOk(db.rows, db.txs[a.t])
    ensures Capped(cfg, Step(cfg, db, a), d, k)
  {
    var tx, db' := db.txs[a.t], Step(cfg, db, a);
    if tx.pc.Locked? {
      FinishIs(cfg, db, a);
      var id, tx', seen := tx.pc.rowId, db'.txs[a.t], db.rows + tx.own;
      if tx'.own == tx.own {
        SameOwn(cfg, db, a.t, tx', d, k);
      } else {
        assert tx'.own == tx.own + map[id := tx'.own[id]] && Moves(seen[id], tx'.own[id]);
        OneMoveCapped(cfg, db, a.t, id, tx', d, k);
      }
    }
  }

  lemma LockCapped(cfg: Config, db: Db, a: Action, d: Device, k: nat)
    requires Capped(cfg, db, d, k) && a.t in db.txs && a.LockRow?
    ensures Capped(cfg, Step(cfg, db, a), d, k)
  {
    var db' := Step(cfg, db, a);
    if db' != db {
      SameOwn(cfg, db, a.t, db'.txs[a.t], d, k);
    }
  }

  lemma DequeueCapped(cfg: Config, db: Db, a: Action, d: Device, k: nat)
    requires Capped(cfg, db, d, k) && a.Dequeue? && a.t in db.txs
    ensures Capped(cfg, Step(cfg, db, a), d, k)
  {
    var t, tx, db' := a.t, db.txs[a.t], Step(cfg, db, a);
    if tx.pc.Idle? && forall id | id in a.picked :: id in PendingOf(Seen(db, tx), a.device) && !LockedByOther(db, t, id) {
      var changes := Claims(Seen(db, tx), a);
      ClaimsMove(db, a);
      assert db' == With(db, t, Tx(tx.own + changes, tx.locks + a.picked, tx.quotas, Idle));
      ChangedOwn(cfg, db, t, changes, db'.txs[t], d, k);
    }
  }

  /** Another transaction's commit leaves a transaction's count no higher. */
  lemma CommitCapsOther(cfg: Config, db: Db, t: TxId, u: TxId, d: Device, k: nat)
    requires Inv(cfg, db) && Capped(cfg, db, d, k) && t in db.txs && u in db.txs && t != u && db.txs[t].pc.Idle?
    ensures TxCapped(cfg, db.rows + db.txs[t].own, db.txs[u], d, k)
  {
    var rows, own, theirs := db.rows, db.txs[t].own, db.txs[u].own;
    assert PairOk(cfg, rows, db.txs[t], db.txs[u]) && TxOk(rows, db.txs[t]) && TxOk(rows, db.txs[u]);
    assert TxCapped(cfg, rows, db.txs[t], d, k) && TxCapped(cfg, rows, db.txs[u], d, k);
    if Adds(rows + own, theirs, d) {
      assert Adds(rows, theirs, d);
      assert !Adds(rows, own, d);
      NoMorePending(rows + theirs, rows + own + theirs, d);
    }
  }

  lemma CommitCapped(cfg: Config, db: Db, a: Action, d: Device, k: nat)
    requires Inv(cfg, db) && Capped(cfg, db, d, k) && a.Commit? && a.t in db.txs
    ensures Capped(cfg, Step(cfg, db, a), d, k)
  {
    var tx := db.txs[a.t];
    if tx.pc.Idle? {
      assert TxCapped(cfg, db.rows, tx, d, k) && TxOk(db.rows, tx);
      if !Adds(db.rows, tx.own, d) {
        NoMorePending(db.rows, db.rows + tx.own, d);
      }
      forall u | u in db.txs && u != a.t ensures TxCapped(cfg, db.rows + tx.own, db.txs[u], d, k) {
        CommitCapsOther(cfg, db, a.t, u, d, k);
      }
    }
  }

  lemma StepCapped(cfg: Config, db: Db, a: Action, d: Device, k: nat)
    requires Inv(cfg, db) && Capped(cfg, db, d, k) && EnqueuesCapped(a, d, k)
    ensures Capped(cfg, Step(cfg, db, a), d, k)
  {
    if a.t !in db.txs {
      if a.Begin? {
        OnlyTxCapped(cfg, db, a.t, Tx(map[], {}, {}, Idle), d, k);
      }
    } else {
      match a
      case Begin(_) =>
      case LockQuota(t, device, cap) =>
        if Step(cfg, db, a) != db {
          SameOwn(cfg, db, t, db.txs[t].(pc := Quota(device, cap)), d, k);
        }
      case Insert(_, _, _, _, _, _) => InsertCapped(cfg, db, a, d, k);
      case CheckCap(_) =>
        assert TxOk(db.rows, db.txs[a.t]);
        CheckCapped(cfg, db, a, d, k);
      case Dequeue(_, _, _, _, _) => DequeueCapped(cfg, db, a, d, k);
      case Report(_, _, _) =>
        if a.id in db.rows + db.txs[a.t].own {
          SeenOk(cfg, db, a.t, a.id);
        }
        ReportCapped(cfg, db, a, d, k);
      case LockRow(_, _, _, _) => LockCapped(cfg, db, a, d, k);
      case Finish(_, _) =>
        assert TxOk(db.rows, db.txs[a.t]);
        FinishCapped(cfg, db, a, d, k);
      case Extend(_, _, _) => ExtendCapped(cfg, db, a, d, k);
      case CallFails(t) => SameOwn(cfg, db, t, db.txs[t].(pc := Idle), d, k);
      case Commit(_) => CommitCapped(cfg, db, a, d, k);
      case Rollback(_) =>
    }
  }

  lemma {:induction false} RunCapped(cfg: Config, db: Db, acts: seq<Action>, d: Device, k: nat)
    requires Inv(cfg, db) && Capped(cfg, db, d, k)
    requires forall i | 0 <= i < |acts| :: EnqueuesCapped(acts[i], d, k)
    ensures Capped(cfg, Run(cfg, db, acts), d, k)
    decreases |acts|
  {
    if acts != [] {
      StepKeeps(cfg, db, acts[0]);
      StepCapped(cfg, db, acts[0], d, k);
      RunCapped(cfg, Step(cfg, db, acts[0]), acts[1..], d, k);
    }
  }

  /** A device whose enqueues all use a cap of at most k never has more than k committed
      pending commands, whatever the interleaving and however the quota locks collide. */
  lemma PendingNeverAboveCap(cfg: Config, acts: seq<Action>, d: Device, k: nat)
    requires forall i | 0 <= i < |acts| :: EnqueuesCapped(acts[i], d, k)
    ensures |PendingOf(Run(cfg, Init, acts).rows, d)| <= k
  {
    InitInv(cfg);
    RunCapped(cfg, Init, acts, d, k);
  }
}
