/** Replay detection and the grace budget, over every interleaving. */
module RefreshTheorems {
  import opened Options
  import opened RefreshTokens
  import opened RefreshInvariants

  ghost predicate Holds(pc: Pc) {
    pc.Counting? || pc.Inserting? || pc.Marking?
  }

  /** No call of the transaction carries anything of a lineage in `roots` any further. */
  ghost predicate Clear(roots: set<Id>, tx: Tx) {
    && (forall id | id in tx.own :: tx.own[id].root !in roots)
    && (!tx.pc.Idle? ==> forall id | id in tx.saved :: tx.saved[id].root !in roots)
    && (Holds(tx.pc) ==> tx.pc.row.root !in roots)
  }

  /** The lineages starting at `roots` are revoked, and nothing in flight can revive them. */
  ghost predicate Burnt(roots: set<Id>, db: Db) {
    && roots <= db.committed.Keys
    && (forall id | id in db.committed && db.committed[id].root in roots :: db.committed[id].revokedAt.Some?)
    && (forall t | t in db.txs :: Clear(roots, db.txs[t]))
  }

  lemma RereadClear(cfg: Config, committed: map<Id, Row>, tx: Tx, now: Time, later: Time, roots: set<Id>)
    requires tx.pc.Locked? && Clear(roots, tx)
    requires forall id | id in committed && committed[id].root in roots :: committed[id].revokedAt.Some?
    ensures Clear(roots, AfterReread(cfg, committed, tx, now, later))
  {
  }

  /** Steps that write rows write them in the lineage of the row they have read. */
  lemma WritesClear(cfg: Config, db: Db, a: Action, roots: set<Id>)
    requires Inv(cfg, db) && Burnt(roots, db) && a.t in db.txs
    requires a.CountGrace? || a.InsertChild? || a.MarkRotated?
    ensures a.t in Step(cfg, db, a).txs && Clear(roots, Step(cfg, db, a).txs[a.t])
  {
    var tx := db.txs[a.t];
    assert Clear(roots, tx) && PcOk(cfg, db.committed, tx);
  }

  lemma MovesClear(cfg: Config, db: Db, a: Action, roots: set<Id>)
    requires Burnt(roots, db) && a.t in db.txs
    requires a.Issue? || a.Present? || a.Lock? || a.Validate? || a.CallFails?
    ensures a.t in Step(cfg, db, a).txs && Clear(roots, Step(cfg, db, a).txs[a.t])
  {
    var tx := db.txs[a.t];
    assert Clear(roots, tx);
    if a.Validate? && tx.pc.Locked? {
      RereadClear(cfg, db.committed, tx, a.now, a.later, roots);
    }
  }

  lemma EndsBurnt(cfg: Config, db: Db, a: Action, roots: set<Id>)
    requires Burnt(roots, db)
    requires a.Begin? || a.t !in db.txs || a.Cascade? || a.Commit? || a.Rollback?
    ensures Burnt(roots, Step(cfg, db, a))
  {
    assert a.t in db.txs ==> Clear(roots, db.txs[a.t]);
  }

  lemma StaysBurnt(cfg: Config, db: Db, a: Action, roots: set<Id>)
    requires Inv(cfg, db) && Burnt(roots, db)
    ensures Burnt(roots, Step(cfg, db, a))
  {
    if a.Begin? || a.t !in db.txs || a.Cascade? || a.Commit? || a.Rollback? {
      EndsBurnt(cfg, db, a, roots);
    } else {
      StepIsOwn(cfg, db, a);
      if a.CountGrace? || a.InsertChild? || a.MarkRotated? {
        WritesClear(cfg, db, a, roots);
      } else {
        MovesClear(cfg, db, a, roots);
      }
      BurntWith(roots, db, a.t, Step(cfg, db, a).txs[a.t]);
    }
  }

  lemma BurntWith(roots: set<Id>, db: Db, t: TxId, tx: Tx)
    requires Burnt(roots, db) && Clear(roots, tx)
    ensures Burnt(roots, SetTx(db, t, tx))
  {
  }

  lemma {:induction false} RunStaysBurnt(cfg: Config, db: Db, acts: seq<Action>, roots: set<Id>)
    requires ValidConfig(cfg) && Inv(cfg, db) && Burnt(roots, db)
    ensures Burnt(roots, Run(cfg, db, acts))
    decreases |acts|
  {
    if acts != [] {
      StaysBurnt(cfg, db, acts[0], roots);
      StepKeeps(cfg, db, acts[0]);
      RunStaysBurnt(cfg, Step(cfg, db, acts[0]), acts[1..], roots);
    }
  }

  /** The rows of a session that are in the table, its roots among them. */
  ghost function RootsOf(committed: map<Id, Row>, session: string): set<Id> {
    set id | id in committed && committed[id].session == session
  }

  lemma RootIsInTable(cfg: Config, committed: map<Id, Row>, id: Id)
    requires Settled(cfg, committed) && id in committed
    ensures committed[id].root in committed && committed[committed[id].root].session == committed[id].session
  {
    assert RowOk(cfg, committed, id, committed[id]);
  }

  lemma OwnSession(cfg: Config, committed: map<Id, Row>, tx: Tx, id: Id)
    requires Settled(cfg, committed) && Local(cfg, committed, tx) && id in Visible(committed, tx)
    ensures var r := Visible(committed, tx)[id];
            r.root in committed ==> committed[r.root].session == r.session
  {
    VisibleRowOk(cfg, committed, tx, id);
    var root := Visible(committed, tx)[id].root;
    if root in tx.own { assert OwnRowOk(cfg, committed, tx, root); }
  }

  /** Whoever has added to a lineage in the table has also written a row of it there. */
  lemma WrittenAnchor(cfg: Config, committed: map<Id, Row>, tx: Tx, id: Id)
    requires Settled(cfg, committed) && Local(cfg, committed, tx) && !tx.pc.Marking?
    requires id in tx.own && tx.own[id].root in committed
    ensures exists p :: p in committed && p in tx.own && committed[p].session == tx.own[id].session
  {
    assert OwnRowOk(cfg, committed, tx, id);
    OwnSession(cfg, committed, tx, id);
    if id in committed {
      assert committed[id].session == tx.own[id].session;
    } else {
      var p :| p in committed && committed[p].root == tx.own[id].root && p in tx.own;
      RootIsInTable(cfg, committed, p);
    }
  }

  /** A transaction that has written anything of the session's lineages would block the
      cascade or hold the session's lock. */
  lemma NothingInFlight(cfg: Config, db: Db, t: TxId, u: TxId)
    requires Inv(cfg, db) && t in db.txs && u in db.txs
    requires db.txs[t].pc.Cascading? && CascadeUnblocked(db, db.txs[t].pc.session)
    ensures forall id | id in db.txs[u].own :: db.txs[u].own[id].root !in RootsOf(db.committed, db.txs[t].pc.session)
  {
    var tx, session := db.txs[u], db.txs[t].pc.session;
    OwnRowsElsewhere(cfg, db, u, session);
    assert u != t ==> Apart(db.txs[t], tx);
    forall id | id in tx.own ensures tx.own[id].root !in RootsOf(db.committed, session) {
      assert OwnRowOk(cfg, db.committed, tx, id);
      OwnSession(cfg, db.committed, tx, id);
      if u == t && tx.own[id].root in db.committed { WrittenAnchor(cfg, db.committed, tx, id); }
    }
  }

  lemma RevokedRoots(cfg: Config, committed: map<Id, Row>, session: string, at: Time)
    requires Settled(cfg, committed)
    ensures var m := Revoke(committed, session, at);
            forall id | id in m && m[id].root in RootsOf(committed, session) :: m[id].revokedAt.Some?
  {
    var m := Revoke(committed, session, at);
    forall id | id in m && m[id].root in RootsOf(committed, session) ensures m[id].revokedAt.Some? {
      RootIsInTable(cfg, committed, id);
    }
  }

  /** Another transaction has nothing of the session in flight: the presenting one has its lock. */
  lemma OtherIsClear(cfg: Config, db: Db, t: TxId, u: TxId)
    requires Inv(cfg, db) && t in db.txs && u in db.txs && u != t && db.txs[t].pc.Cascading?
    requires CascadeUnblocked(db, db.txs[t].pc.session)
    ensures Clear(RootsOf(db.committed, db.txs[t].pc.session), db.txs[u])
  {
    NothingInFlight(cfg, db, t, u);
    var tx := db.txs[u];
    assert Apart(db.txs[t], tx);
    if Holds(tx.pc) { OwnSession(cfg, db.committed, tx, tx.pc.id); }
    if !tx.pc.Idle? { SavedClear(cfg, db, t, u); }
  }

  lemma CascadeBurns(cfg: Config, db: Db, t: TxId)
    requires Inv(cfg, db) && t in db.txs && db.txs[t].pc.Cascading? && CascadeUnblocked(db, db.txs[t].pc.session)
    ensures Burnt(RootsOf(db.committed, db.txs[t].pc.session), Step(cfg, db, Cascade(t)))
  {
    var session, roots := db.txs[t].pc.session, RootsOf(db.committed, db.txs[t].pc.session);
    var after := SetTx(db.(committed := Revoke(db.committed, session, db.txs[t].pc.at)), t, db.txs[t].(pc := Idle));
    assert Step(cfg, db, Cascade(t)) == after;
    RevokedRoots(cfg, db.committed, session, db.txs[t].pc.at);
    forall u | u in after.txs ensures Clear(roots, after.txs[u]) {
      if u == t {
        NothingInFlight(cfg, db, t, t);
      } else {
        OtherIsClear(cfg, db, t, u);
      }
    }
  }

  lemma SavedClear(cfg: Config, db: Db, t: TxId, u: TxId)
    requires Inv(cfg, db) && t in db.txs && u in db.txs && t != u
    requires db.txs[t].pc.Cascading? && !db.txs[u].pc.Idle?
    ensures forall id | id in db.txs[u].saved :: db.txs[u].saved[id].root !in RootsOf(db.committed, db.txs[t].pc.session)
  {
    var tx, session := Restored(db.txs[u]), db.txs[t].pc.session;
    assert Apart(db.txs[t], db.txs[u]);
    forall id | id in tx.own ensures tx.own[id].root !in RootsOf(db.committed, session) {
      assert OwnRowOk(cfg, db.committed, tx, id);
      OwnSession(cfg, db.committed, tx, id);
    }
  }

  // ------------------------------------------------------------------
  // What can block the cascade
  // ------------------------------------------------------------------

  lemma WrittenMeansLocked(cfg: Config, committed: map<Id, Row>, tx: Tx)
    requires Settled(cfg, committed) && Local(cfg, committed, tx)
    ensures forall id | id in tx.own && id in committed :: cfg.lockKey(committed[id].session) in tx.locks
  {
    forall id | id in tx.own && id in committed ensures cfg.lockKey(committed[id].session) in tx.locks {
      assert OwnRowOk(cfg, committed, tx, id);
      RootIsInTable(cfg, committed, id);
    }
  }

  /** The transaction has itself changed a row of the session that is not revoked yet. */
  ghost predicate WroteUnrevoked(db: Db, t: TxId, session: string)
    requires t in db.txs
  {
    exists id | id in db.txs[t].own && id in db.committed ::
      db.committed[id].session == session && db.committed[id].revokedAt.None?
  }

  /** The presenting transaction holds the session's lock, so it alone can have locked a row the
      cascade needs: the cascade waits, until it times out, exactly if an earlier call in the same
      transaction has rotated a token of the session. */
  lemma OnlyPresenterBlocks(cfg: Config, before: seq<Action>, t: TxId)
    requires ValidConfig(cfg)
    requires var db := Run(cfg, Init, before); t in db.txs && db.txs[t].pc.Cascading?
    ensures var db := Run(cfg, Init, before);
            var session := db.txs[t].pc.session;
            && (CascadeUnblocked(db, session) <==> !WroteUnrevoked(db, t, session))
            && (WroteUnrevoked(db, t, session) ==> Step(cfg, db, Cascade(t)) == db)
  {
    InitInv(cfg);
    RunKeeps(cfg, Init, before);
    var db := Run(cfg, Init, before);
    var session := db.txs[t].pc.session;
    forall id, u | id in db.committed && db.committed[id].session == session && u in db.txs && u != t
      ensures id !in db.txs[u].own
    {
      assert Apart(db.txs[t], db.txs[u]) && PcOk(cfg, db.committed, db.txs[t]);
      WrittenMeansLocked(cfg, db.committed, db.txs[u]);
    }
  }

  lemma InitInv(cfg: Config)
    ensures Inv(cfg, Init)
  {
    forall id: Id ensures Balanced(Init.committed, id) {
      assert Children(Init.committed, id) == {};
    }
  }

  /** Committed rows stay, and only their rotation, revocation and use columns change: verifier,
      deadlines and lineage do not, and a revocation is never undone. */
  ghost predicate Kept(m: map<Id, Row>, m': map<Id, Row>) {
    forall id | id in m ::
      && id in m'
      && m'[id] == m[id].(rotatedAt := m'[id].rotatedAt, revokedAt := m'[id].revokedAt,
                          firstUsedAt := m'[id].firstUsedAt, usedTimes := m'[id].usedTimes)
      && (m[id].revokedAt.Some? ==> m'[id].revokedAt.Some?)
  }

  lemma StepOnlyChangesFlags(cfg: Config, db: Db, a: Action)
    requires Inv(cfg, db)
    ensures Kept(db.committed, Step(cfg, db, a).committed)
  {
    if a.t in db.txs {
      if a.Commit? {
        CommitChangesFlags(cfg, db.committed, db.txs[a.t]);
      } else if !a.Begin? && !a.Cascade? && !a.Rollback? {
        StepIsOwn(cfg, db, a);
      }
    }
  }

  lemma CommitChangesFlags(cfg: Config, committed: map<Id, Row>, tx: Tx)
    requires Local(cfg, committed, tx)
    ensures Kept(committed, committed + tx.own)
  {
    forall id | id in committed && id in tx.own ensures OwnRowOk(cfg, committed, tx, id) {}
  }

  lemma {:induction false} RowsOnlyChangeFlags(cfg: Config, db: Db, acts: seq<Action>)
    requires ValidConfig(cfg) && Inv(cfg, db)
    ensures Kept(db.committed, Run(cfg, db, acts).committed)
    decreases |acts|
  {
    if acts != [] {
      StepOnlyChangesFlags(cfg, db, acts[0]);
      StepKeeps(cfg, db, acts[0]);
      RowsOnlyChangeFlags(cfg, Step(cfg, db, acts[0]), acts[1..]);
    }
  }

  ghost predicate SessionRevoked(m: map<Id, Row>, session: string) {
    forall id | id in m && m[id].session == session :: m[id].revokedAt.Some?
  }

  /** Every row of the session is revoked unless it stems from an Issue not in `known`. */
  ghost predicate RevokedSince(known: map<Id, Row>, m: map<Id, Row>, session: string) {
    forall id | id in m && m[id].session == session && m[id].root in known :: m[id].revokedAt.Some?
  }

  lemma RevokedFromHere(cfg: Config, db: Db, t: TxId, after: seq<Action>)
    requires ValidConfig(cfg) && Inv(cfg, db)
    requires t in db.txs && db.txs[t].pc.Cascading? && CascadeUnblocked(db, db.txs[t].pc.session)
    ensures RevokedSince(db.committed, Run(cfg, Step(cfg, db, Cascade(t)), after).committed, db.txs[t].pc.session)
  {
    var session := db.txs[t].pc.session;
    var revoked := Step(cfg, db, Cascade(t));
    CascadeBurns(cfg, db, t);
    StepKeeps(cfg, db, Cascade(t));
    StepOnlyChangesFlags(cfg, db, Cascade(t));
    RunStaysBurnt(cfg, revoked, after, RootsOf(db.committed, session));
    RunKeeps(cfg, revoked, after);
    RowsOnlyChangeFlags(cfg, revoked, after);
    var later := Run(cfg, revoked, after).committed;
    forall id | id in later && later[id].session == session && later[id].root in db.committed
      ensures later[id].root in RootsOf(db.committed, session)
    {
      RootIsInTable(cfg, later, id);
    }
  }

  /** Once a Peek or Rotate reaches the reuse verdict, every row of the session is revoked,
      and however the run goes on (the presenting transaction may roll back) no row of a
      lineage that was in the table is ever unrevoked again and no token of it passes. */
  lemma ReuseRevokesForGood(cfg: Config, before: seq<Action>, t: TxId, after: seq<Action>)
    requires ValidConfig(cfg)
    requires var db := Run(cfg, Init, before);
             t in db.txs && db.txs[t].pc.Cascading? && !WroteUnrevoked(db, t, db.txs[t].pc.session)
    ensures var db := Run(cfg, Init, before);
            var session := db.txs[t].pc.session;
            var revoked := Step(cfg, db, Cascade(t));
            var end := Run(cfg, revoked, after).committed;
            && SessionRevoked(revoked.committed, session)
            && RevokedSince(db.committed, end, session)
            && forall id, verifier, now, later | id in end && end[id].session == session && end[id].root in db.committed ::
                 Judge(cfg.policy, end[id], verifier, now, later) == Rejected
  {
    InitInv(cfg);
    RunKeeps(cfg, Init, before);
    OnlyPresenterBlocks(cfg, before, t);
    RevokedFromHere(cfg, Run(cfg, Init, before), t, after);
  }

  /** In every reachable state a row has exactly as many children as its columns say, at
      most one plus the grace budget, and every child continues its parent's grant. */
  lemma GraceBudget(cfg: Config, acts: seq<Action>, id: Id)
    requires ValidConfig(cfg) && id in Run(cfg, Init, acts).committed
    ensures var m := Run(cfg, Init, acts).committed;
            && |Children(m, id)| == m[id].usedTimes + (if m[id].rotatedAt.Some? then 1 else 0)
            && |Children(m, id)| <= 1 + cfg.policy.graceMaxReuses
            && (m[id].parent.Some? ==>
                  && m[id].parent.value in m
                  && var p := m[m[id].parent.value];
                  p.session == m[id].session && p.subject == m[id].subject && p.epoch == m[id].epoch)
  {
    InitInv(cfg);
    RunKeeps(cfg, Init, acts);
    var m := Run(cfg, Init, acts).committed;
    assert Balanced(m, id) && RowOk(cfg, m, id, m[id]);
  }

  // ------------------------------------------------------------------
  // The life of a token
  // ------------------------------------------------------------------

  /** The parent after `k` exchanges within the grace window. */
  function Counted(row: Row, k: nat, at: Time): Row {
    if k == 0 then row else CountedRow(Counted(row, k - 1, at), at)
  }

  /** A parent that passed and was rotated at `at` can be presented again while it is valid: it is
      given grace exactly GraceMaxReuses times within the interval, and is reuse otherwise. */
  lemma {:induction false} GraceRunsOut(policy: Policy, row: Row, verifier: string, at: Time, k: nat, graceAt: Time, now: Time, later: Time)
    requires Judge(policy, row, verifier, now, later) == Fresh && row.usedTimes == 0
    ensures var spent := Counted(row.(rotatedAt := Some(at)), k, graceAt);
            Judge(policy, spent, verifier, now, later)
            == if k < policy.graceMaxReuses && later <= at + policy.reuseInterval then Grace else Reused
  {
    CountedFields(row.(rotatedAt := Some(at)), k, graceAt);
  }

  lemma {:induction false} CountedFields(row: Row, k: nat, at: Time)
    ensures var c := Counted(row, k, at);
            && c.usedTimes == row.usedTimes + k
            && c == row.(usedTimes := c.usedTimes, firstUsedAt := c.firstUsedAt)
            && (k > 0 ==> c.firstUsedAt == if row.firstUsedAt.Some? then row.firstUsedAt else Some(at))
    decreases k
  {
    if k > 0 {
      CountedFields(row, k - 1, at);
    }
  }
}
