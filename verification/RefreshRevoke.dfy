/** RevokeSession beside the rotations, adapters/postgres/refresh_store.go:573-579.

    It is one UPDATE that takes no session lock. As a READ COMMITTED statement it revokes the rows
    of the session that were committed when it started, once nobody has them locked any more; rows
    committed since are not among them. The model takes it in a transaction of its own. */
module RefreshRevoke {
  import opened Options
  import opened RefreshTokens
  import opened RefreshInvariants
  import opened RefreshTheorems

  /** The statement's snapshot: rows of the session that are in the table. */
  ghost predicate Snapshot(db: Db, ids: set<Id>, session: string) {
    forall id | id in ids :: id in db.committed && db.committed[id].session == session
  }

  /** Nobody has changed a row it is about to revoke. */
  ghost predicate Unlocked(db: Db, ids: set<Id>) {
    forall id, u | id in ids && id in db.committed && db.committed[id].revokedAt.None? && u in db.txs :: id !in db.txs[u].own
  }

  function RevokeIds(m: map<Id, Row>, ids: set<Id>, at: Time): map<Id, Row> {
    map id | id in m :: if id in ids && m[id].revokedAt.None? then m[id].(revokedAt := Some(at)) else m[id]
  }

  function RevokeSession(db: Db, ids: set<Id>, at: Time): Db {
    db.(committed := RevokeIds(db.committed, ids, at))
  }

  /** The snapshot has all there is of the session, and nothing of its lineages is in flight: no
      transaction has rows of them, and no call has validated a token of them. */
  ghost predicate Complete(db: Db, ids: set<Id>, session: string) {
    && (forall id | id in db.committed && db.committed[id].session == session && db.committed[id].revokedAt.None? :: id in ids)
    && (forall u | u in db.txs :: Clear(RootsOf(db.committed, session), db.txs[u]))
  }

  /** However the rotations go on, the lineages stay revoked. */
  ghost predicate RevokesForGood(cfg: Config, db: Db, ids: set<Id>, session: string, at: Time) {
    forall after: seq<Action> :: RevokedSince(db.committed, Run(cfg, RevokeSession(db, ids, at), after).committed, session)
  }

  // ------------------------------------------------------------------
  // If it is complete
  // ------------------------------------------------------------------

  lemma OwnElsewhere(cfg: Config, committed: map<Id, Row>, tx: Tx, session: string)
    requires Settled(cfg, committed) && Local(cfg, committed, tx)
    requires forall id | id in tx.own :: tx.own[id].root !in RootsOf(committed, session)
    ensures forall id | id in tx.own && id in committed :: committed[id].session != session
  {
    forall id | id in tx.own && id in committed ensures committed[id].session != session {
      assert OwnRowOk(cfg, committed, tx, id);
      RootIsInTable(cfg, committed, id);
    }
  }

  lemma HeldElsewhere(cfg: Config, db: Db, tx: Tx, session: string)
    requires Settled(cfg, db.committed) && Local(cfg, db.committed, tx) && Holds(tx.pc)
    requires tx.pc.row.root !in RootsOf(db.committed, session)
    ensures tx.pc.row.session != session || tx.pc.id in tx.own
  {
    VisibleRowOk(cfg, db.committed, tx, tx.pc.id);
    if tx.pc.id !in tx.own {
      RootIsInTable(cfg, db.committed, tx.pc.id);
    }
  }

  lemma RevokeIsSession(db: Db, ids: set<Id>, session: string, at: Time)
    requires Snapshot(db, ids, session)
    requires forall id | id in db.committed && db.committed[id].session == session && db.committed[id].revokedAt.None? :: id in ids
    ensures RevokeIds(db.committed, ids, at) == Revoke(db.committed, session, at)
  {
  }

  lemma CompleteKeepsTx(cfg: Config, db: Db, u: TxId, session: string, at: Time)
    requires Inv(cfg, db) && u in db.txs && Clear(RootsOf(db.committed, session), db.txs[u])
    ensures Local(cfg, Revoke(db.committed, session, at), db.txs[u])
    ensures Restorable(cfg, Revoke(db.committed, session, at), db.txs[u])
  {
    var tx := db.txs[u];
    OwnElsewhere(cfg, db.committed, tx, session);
    if Holds(tx.pc) {
      HeldElsewhere(cfg, db, tx, session);
    }
    RevokeLeavesTx(cfg, db.committed, tx, session, at);
    if !tx.pc.Idle? {
      OwnElsewhere(cfg, db.committed, Restored(tx), session);
      RevokeLeavesTx(cfg, db.committed, Restored(tx), session, at);
    }
  }

  lemma CompleteKeeps(cfg: Config, db: Db, ids: set<Id>, session: string, at: Time)
    requires Inv(cfg, db) && Snapshot(db, ids, session) && Complete(db, ids, session)
    ensures Inv(cfg, RevokeSession(db, ids, at)) && Burnt(RootsOf(db.committed, session), RevokeSession(db, ids, at))
  {
    RevokeIsSession(db, ids, session, at);
    RevokeSettles(cfg, db.committed, session, at);
    forall u | u in db.txs
      ensures Local(cfg, Revoke(db.committed, session, at), db.txs[u]) && Restorable(cfg, Revoke(db.committed, session, at), db.txs[u])
    {
      CompleteKeepsTx(cfg, db, u, session, at);
    }
    assert RevokeSession(db, ids, at) == db.(committed := Revoke(db.committed, session, at));
    RevokedRoots(cfg, db.committed, session, at);
  }

  lemma CompleteRevokes(cfg: Config, db: Db, ids: set<Id>, session: string, at: Time, after: seq<Action>)
    requires ValidConfig(cfg) && Inv(cfg, db) && Snapshot(db, ids, session) && Complete(db, ids, session)
    ensures RevokedSince(db.committed, Run(cfg, RevokeSession(db, ids, at), after).committed, session)
  {
    var revoked := RevokeSession(db, ids, at);
    CompleteKeeps(cfg, db, ids, session, at);
    RunStaysBurnt(cfg, revoked, after, RootsOf(db.committed, session));
    RunKeeps(cfg, revoked, after);
    RowsOnlyChangeFlags(cfg, revoked, after);
    var later := Run(cfg, revoked, after).committed;
    forall id | id in later && later[id].session == session && later[id].root in db.committed
      ensures later[id].root in RootsOf(db.committed, session)
    {
      RootIsInTable(cfg, later, id);
    }
  }

  /** Holding the session's lock would do: then nobody else has anything of it in flight. */
  lemma ClearUnderLock(cfg: Config, db: Db, session: string, u: TxId)
    requires Inv(cfg, db) && u in db.txs && cfg.lockKey(session) !in db.txs[u].locks
    ensures Clear(RootsOf(db.committed, session), db.txs[u])
  {
    var tx, roots := db.txs[u], RootsOf(db.committed, session);
    forall id | id in tx.own ensures tx.own[id].root !in roots {
      assert OwnRowOk(cfg, db.committed, tx, id);
      OwnSession(cfg, db.committed, tx, id);
    }
    if Holds(tx.pc) {
      OwnSession(cfg, db.committed, tx, tx.pc.id);
    }
    if !tx.pc.Idle? {
      var saved := Restored(tx);
      forall id | id in saved.own ensures saved.own[id].root !in roots {
        assert OwnRowOk(cfg, db.committed, saved, id);
        OwnSession(cfg, db.committed, saved, id);
      }
    }
  }

  // ------------------------------------------------------------------
  // If it is not
  // ------------------------------------------------------------------

  /** A call that has not validated its token yet has written nothing; one that is about to mark
      the parent has added a child. */
  ghost predicate Early(tx: Tx) {
    && (tx.pc.Located? || tx.pc.Locked? || tx.pc.Cascading? ==> tx.own == tx.saved)
    && (tx.pc.Marking? ==> exists id | id in tx.own :: id != tx.pc.id && tx.own[id].root == tx.pc.row.root)
  }

  lemma InsertEarly(cfg: Config, db: Db, a: Action)
    requires a.InsertChild? && a.t in db.txs && db.txs[a.t].pc.Inserting? && Unused(db, a.id)
    requires db.txs[a.t].pc.id in Visible(db.committed, db.txs[a.t])
    ensures a.t in Step(cfg, db, a).txs && Early(Step(cfg, db, a).txs[a.t])
  {
    var tx, tx' := db.txs[a.t], Step(cfg, db, a).txs[a.t];
    assert a.id in tx'.own && a.id != tx.pc.id && tx'.own[a.id].root == tx.pc.row.root;
  }

  lemma StepEarly(cfg: Config, db: Db, a: Action, t: TxId)
    requires forall u | u in db.txs :: Early(db.txs[u])
    requires forall u | u in db.txs && db.txs[u].pc.Inserting? :: db.txs[u].pc.id in Visible(db.committed, db.txs[u])
    requires t in Step(cfg, db, a).txs
    ensures Early(Step(cfg, db, a).txs[t])
  {
    if t in db.txs {
      assert Early(db.txs[t]);
    }
    if t == a.t && a.InsertChild? && db.txs[t].pc.Inserting? && Unused(db, a.id) {
      InsertEarly(cfg, db, a);
    }
  }

  lemma {:induction false} EarlyWritesNothing(cfg: Config, db: Db, acts: seq<Action>)
    requires ValidConfig(cfg) && Inv(cfg, db) && forall t | t in db.txs :: Early(db.txs[t])
    ensures forall t | t in Run(cfg, db, acts).txs :: Early(Run(cfg, db, acts).txs[t])
    decreases |acts|
  {
    if acts != [] {
      assert forall u | u in db.txs && db.txs[u].pc.Inserting? :: PcOk(cfg, db.committed, db.txs[u]);
      forall t | t in Step(cfg, db, acts[0]).txs ensures Early(Step(cfg, db, acts[0]).txs[t]) {
        StepEarly(cfg, db, acts[0], t);
      }
      StepKeeps(cfg, db, acts[0]);
      EarlyWritesNothing(cfg, Step(cfg, db, acts[0]), acts[1..]);
    }
  }

  /** How a transaction can end its call and commit. */
  function WayOut(u: TxId, tx: Tx, child: Id, at: Time): seq<Action> {
    match tx.pc
    case Idle => [Commit(u)]
    case Counting(_, _, _) => [CountGrace(u), InsertChild(u, child, "", at), Commit(u)]
    case Inserting(_, row) =>
      if row.rotatedAt.None? then [InsertChild(u, child, "", at), MarkRotated(u), Commit(u)]
      else [InsertChild(u, child, "", at), Commit(u)]
    case Marking(_, _, _) => [MarkRotated(u), Commit(u)]
    case _ => [CallFails(u), Commit(u)]
  }

  lemma TwoSteps(cfg: Config, db: Db, acts: seq<Action>)
    requires |acts| == 2
    ensures Run(cfg, db, acts) == Step(cfg, Step(cfg, db, acts[0]), acts[1])
  {
    assert acts[1..][1..] == [] && Run(cfg, Step(cfg, db, acts[0]), acts[1..]) == Run(cfg, Step(cfg, Step(cfg, db, acts[0]), acts[1]), []);
  }

  lemma ThreeSteps(cfg: Config, db: Db, acts: seq<Action>)
    requires |acts| == 3
    ensures Run(cfg, db, acts) == Step(cfg, Step(cfg, Step(cfg, db, acts[0]), acts[1]), acts[2])
  {
    TwoSteps(cfg, Step(cfg, db, acts[0]), acts[1..]);
  }

  /** Nothing is in the way of the call that holds a token. */
  ghost predicate MayGoOn(db: Db, u: TxId, child: Id) {
    && u in db.txs && Unused(db, child)
    && var tx := db.txs[u];
    && (Holds(tx.pc) ==> RowFree(db, u, tx.pc.id) && tx.pc.id in Visible(db.committed, tx))
    && (tx.pc.Counting? ==> tx.pc.row.rotatedAt.Some?)
  }

  /** The table after the way out has the transaction's rows, and the child of a token that had
      been validated. */
  ghost predicate Out(cfg: Config, tx: Tx, end: map<Id, Row>, child: Id, at: Time) {
    && (forall id | id in tx.own && (Holds(tx.pc) ==> id != tx.pc.id) :: id in end && end[id] == tx.own[id])
    && (tx.pc.Counting? || tx.pc.Inserting? ==>
          child in end && end[child] == ChildRow(cfg, tx.pc.id, tx.pc.row, "", at))
  }

  lemma MarkOut(cfg: Config, db: Db, u: TxId)
    requires u in db.txs && db.txs[u].pc.Marking? && RowFree(db, u, db.txs[u].pc.id)
    requires db.txs[u].pc.id in Visible(db.committed, db.txs[u])
    ensures var end := Step(cfg, Step(cfg, db, MarkRotated(u)), Commit(u)).committed;
            forall id | id in db.txs[u].own && id != db.txs[u].pc.id :: id in end && end[id] == db.txs[u].own[id]
  {
    var db1 := Step(cfg, db, MarkRotated(u));
    assert db1.txs[u].pc.Idle? && db1.committed == db.committed;
    assert forall id | id in db.txs[u].own && id != db.txs[u].pc.id :: id in db1.txs[u].own && db1.txs[u].own[id] == db.txs[u].own[id];
  }

  /** The child goes in and the call is over, up to the mark of a first rotation. */
  lemma InsertOut(cfg: Config, db: Db, u: TxId, child: Id, at: Time)
    requires u in db.txs && db.txs[u].pc.Inserting? && Unused(db, child)
    requires RowFree(db, u, db.txs[u].pc.id) && db.txs[u].pc.id in Visible(db.committed, db.txs[u])
    ensures var tx, db' := db.txs[u], Step(cfg, db, InsertChild(u, child, "", at));
            var end := if tx.pc.row.rotatedAt.None? then Step(cfg, Step(cfg, db', MarkRotated(u)), Commit(u)).committed
                       else Step(cfg, db', Commit(u)).committed;
            Out(cfg, tx, end, child, at)
  {
    var tx, db' := db.txs[u], Step(cfg, db, InsertChild(u, child, "", at));
    var tx' := db'.txs[u];
    assert tx'.own == tx.own[child := ChildRow(cfg, tx.pc.id, tx.pc.row, "", at)] && tx.pc.id != child;
    if tx.pc.row.rotatedAt.None? {
      assert RowFree(db', u, tx.pc.id);
      MarkOut(cfg, db', u);
    }
  }

  lemma CountOut(cfg: Config, db: Db, u: TxId, child: Id, at: Time)
    requires MayGoOn(db, u, child) && db.txs[u].pc.Counting?
    ensures var end := Step(cfg, Step(cfg, Step(cfg, db, CountGrace(u)), InsertChild(u, child, "", at)), Commit(u)).committed;
            Out(cfg, db.txs[u], end, child, at)
  {
    var tx, db1 := db.txs[u], Step(cfg, db, CountGrace(u));
    assert db1.txs[u].pc == Inserting(tx.pc.id, tx.pc.row) && tx.pc.id in db1.txs[u].own && child != tx.pc.id;
    assert Unused(db1, child) && RowFree(db1, u, tx.pc.id);
    InsertOut(cfg, db1, u, child, at);
  }

  lemma WayOutCommits(cfg: Config, db: Db, u: TxId, child: Id, at: Time)
    requires MayGoOn(db, u, child) && Early(db.txs[u])
    ensures Out(cfg, db.txs[u], Run(cfg, db, WayOut(u, db.txs[u], child, at)).committed, child, at)
  {
    var tx := db.txs[u];
    var acts := WayOut(u, tx, child, at);
    if |acts| == 3 {
      ThreeSteps(cfg, db, acts);
    } else if |acts| == 2 {
      TwoSteps(cfg, db, acts);
    } else {
      assert acts[1..] == [];
    }
    if tx.pc.Counting? {
      CountOut(cfg, db, u, child, at);
    } else if tx.pc.Inserting? {
      InsertOut(cfg, db, u, child, at);
    } else if tx.pc.Marking? {
      MarkOut(cfg, db, u);
    }
  }

  lemma {:induction false} Above(s: set<Id>) returns (n: Id)
    ensures forall x | x in s :: x < n
    decreases s
  {
    n := 0;
    if s != {} {
      var y :| y in s;
      n := Above(s - {y});
      n := if y < n then n else y + 1;
      assert forall x | x in s :: x == y || x in s - {y};
    }
  }

  /** There are always ids nobody has used. */
  lemma FreshId(db: Db) returns (id: Id)
    ensures Unused(db, id)
  {
    var used := db.committed.Keys + set u, x | u in db.txs && x in db.txs[u].own :: x;
    id := Above(used);
    assert forall u | u in db.txs :: forall x | x in db.txs[u].own :: x in used;
  }

  /** The way out is free in every reachable state, and the revocation does not close it. */
  lemma WayIsFree(cfg: Config, db: Db, ids: set<Id>, at: Time, u: TxId, child: Id)
    requires Inv(cfg, db) && u in db.txs && Unused(db, child)
    ensures MayGoOn(RevokeSession(db, ids, at), u, child)
  {
    var tx := db.txs[u];
    if Holds(tx.pc) {
      assert PcOk(cfg, db.committed, tx);
      forall v | v in db.txs && v != u ensures tx.pc.id !in db.txs[v].own {
        assert Apart(tx, db.txs[v]);
        WrittenMeansLocked(cfg, db.committed, db.txs[v]);
      }
    }
  }

  /** A row of the table's lineages that is in the table and not revoked. */
  ghost predicate Escapes(db: Db, end: map<Id, Row>, session: string, id: Id) {
    id in end && end[id].session == session && end[id].root in db.committed && end[id].revokedAt.None?
  }

  lemma OwnEscapes(cfg: Config, db: Db, tx: Tx, session: string, end: map<Id, Row>, id: Id)
    requires Settled(cfg, db.committed) && Local(cfg, db.committed, tx)
    requires id in tx.own && tx.own[id].root in RootsOf(db.committed, session) && id in end && end[id] == tx.own[id]
    ensures Escapes(db, end, session, id)
  {
    assert OwnRowOk(cfg, db.committed, tx, id);
    OwnSession(cfg, db.committed, tx, id);
  }

  /** A revocation that is not complete lets a row escape: one it has not seen, one in flight, or
      the child of a token validated before. */
  lemma Escape(cfg: Config, db: Db, ids: set<Id>, session: string, at: Time, u: TxId) returns (after: seq<Action>, id: Id)
    requires Inv(cfg, db) && u in db.txs && Early(db.txs[u]) && !Clear(RootsOf(db.committed, session), db.txs[u])
    ensures Escapes(db, Run(cfg, RevokeSession(db, ids, at), after).committed, session, id)
  {
    var tx, roots, revoked := db.txs[u], RootsOf(db.committed, session), RevokeSession(db, ids, at);
    if !tx.pc.Idle? && exists x | x in tx.saved :: tx.saved[x].root in roots {
      after, id := EscapeSaved(cfg, db, ids, session, at, u);
      return;
    }
    var child := FreshId(db);
    after := WayOut(u, tx, child, at);
    WayIsFree(cfg, db, ids, at, u, child);
    WayOutCommits(cfg, revoked, u, child, at);
    id := EscapeOut(cfg, db, u, session, Run(cfg, revoked, after).committed, child, at);
  }

  lemma EscapeSaved(cfg: Config, db: Db, ids: set<Id>, session: string, at: Time, u: TxId) returns (after: seq<Action>, id: Id)
    requires Inv(cfg, db) && u in db.txs && !db.txs[u].pc.Idle?
    requires exists x | x in db.txs[u].saved :: db.txs[u].saved[x].root in RootsOf(db.committed, session)
    ensures Escapes(db, Run(cfg, RevokeSession(db, ids, at), after).committed, session, id)
  {
    var tx := db.txs[u];
    id :| id in tx.saved && tx.saved[id].root in RootsOf(db.committed, session);
    after := [CallFails(u), Commit(u)];
    FailOut(cfg, RevokeSession(db, ids, at), u);
    assert Local(cfg, db.committed, Restored(tx));
    OwnEscapes(cfg, db, Restored(tx), session, Run(cfg, RevokeSession(db, ids, at), after).committed, id);
  }

  lemma FailOut(cfg: Config, db: Db, u: TxId)
    requires u in db.txs && !db.txs[u].pc.Idle?
    ensures Run(cfg, db, [CallFails(u), Commit(u)]).committed == db.committed + db.txs[u].saved
  {
    TwoSteps(cfg, db, [CallFails(u), Commit(u)]);
    var tx := db.txs[u];
    assert Step(cfg, db, CallFails(u)) == SetTx(db, u, Tx(tx.saved, tx.savedLocks, Idle, tx.saved, tx.savedLocks));
  }

  lemma EscapeOut(cfg: Config, db: Db, u: TxId, session: string, end: map<Id, Row>, child: Id, at: Time) returns (id: Id)
    requires Inv(cfg, db) && u in db.txs && Early(db.txs[u]) && Out(cfg, db.txs[u], end, child, at)
    requires var tx, roots := db.txs[u], RootsOf(db.committed, session);
             (exists x | x in tx.own :: tx.own[x].root in roots) || (Holds(tx.pc) && tx.pc.row.root in roots)
    ensures Escapes(db, end, session, id)
  {
    var tx, roots := db.txs[u], RootsOf(db.committed, session);
    if exists x | x in tx.own :: tx.own[x].root in roots && (Holds(tx.pc) ==> x != tx.pc.id) {
      id :| id in tx.own && tx.own[id].root in roots && (Holds(tx.pc) ==> id != tx.pc.id);
      OwnEscapes(cfg, db, tx, session, end, id);
    } else {
      assert PcOk(cfg, db.committed, tx);
      assert tx.pc.row.root in roots && !tx.pc.Marking?;
      OwnSession(cfg, db.committed, tx, tx.pc.id);
      id := child;
    }
  }

  /** RevokeSession, when it gets to its rows, revokes the session's lineages for good, however the
      rotations go on, if and only if nothing of the session was committed since its snapshot and
      nothing of it is in flight. */
  lemma RevokeSessionIff(cfg: Config, before: seq<Action>, ids: set<Id>, session: string, at: Time)
    requires ValidConfig(cfg)
    requires var db := Run(cfg, Init, before); Snapshot(db, ids, session) && Unlocked(db, ids)
    ensures var db := Run(cfg, Init, before);
            RevokesForGood(cfg, db, ids, session, at) <==> Complete(db, ids, session)
  {
    InitInv(cfg);
    RunKeeps(cfg, Init, before);
    EarlyWritesNothing(cfg, Init, before);
    var db := Run(cfg, Init, before);
    if Complete(db, ids, session) {
      forall after: seq<Action>
        ensures RevokedSince(db.committed, Run(cfg, RevokeSession(db, ids, at), after).committed, session)
      {
        CompleteRevokes(cfg, db, ids, session, at, after);
      }
    } else if forall u | u in db.txs :: Clear(RootsOf(db.committed, session), db.txs[u]) {
      var id :| id in db.committed && db.committed[id].session == session && db.committed[id].revokedAt.None? && id !in ids;
      RootIsInTable(cfg, db.committed, id);
      assert Escapes(db, Run(cfg, RevokeSession(db, ids, at), []).committed, session, id);
      assert !RevokedSince(db.committed, Run(cfg, RevokeSession(db, ids, at), []).committed, session);
    } else {
      var u :| u in db.txs && !Clear(RootsOf(db.committed, session), db.txs[u]);
      var after, id := Escape(cfg, db, ids, session, at, u);
      assert !RevokedSince(db.committed, Run(cfg, RevokeSession(db, ids, at), after).committed, session);
    }
  }
}
