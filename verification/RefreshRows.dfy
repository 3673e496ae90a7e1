/** What may become of a committed row. */
module RefreshRows {
  import opened Options
  import opened RefreshTokens
  import opened RefreshInvariants
  import opened RefreshTheorems

  /** Rotation and first use are dated once, and uses are only added. */
  ghost predicate Later(r: Row, s: Row) {
    && (r.rotatedAt.Some? ==> s.rotatedAt == r.rotatedAt)
    && (r.firstUsedAt.Some? ==> s.firstUsedAt == r.firstUsedAt)
    && r.usedTimes <= s.usedTimes
  }

  ghost predicate AllLater(m: map<Id, Row>, n: map<Id, Row>) {
    forall id | id in m && id in n :: Later(m[id], n[id])
  }

  /** Every version in flight is a later one, and so is what a savepoint would restore. */
  ghost predicate Forward(committed: map<Id, Row>, tx: Tx) {
    AllLater(committed, tx.own) && (!tx.pc.Idle? ==> AllLater(committed, tx.saved))
  }

  ghost predicate AllForward(db: Db) {
    forall t | t in db.txs :: Forward(db.committed, db.txs[t])
  }

  /** The table after some steps: no row is lost or goes back, and a revocation keeps its date. */
  ghost predicate MovedOn(m: map<Id, Row>, n: map<Id, Row>) {
    forall id | id in m ::
      && id in n && Later(m[id], n[id])
      && (m[id].revokedAt.Some? ==> n[id].revokedAt == m[id].revokedAt)
  }

  lemma SeenIsLater(committed: map<Id, Row>, tx: Tx, id: Id)
    requires AllLater(committed, tx.own) && id in committed
    ensures Later(committed[id], Visible(committed, tx)[id])
  {
  }

  /** The transaction that takes the step. */
  lemma OwnStepForward(cfg: Config, db: Db, a: Action)
    requires a.t in db.txs && Forward(db.committed, db.txs[a.t]) && !a.Begin? && !a.Commit? && !a.Rollback? && !a.Cascade?
    ensures var db' := Step(cfg, db, a); a.t in db'.txs && db'.committed == db.committed && Forward(db.committed, db'.txs[a.t])
  {
    var tx := db.txs[a.t];
    if Holds(tx.pc) && tx.pc.id in db.committed {
      SeenIsLater(db.committed, tx, tx.pc.id);
    }
  }

  /** A commit of disjoint rows. */
  lemma CommitForward(committed: map<Id, Row>, own: map<Id, Row>, tx: Tx)
    requires Forward(committed, tx) && own.Keys !! tx.own.Keys && (!tx.pc.Idle? ==> tx.saved.Keys <= tx.own.Keys)
    ensures Forward(committed + own, tx)
  {
  }

  lemma RevokeForward(committed: map<Id, Row>, session: string, at: Time, tx: Tx)
    requires Forward(committed, tx)
    ensures Forward(Revoke(committed, session, at), tx)
  {
  }

  lemma StepForward(cfg: Config, db: Db, a: Action, u: TxId)
    requires AllForward(db) && u in Step(cfg, db, a).txs
    requires u in db.txs && !db.txs[u].pc.Idle? ==> db.txs[u].saved.Keys <= db.txs[u].own.Keys
    requires u in db.txs && a.t in db.txs && u != a.t ==> db.txs[a.t].own.Keys !! db.txs[u].own.Keys
    ensures Forward(Step(cfg, db, a).committed, Step(cfg, db, a).txs[u])
  {
    assert u in db.txs ==> Forward(db.committed, db.txs[u]);
    if a.t in db.txs && !a.Begin? && !a.Commit? && !a.Rollback? && !a.Cascade? {
      OwnStepForward(cfg, db, a);
    } else if a.Commit? && a.t in db.txs && u != a.t && db.txs[a.t].pc.Idle? {
      CommitForward(db.committed, db.txs[a.t].own, db.txs[u]);
    } else if a.Cascade? && a.t in db.txs && db.txs[a.t].pc.Cascading? {
      RevokeForward(db.committed, db.txs[a.t].pc.session, db.txs[a.t].pc.at, db.txs[u]);
    }
  }

  lemma StepMovesOn(cfg: Config, db: Db, a: Action)
    requires Inv(cfg, db) && AllForward(db)
    ensures MovedOn(db.committed, Step(cfg, db, a).committed)
  {
    if a.t in db.txs {
      if a.Commit? {
        assert Forward(db.committed, db.txs[a.t]);
        CommitMovesOn(cfg, db.committed, db.txs[a.t]);
      } else if !a.Begin? && !a.Cascade? && !a.Rollback? {
        StepIsOwn(cfg, db, a);
      }
    }
  }

  lemma CommitMovesOn(cfg: Config, committed: map<Id, Row>, tx: Tx)
    requires Local(cfg, committed, tx) && Forward(committed, tx)
    ensures MovedOn(committed, committed + tx.own)
  {
    forall id | id in committed && id in tx.own ensures OwnRowOk(cfg, committed, tx, id) {}
  }

  lemma {:induction false} RunMovesOn(cfg: Config, db: Db, acts: seq<Action>)
    requires ValidConfig(cfg) && Inv(cfg, db) && AllForward(db)
    ensures AllForward(Run(cfg, db, acts)) && MovedOn(db.committed, Run(cfg, db, acts).committed)
    decreases |acts|
  {
    if acts != [] {
      var next := Step(cfg, db, acts[0]);
      forall u | u in next.txs ensures Forward(next.committed, next.txs[u]) {
        assert u in db.txs && acts[0].t in db.txs && u != acts[0].t ==> Apart(db.txs[acts[0].t], db.txs[u]);
        StepForward(cfg, db, acts[0], u);
      }
      StepMovesOn(cfg, db, acts[0]);
      StepKeeps(cfg, db, acts[0]);
      RunMovesOn(cfg, next, acts[1..]);
    }
  }

  /** From every reachable state on, whatever happens: a committed row stays, keeps its place in
      its lineage, its verifier and its deadlines, keeps each date once it is set, and its use
      count never falls. */
  lemma RowsOnlyMoveForward(cfg: Config, before: seq<Action>, after: seq<Action>)
    requires ValidConfig(cfg)
    ensures var m := Run(cfg, Init, before).committed;
            var n := Run(cfg, Run(cfg, Init, before), after).committed;
            MovedOn(m, n) && Kept(m, n)
  {
    InitInv(cfg);
    RunKeeps(cfg, Init, before);
    RunMovesOn(cfg, Init, before);
    var db := Run(cfg, Init, before);
    RunMovesOn(cfg, db, after);
    RowsOnlyChangeFlags(cfg, db, after);
  }
}
