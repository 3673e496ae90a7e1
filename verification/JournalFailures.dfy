/** Which runs keep outbox and journal in step, read off the steps alone: what matters is that every
    call that fails on the Go side, after it has written a projection row the journal does not know,
    is undone by a rollback of a scope around it or of its transaction. */
module JournalFailures {
  import opened Journal

  /** The step takes effect on a live transaction. */
  predicate Acts(db: Db, a: Action) {
    a.t in db.txs && !db.txs[a.t].aborted
  }

  /** A call fails on the Go side with a projection row in the outbox that is in no journal. */
  predicate LeavesGap(topics: set<Topic>, db: Db, a: Action) {
    a.GoFails? && Acts(db, a) && db.txs[a.t].call.Calling? && |Unjournaled(topics, db, db.txs[a.t])| > 0
  }

  /** What the transaction `t` has just done, inside `level` open scopes, is committed: it is not
      undone by the rollback of one of them or of the transaction. */
  predicate Commits(topics: set<Topic>, db: Db, acts: seq<Action>, t: TxId, level: nat)
    decreases |acts|
  {
    if acts == [] || t !in db.txs then false
    else
      var a, tx, next := acts[0], db.txs[t], Step(topics, db, acts[0]);
      if a.t != t then Commits(topics, next, acts[1..], t, level)
      else if a.RollbackScope? then
        (tx.scopes == [] || |tx.scopes| != level) && Commits(topics, next, acts[1..], t, level)
      else if a.LeaveScope? then
        // what was done in the scope belongs to the enclosing one
        Commits(topics, next, acts[1..], t, if level <= |next.txs[t].scopes| then level else |next.txs[t].scopes|)
      else if a.Commit? && !tx.aborted && tx.call.NoCall? then true
      else Commits(topics, next, acts[1..], t, level)
  }

  /** The k-th step leaves a gap, and its work is committed. */
  predicate GapCommitted(topics: set<Topic>, db: Db, acts: seq<Action>, k: nat)
    requires k < |acts|
  {
    var before := Run(topics, db, acts[..k]);
    && LeavesGap(topics, before, acts[k])
    && Commits(topics, Step(topics, before, acts[k]), acts[k + 1..], acts[k].t, |before.txs[acts[k].t].scopes|)
  }

  // ------------------------------------------------------------------
  // A committed gap is swallowed
  // ------------------------------------------------------------------

  /** The stray is in the view, and in every scope from `level` on. */
  ghost predicate Carries(tx: Tx, id: Id, level: nat) {
    && level <= |tx.scopes| && id in tx.now.strays
    && forall j | level <= j < |tx.scopes| :: id in tx.scopes[j].strays
  }

  lemma StepCarries(topics: set<Topic>, db: Db, a: Action, t: TxId, id: Id, level: nat)
    requires t in db.txs && Carries(db.txs[t], id, level) && t in Step(topics, db, a).txs
    requires a.t == t && a.RollbackScope? ==> db.txs[t].scopes == [] || |db.txs[t].scopes| != level
    ensures var tx := Step(topics, db, a).txs[t];
            Carries(tx, id, if level <= |tx.scopes| then level else |tx.scopes|)
    ensures !(a.t == t && a.LeaveScope?) ==> level <= |Step(topics, db, a).txs[t].scopes|
  {
  }

  lemma {:induction false} CommittedIsSwallowed(topics: set<Topic>, db: Db, acts: seq<Action>, t: TxId, id: Id, level: nat)
    requires t in db.txs && Carries(db.txs[t], id, level) && Commits(topics, db, acts, t, level)
    ensures id in Run(topics, db, acts).swallowed
    decreases |acts|
  {
    var a, next := acts[0], Step(topics, db, acts[0]);
    if a.t == t && a.Commit? && !db.txs[t].aborted && db.txs[t].call.NoCall? {
      SwallowedStays(topics, next, acts[1..]);
    } else {
      assert t in next.txs;
      StepCarries(topics, db, a, t, id, level);
      var tx := next.txs[t];
      CommittedIsSwallowed(topics, next, acts[1..], t, id, if level <= |tx.scopes| then level else |tx.scopes|);
    }
  }

  // ------------------------------------------------------------------
  // What is swallowed was a committed gap
  // ------------------------------------------------------------------

  /** Scopes have the strays of the scopes around them. */
  ghost predicate Nested(tx: Tx) {
    && (forall i, j | 0 <= i < j < |tx.scopes| :: tx.scopes[i].strays <= tx.scopes[j].strays)
    && (forall i | 0 <= i < |tx.scopes| :: tx.scopes[i].strays <= tx.now.strays)
  }

  ghost predicate AllNested(db: Db) {
    forall t | t in db.txs :: Nested(db.txs[t])
  }

  lemma ScopesStay(topics: set<Topic>, db: Db, a: Action, t: TxId)
    requires t in db.txs && t in Step(topics, db, a).txs
    requires a.t == t ==> !a.OpenScope? && !a.LeaveScope? && !a.RollbackScope?
    ensures Step(topics, db, a).txs[t].scopes == db.txs[t].scopes && db.txs[t].now.strays <= Step(topics, db, a).txs[t].now.strays
  {
  }

  /** What the scope steps do to the stack and the view. */
  lemma ScopesMove(topics: set<Topic>, db: Db, a: Action)
    requires a.t in db.txs && (a.OpenScope? || a.LeaveScope? || a.RollbackScope?)
    ensures a.t in Step(topics, db, a).txs
    ensures var tx, next := db.txs[a.t], Step(topics, db, a).txs[a.t];
            || (next.scopes == tx.scopes && next.now == tx.now)
            || (a.OpenScope? && next.scopes == tx.scopes + [tx.now] && next.now == tx.now)
            || (!a.OpenScope? && tx.scopes != [] && next.scopes == tx.scopes[..|tx.scopes| - 1]
                && next.now == if a.RollbackScope? then tx.scopes[|tx.scopes| - 1] else tx.now)
    ensures a.RollbackScope? && db.txs[a.t].scopes != [] ==> Step(topics, db, a).txs[a.t].scopes != db.txs[a.t].scopes
  {
  }

  lemma StepNests(topics: set<Topic>, db: Db, a: Action, t: TxId)
    requires AllNested(db) && t in Step(topics, db, a).txs
    ensures Nested(Step(topics, db, a).txs[t])
  {
    if t in db.txs {
      assert Nested(db.txs[t]);
      if a.t != t || !(a.OpenScope? || a.LeaveScope? || a.RollbackScope?) {
        ScopesStay(topics, db, a, t);
      } else {
        ScopesMove(topics, db, a);
      }
    }
  }

  /** The number of open scopes around the failure that left the stray. */
  function Level(scopes: seq<View>, id: Id): (level: nat)
    ensures level <= |scopes|
  {
    if scopes == [] then 0
    else if id in scopes[|scopes| - 1].strays then Level(scopes[..|scopes| - 1], id)
    else |scopes|
  }

  lemma LevelOpen(scopes: seq<View>, v: View, id: Id)
    requires id in v.strays
    ensures Level(scopes + [v], id) == Level(scopes, id)
  {
    assert (scopes + [v])[..|scopes|] == scopes;
  }

  /** The stray is the transaction's and will be committed. */
  ghost predicate Doomed(topics: set<Topic>, db: Db, acts: seq<Action>, t: TxId, id: Id) {
    t in db.txs && id in db.txs[t].now.strays && Commits(topics, db, acts, t, Level(db.txs[t].scopes, id))
  }

  /** The step that leaves the gap. */
  lemma GapBegins(topics: set<Topic>, db: Db, a: Action, t: TxId, id: Id)
    requires AllNested(db) && t in Step(topics, db, a).txs && id in Step(topics, db, a).txs[t].now.strays
    requires t !in db.txs || id !in db.txs[t].now.strays
    ensures a.t == t && LeavesGap(topics, db, a)
    ensures Step(topics, db, a).txs[t].scopes == db.txs[t].scopes && Level(db.txs[t].scopes, id) == |db.txs[t].scopes|
  {
    assert t in db.txs ==> Nested(db.txs[t]);
    assert a.t == t && a.GoFails? && Acts(db, a) && db.txs[t].call.Calling?;
    assert id in Unjournaled(topics, db, db.txs[t]);
  }

  lemma LevelShrinks(tx: Tx, id: Id)
    requires Nested(tx) && tx.scopes != []
    ensures var init := tx.scopes[..|tx.scopes| - 1];
            && (id in tx.scopes[|tx.scopes| - 1].strays ==> Level(tx.scopes, id) == Level(init, id) < |tx.scopes|)
            && Level(init, id) == if Level(tx.scopes, id) > |init| then |init| else Level(tx.scopes, id)
  {
  }

  /** A step after which the stray is still there: it was there before, at the level that Commits
      passes on. */
  lemma LevelMoves(topics: set<Topic>, db: Db, a: Action, t: TxId, id: Id)
    requires t in db.txs && Nested(db.txs[t]) && id in db.txs[t].now.strays
    requires t in Step(topics, db, a).txs && id in Step(topics, db, a).txs[t].now.strays
    ensures var scopes, next := db.txs[t].scopes, Step(topics, db, a).txs[t].scopes;
            var level := Level(scopes, id);
            && (a.t == t && a.RollbackScope? ==> scopes == [] || |scopes| != level)
            && Level(next, id) == if a.t == t && a.LeaveScope? && level > |next| then |next| else level
  {
    var tx := db.txs[t];
    if a.t != t || !(a.OpenScope? || a.LeaveScope? || a.RollbackScope?) {
      ScopesStay(topics, db, a, t);
    } else {
      ScopesMove(topics, db, a);
      LevelOpen(tx.scopes, tx.now, id);
      if tx.scopes != [] {
        LevelShrinks(tx, id);
      }
    }
  }

  lemma StillDoomed(topics: set<Topic>, db: Db, acts: seq<Action>, t: TxId, id: Id)
    requires AllNested(db) && acts != [] && Doomed(topics, Step(topics, db, acts[0]), acts[1..], t, id)
    requires t in db.txs && id in db.txs[t].now.strays
    ensures Doomed(topics, db, acts, t, id)
  {
    LevelMoves(topics, db, acts[0], t, id);
  }

  ghost predicate SomeGapCommitted(topics: set<Topic>, db: Db, acts: seq<Action>) {
    exists k | 0 <= k < |acts| :: GapCommitted(topics, db, acts, k)
  }

  lemma LaterGap(topics: set<Topic>, db: Db, acts: seq<Action>)
    requires acts != [] && SomeGapCommitted(topics, Step(topics, db, acts[0]), acts[1..])
    ensures SomeGapCommitted(topics, db, acts)
  {
    var next, rest := Step(topics, db, acts[0]), acts[1..];
    var k :| 0 <= k < |rest| && GapCommitted(topics, next, rest, k);
    assert acts[..k + 1][1..] == rest[..k] && acts[k + 2..] == rest[k + 1..];
    assert Run(topics, db, acts[..k + 1]) == Run(topics, next, rest[..k]);
    assert GapCommitted(topics, db, acts, k + 1);
  }

  lemma FirstGap(topics: set<Topic>, db: Db, acts: seq<Action>, t: TxId, id: Id)
    requires AllNested(db) && acts != [] && Doomed(topics, Step(topics, db, acts[0]), acts[1..], t, id)
    requires t !in db.txs || id !in db.txs[t].now.strays
    ensures SomeGapCommitted(topics, db, acts)
  {
    GapBegins(topics, db, acts[0], t, id);
    assert acts[..0] == [];
    assert GapCommitted(topics, db, acts, 0);
  }

  lemma {:induction false} SwallowedWasCommitted(topics: set<Topic>, db: Db, acts: seq<Action>, id: Id) returns (t: TxId)
    requires AllNested(db) && id in Run(topics, db, acts).swallowed && id !in db.swallowed
    ensures SomeGapCommitted(topics, db, acts) || Doomed(topics, db, acts, t, id)
    decreases |acts|
  {
    var next := Step(topics, db, acts[0]);
    t := acts[0].t;
    if id !in next.swallowed {
      forall u | u in next.txs ensures Nested(next.txs[u]) {
        StepNests(topics, db, acts[0], u);
      }
      t := SwallowedWasCommitted(topics, next, acts[1..], id);
      if SomeGapCommitted(topics, next, acts[1..]) {
        LaterGap(topics, db, acts);
      } else if t in db.txs && id in db.txs[t].now.strays {
        StillDoomed(topics, db, acts, t, id);
      } else {
        FirstGap(topics, db, acts, t, id);
      }
    }
  }

  // ------------------------------------------------------------------
  // Over every run
  // ------------------------------------------------------------------

  lemma GapIsSwallowed(topics: set<Topic>, acts: seq<Action>, k: nat)
    requires k < |acts| && GapCommitted(topics, Init, acts, k)
    ensures Run(topics, Init, acts).swallowed != {}
  {
    var before, t := Run(topics, Init, acts[..k]), acts[k].t;
    var next := Step(topics, before, acts[k]);
    var id :| id in Unjournaled(topics, before, before.txs[t]);
    CommittedIsSwallowed(topics, next, acts[k + 1..], t, id, |before.txs[t].scopes|);
    RunAround(topics, Init, acts, k);
  }

  lemma {:induction false} RunAround(topics: set<Topic>, db: Db, acts: seq<Action>, k: nat)
    requires k < |acts|
    ensures Run(topics, db, acts) == Run(topics, Step(topics, Run(topics, db, acts[..k]), acts[k]), acts[k + 1..])
    decreases k
  {
    if k == 0 {
      assert acts[..0] == [];
    } else {
      RunAround(topics, Step(topics, db, acts[0]), acts[1..], k - 1);
      assert acts[..k][1..] == acts[1..][..k - 1] && acts[1..][k..] == acts[k + 1..];
    }
  }

  /** In every state of a run every committed outbox row on a projection topic has its journal row
      if and only if every call that failed on the Go side, with a projection row written that the
      journal did not know, was undone: by the rollback of a scope around it or of its transaction. */
  lemma JournaledIffGapsUndone(topics: set<Topic>, acts: seq<Action>)
    ensures AlwaysJournaled(topics, Init, acts) <==> !SomeGapCommitted(topics, Init, acts)
  {
    JournaledIffNothingSwallowed(topics, acts);
    if SomeGapCommitted(topics, Init, acts) {
      var k :| 0 <= k < |acts| && GapCommitted(topics, Init, acts, k);
      GapIsSwallowed(topics, acts, k);
    }
    if Run(topics, Init, acts).swallowed != {} {
      var id :| id in Run(topics, Init, acts).swallowed;
      var t := SwallowedWasCommitted(topics, Init, acts, id);
    }
  }
}
