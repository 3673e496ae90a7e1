/** Queue operations inside the caller's own nested scopes.

    A transaction may open savepoints around any number of operations and roll back to them: rows
    and locks are then those it had. Until it ends, a key it held at a savepoint is not free for
    others, although its latest rows no longer hold it. The invariants are those of the machine
    without scopes, in every world in which each transaction is where it is now or at one of its
    savepoints. */
module CommandScopes {
  import opened Options
  import opened CommandQueue
  import opened CommandInvariants
  import opened CommandTheorems

  /** What a rollback to the savepoint brings back. */
  datatype Point = Point(own: Table, locks: set<Id>, quotas: set<int>)

  datatype Scoped = Scoped(db: Db, saved: map<TxId, seq<Point>>)

  datatype ScopedAction = Op(op: Action) | OpenScope(t: TxId) | LeaveScope(t: TxId) | RollbackScope(t: TxId)

  const NoScopes := Scoped(Init, map[])

  function Points(s: Scoped, t: TxId): seq<Point> {
    if t in s.saved then s.saved[t] else []
  }

  function TxAt(p: Point): Tx {
    Tx(p.own, p.locks, p.quotas, Idle)
  }

  /** Another transaction held the key at one of its savepoints. */
  predicate KeySaved(s: Scoped, t: TxId, key: Option<Key>) {
    key.Some? && exists u, i | u in s.db.txs && u in s.saved && 0 <= i < |s.saved[u]| :: u != t && HeldAt(s, s.saved[u][i], key)
  }

  predicate HeldAt(s: Scoped, p: Point, key: Option<Key>) {
    exists id | id in p.own :: Occupies(s.db.rows, p.own, id, key)
  }

  function Performed(cfg: Config, s: Scoped, op: Action): Scoped {
    var db := Step(cfg, s.db, op);
    Scoped(db, map t | t in s.saved && t in db.txs :: s.saved[t])
  }

  function ScopedStep(cfg: Config, s: Scoped, a: ScopedAction): Scoped {
    match a
    case Op(op) => if op.Insert? && KeySaved(s, op.t, op.key) then s else Performed(cfg, s, op)
    case OpenScope(t) =>
      if t !in s.db.txs || !s.db.txs[t].pc.Idle? then s
      else
        var tx := s.db.txs[t];
        s.(saved := s.saved[t := Points(s, t) + [Point(tx.own, tx.locks, tx.quotas)]])
    case LeaveScope(t) =>
      var ps := Points(s, t);
      if t !in s.db.txs || !s.db.txs[t].pc.Idle? || ps == [] then s else s.(saved := s.saved[t := ps[..|ps| - 1]])
    case RollbackScope(t) =>
      var ps := Points(s, t);
      if t !in s.db.txs || ps == [] then s
      else Scoped(With(s.db, t, TxAt(ps[|ps| - 1])), s.saved[t := ps[..|ps| - 1]])
  }

  function ScopedRun(cfg: Config, s: Scoped, acts: seq<ScopedAction>): Scoped
    decreases |acts|
  {
    if acts == [] then s else ScopedRun(cfg, ScopedStep(cfg, s, acts[0]), acts[1..])
  }

  // ------------------------------------------------------------------
  // Worlds
  // ------------------------------------------------------------------

  /** Which savepoint each transaction is at; it is where it is now if it is at none. */
  type Choice = map<TxId, nat>

  ghost function At(s: Scoped, w: Choice, t: TxId): Tx
    requires t in s.db.txs
  {
    var ps := Points(s, t);
    if t in w && w[t] < |ps| then TxAt(ps[w[t]]) else s.db.txs[t]
  }

  ghost function World(s: Scoped, w: Choice): Db {
    Db(s.db.rows, map t | t in s.db.txs :: At(s, w, t))
  }

  /** Locks are only added, so a savepoint has no more of them than what follows it. */
  ghost predicate Nested(s: Scoped, t: TxId)
    requires t in s.db.txs
  {
    var ps, tx := Points(s, t), s.db.txs[t];
    && (forall i | 0 <= i < |ps| :: ps[i].locks <= tx.locks && ps[i].quotas <= tx.quotas)
    && (forall i, j | 0 <= i < j < |ps| :: ps[i].locks <= ps[j].locks && ps[i].quotas <= ps[j].quotas)
  }

  ghost predicate AllNested(s: Scoped) {
    s.saved.Keys <= s.db.txs.Keys && forall t | t in s.db.txs :: Nested(s, t)
  }

  lemma StepAddsLocks(cfg: Config, db: Db, op: Action, t: TxId)
    requires t in db.txs && t in Step(cfg, db, op).txs
    ensures var tx, tx' := db.txs[t], Step(cfg, db, op).txs[t]; tx.locks <= tx'.locks && tx.quotas <= tx'.quotas
  {
  }

  lemma StepNests(cfg: Config, s: Scoped, a: ScopedAction, t: TxId)
    requires AllNested(s) && t in ScopedStep(cfg, s, a).db.txs
    ensures Nested(ScopedStep(cfg, s, a), t)
  {
    if t in s.db.txs {
      assert Nested(s, t);
      if a.Op? {
        if ScopedStep(cfg, s, a) != s {
          StepAddsLocks(cfg, s.db, a.op, t);
        }
      }
    }
  }

  // ------------------------------------------------------------------
  // A step in a world
  // ------------------------------------------------------------------

  /** Nothing makes the transaction wait in `other` that does not in `db`. */
  ghost predicate Freer(cfg: Config, db: Db, other: Db, t: TxId) {
    && (forall id :: LockedByOther(other, t, id) ==> LockedByOther(db, t, id))
    && (forall k :: QuotaByOther(cfg, other, t, k) ==> QuotaByOther(cfg, db, t, k))
  }

  /** A statement that does not wait does the same to its transaction wherever the others are. */
  lemma SameStep(cfg: Config, db: Db, other: Db, op: Action)
    requires op.t in db.txs && op.t in other.txs && db.rows == other.rows && db.txs[op.t] == other.txs[op.t]
    requires !op.Begin? && !op.Commit? && !op.Rollback?
    requires Freer(cfg, db, other, op.t) && (op.Insert? && KeyByOther(other, op.t, op.key) ==> KeyByOther(db, op.t, op.key))
    ensures var db' := Step(cfg, db, op);
            db' == db || (op.t in db'.txs && db' == With(db, op.t, db'.txs[op.t]) && Step(cfg, other, op) == With(other, op.t, db'.txs[op.t]))
  {
  }

  lemma WorldIsFreer(cfg: Config, s: Scoped, w: Choice, t: TxId)
    requires AllNested(s)
    ensures Freer(cfg, s.db, World(s, w), t)
  {
    var world := World(s, w);
    forall u | u in s.db.txs ensures Rows(world.txs[u]) <= Rows(s.db.txs[u]) && Quotas(cfg, world.txs[u]) <= Quotas(cfg, s.db.txs[u]) {
      assert Nested(s, u);
    }
  }

  lemma WorldFreesNoKey(s: Scoped, w: Choice, t: TxId, key: Option<Key>)
    requires !KeySaved(s, t, key) && KeyByOther(World(s, w), t, key)
    ensures KeyByOther(s.db, t, key)
  {
    var world := World(s, w);
    var u :| u in world.txs && u != t && exists id | id in Overlay(world.txs[u]) :: Occupies(s.db.rows, Overlay(world.txs[u]), id, key);
    if u in w && w[u] < |Points(s, u)| {
      assert HeldAt(s, s.saved[u][w[u]], key);
      assert false;
    }
  }

  /** The transaction is where it is now. */
  ghost predicate Present(s: Scoped, w: Choice, t: TxId) {
    t !in w || w[t] >= |Points(s, t)|
  }

  lemma StepIsOwn(cfg: Config, db: Db, op: Action)
    requires op.t in db.txs && !op.Begin? && !op.Commit? && !op.Rollback?
    ensures var db' := Step(cfg, db, op); op.t in db'.txs && db' == With(db, op.t, db'.txs[op.t])
  {
  }

  /** A statement changes its transaction and leaves the savepoints. */
  lemma OpKeepsPoints(cfg: Config, s: Scoped, op: Action) returns (tx: Tx)
    requires AllNested(s) && op.t in s.db.txs && !op.Begin? && !op.Commit? && !op.Rollback?
    ensures op.t in Step(cfg, s.db, op).txs && tx == Step(cfg, s.db, op).txs[op.t]
    ensures Performed(cfg, s, op) == Scoped(With(s.db, op.t, tx), s.saved)
  {
    StepIsOwn(cfg, s.db, op);
    tx := Step(cfg, s.db, op).txs[op.t];
    assert Performed(cfg, s, op).saved == s.saved;
  }

  lemma WorldIs(s: Scoped, w: Choice, db: Db)
    requires db.rows == s.db.rows && db.txs.Keys == s.db.txs.Keys
    requires forall u | u in s.db.txs :: At(s, w, u) == db.txs[u]
    ensures World(s, w) == db
  {
    assert World(s, w).txs == db.txs;
  }

  lemma WorldWith(s: Scoped, w: Choice, t: TxId, tx: Tx)
    requires t in s.db.txs
    ensures World(Scoped(With(s.db, t, tx), s.saved), w) == if Present(s, w, t) then With(World(s, w), t, tx) else World(s, w)
  {
    var s' := Scoped(With(s.db, t, tx), s.saved);
    assert Points(s', t) == Points(s, t);
    if Present(s, w, t) {
      WorldIs(s', w, With(World(s, w), t, tx));
    } else {
      WorldIs(s', w, World(s, w));
    }
  }

  lemma OpInWorld(cfg: Config, s: Scoped, op: Action, w: Choice)
    requires AllNested(s) && op.t in s.db.txs && Present(s, w, op.t) && !op.Begin? && !op.Commit? && !op.Rollback?
    requires op.Insert? ==> !KeySaved(s, op.t, op.key)
    ensures var world := World(Performed(cfg, s, op), w);
            world == World(s, w) || world == Step(cfg, World(s, w), op)
  {
    var tx := OpKeepsPoints(cfg, s, op);
    WorldIsFreer(cfg, s, w, op.t);
    if op.Insert? && KeyByOther(World(s, w), op.t, op.key) {
      WorldFreesNoKey(s, w, op.t, op.key);
    }
    SameStep(cfg, s.db, World(s, w), op);
    WorldWith(s, w, op.t, tx);
    if Step(cfg, s.db, op) == s.db {
      assert With(World(s, w), op.t, tx).txs == World(s, w).txs;
    }
  }

  /** A transaction at a savepoint is not where the statement is executed. */
  lemma OpElsewhere(cfg: Config, s: Scoped, op: Action, w: Choice)
    requires AllNested(s) && op.t in s.db.txs && !Present(s, w, op.t) && !op.Begin? && !op.Commit? && !op.Rollback?
    ensures World(Performed(cfg, s, op), w) == World(s, w)
  {
    var tx := OpKeepsPoints(cfg, s, op);
    WorldWith(s, w, op.t, tx);
  }

  lemma BeginInWorld(cfg: Config, s: Scoped, t: TxId, w: Choice)
    requires AllNested(s)
    ensures World(Performed(cfg, s, Begin(t)), w) == Step(cfg, World(s, w), Begin(t))
  {
    var s' := Performed(cfg, s, Begin(t));
    assert s'.saved == s.saved;
    if t !in s.db.txs {
      assert Points(s', t) == [];
      WorldIs(s', w, With(World(s, w), t, Tx(map[], {}, {}, Idle)));
    }
  }

  /** The end of a transaction happens in every world. */
  lemma EndInWorld(cfg: Config, s: Scoped, op: Action, w: Choice)
    requires AllNested(s) && op.t in s.db.txs && Present(s, w, op.t)
    requires (op.Commit? && s.db.txs[op.t].pc.Idle?) || op.Rollback?
    ensures World(Performed(cfg, s, op), w) == Step(cfg, World(s, w), op)
  {
    var s', world := Performed(cfg, s, op), World(s, w);
    EndRemoves(cfg, s, op);
    assert world.txs[op.t] == s.db.txs[op.t];
    WorldIs(s', w, Step(cfg, world, op));
  }

  lemma EndRemoves(cfg: Config, s: Scoped, op: Action)
    requires op.t in s.db.txs && ((op.Commit? && s.db.txs[op.t].pc.Idle?) || op.Rollback?)
    ensures var s' := Performed(cfg, s, op);
            s'.db.txs == s.db.txs - {op.t} && forall u | u in s'.db.txs :: s'.db.txs[u] == s.db.txs[u] && Points(s', u) == Points(s, u)
  {
  }

  /** Every world after a step is a world before it, or such a world after the step's statement. */
  lemma WorldSteps(cfg: Config, s: Scoped, a: ScopedAction, w: Choice) returns (v: Choice, stepped: bool)
    requires AllNested(s)
    ensures stepped ==> a.Op?
    ensures World(ScopedStep(cfg, s, a), w) == if stepped then Step(cfg, World(s, v), a.op) else World(s, v)
  {
    v, stepped := w, false;
    var s' := ScopedStep(cfg, s, a);
    if s' != s {
      match a
      case Op(op) => v, stepped := OpSteps(cfg, s, op, w);
      case OpenScope(t) => v := ScopeOpens(cfg, s, t, w);
      case LeaveScope(t) => v := ScopeEnds(cfg, s, t, w);
      case RollbackScope(t) => v := ScopeIsRolledBack(cfg, s, t, w);
    }
  }

  lemma OpSteps(cfg: Config, s: Scoped, op: Action, w: Choice) returns (v: Choice, stepped: bool)
    requires AllNested(s) && (op.Insert? ==> !KeySaved(s, op.t, op.key))
    ensures World(Performed(cfg, s, op), w) == if stepped then Step(cfg, World(s, v), op) else World(s, v)
  {
    v, stepped := w, false;
    if op.t !in s.db.txs && !op.Begin? {
      assert Performed(cfg, s, op).saved == s.saved;
    } else if op.Begin? {
      stepped := true;
      BeginInWorld(cfg, s, op.t, w);
    } else if op.Commit? && !s.db.txs[op.t].pc.Idle? {
      assert Performed(cfg, s, op).saved == s.saved;
    } else if op.Commit? || op.Rollback? {
      v, stepped := w - {op.t}, true;
      EndInWorld(cfg, s, op, v);
      EndsAlike(cfg, s, op, w);
    } else if Present(s, w, op.t) {
      OpInWorld(cfg, s, op, w);
      stepped := World(Performed(cfg, s, op), w) != World(s, w);
    } else {
      OpElsewhere(cfg, s, op, w);
    }
  }

  /** Where a transaction was does not matter when it is over. */
  lemma EndsAlike(cfg: Config, s: Scoped, op: Action, w: Choice)
    requires AllNested(s) && op.t in s.db.txs && ((op.Commit? && s.db.txs[op.t].pc.Idle?) || op.Rollback?)
    ensures World(Performed(cfg, s, op), w) == World(Performed(cfg, s, op), w - {op.t})
  {
    var s' := Performed(cfg, s, op);
    EndRemoves(cfg, s, op);
    WorldIs(s', w, World(s', w - {op.t}));
  }

  lemma ScopeOpens(cfg: Config, s: Scoped, t: TxId, w: Choice) returns (v: Choice)
    requires t in s.db.txs && s.db.txs[t].pc.Idle?
    ensures World(ScopedStep(cfg, s, OpenScope(t)), w) == World(s, v)
  {
    v := if t in w && w[t] == |Points(s, t)| then w - {t} else w;
    assert World(ScopedStep(cfg, s, OpenScope(t)), w).txs == World(s, v).txs;
  }

  lemma ScopeEnds(cfg: Config, s: Scoped, t: TxId, w: Choice) returns (v: Choice)
    requires t in s.db.txs && s.db.txs[t].pc.Idle? && Points(s, t) != []
    ensures World(ScopedStep(cfg, s, LeaveScope(t)), w) == World(s, v)
  {
    v := if t in w && w[t] == |Points(s, t)| - 1 then w - {t} else w;
    assert World(ScopedStep(cfg, s, LeaveScope(t)), w).txs == World(s, v).txs;
  }

  lemma ScopeIsRolledBack(cfg: Config, s: Scoped, t: TxId, w: Choice) returns (v: Choice)
    requires t in s.db.txs && Points(s, t) != []
    ensures World(ScopedStep(cfg, s, RollbackScope(t)), w) == World(s, v)
  {
    var last := |Points(s, t)| - 1;
    v := if t in w && w[t] < last then w else w[t := last];
    assert World(ScopedStep(cfg, s, RollbackScope(t)), w).txs == World(s, v).txs;
  }

  // ------------------------------------------------------------------
  // In every world of every run
  // ------------------------------------------------------------------

  ghost predicate ScopedInv(cfg: Config, s: Scoped) {
    AllNested(s) && forall w: Choice :: Inv(cfg, World(s, w))
  }

  lemma StepSound(cfg: Config, s: Scoped, a: ScopedAction)
    requires ScopedInv(cfg, s)
    ensures ScopedInv(cfg, ScopedStep(cfg, s, a))
  {
    var s' := ScopedStep(cfg, s, a);
    forall t | t in s'.db.txs ensures Nested(s', t) {
      StepNests(cfg, s, a, t);
    }
    forall w: Choice ensures Inv(cfg, World(s', w)) {
      var v, stepped := WorldSteps(cfg, s, a, w);
      if stepped {
        StepKeeps(cfg, World(s, v), a.op);
      }
    }
  }

  ghost predicate ScopedCapped(cfg: Config, s: Scoped, d: Device, k: nat) {
    forall w: Choice :: Capped(cfg, World(s, w), d, k)
  }

  lemma ScopedStepCapped(cfg: Config, s: Scoped, a: ScopedAction, d: Device, k: nat)
    requires ScopedInv(cfg, s) && ScopedCapped(cfg, s, d, k) && (a.Op? ==> EnqueuesCapped(a.op, d, k))
    ensures ScopedCapped(cfg, ScopedStep(cfg, s, a), d, k)
  {
    forall w: Choice ensures Capped(cfg, World(ScopedStep(cfg, s, a), w), d, k) {
      var v, stepped := WorldSteps(cfg, s, a, w);
      if stepped {
        StepCapped(cfg, World(s, v), a.op, d, k);
      }
    }
  }

  lemma ScopedStepFollows(cfg: Config, s: Scoped, a: ScopedAction)
    requires ScopedInv(cfg, s)
    ensures Follows(s.db.rows, ScopedStep(cfg, s, a).db.rows)
  {
    var v, stepped := WorldSteps(cfg, s, a, map[]);
    assert World(ScopedStep(cfg, s, a), map[]).rows == ScopedStep(cfg, s, a).db.rows && World(s, v).rows == s.db.rows;
    if stepped {
      StepFollows(cfg, World(s, v), a.op);
    }
  }

  lemma InitSound(cfg: Config, d: Device, k: nat)
    ensures ScopedInv(cfg, NoScopes) && ScopedCapped(cfg, NoScopes, d, k)
  {
    InitInv(cfg);
    forall w: Choice ensures World(NoScopes, w) == Init {
      assert World(NoScopes, w).txs == map[];
    }
    assert PendingOf(Init.rows, d) == {};
  }

  lemma {:induction false} ScopedRunSound(cfg: Config, s: Scoped, acts: seq<ScopedAction>)
    requires ScopedInv(cfg, s)
    ensures ScopedInv(cfg, ScopedRun(cfg, s, acts)) && Follows(s.db.rows, ScopedRun(cfg, s, acts).db.rows)
    decreases |acts|
  {
    if acts != [] {
      var next := ScopedStep(cfg, s, acts[0]);
      StepSound(cfg, s, acts[0]);
      ScopedStepFollows(cfg, s, acts[0]);
      ScopedRunSound(cfg, next, acts[1..]);
      FollowsOnward(s.db.rows, next.db.rows, ScopedRun(cfg, s, acts).db.rows);
    }
  }

  lemma {:induction false} ScopedRunCapped(cfg: Config, s: Scoped, acts: seq<ScopedAction>, d: Device, k: nat)
    requires ScopedInv(cfg, s) && ScopedCapped(cfg, s, d, k)
    requires forall i | 0 <= i < |acts| :: acts[i].Op? ==> EnqueuesCapped(acts[i].op, d, k)
    ensures ScopedCapped(cfg, ScopedRun(cfg, s, acts), d, k)
    decreases |acts|
  {
    if acts != [] {
      StepSound(cfg, s, acts[0]);
      ScopedStepCapped(cfg, s, acts[0], d, k);
      ScopedRunCapped(cfg, ScopedStep(cfg, s, acts[0]), acts[1..], d, k);
    }
  }

  /** The cap holds however the callers nest their scopes and roll them back. */
  lemma CapHoldsWithScopes(cfg: Config, acts: seq<ScopedAction>, d: Device, k: nat)
    requires forall i | 0 <= i < |acts| :: acts[i].Op? ==> EnqueuesCapped(acts[i].op, d, k)
    ensures |PendingOf(ScopedRun(cfg, NoScopes, acts).db.rows, d)| <= k
  {
    InitSound(cfg, d, k);
    ScopedRunCapped(cfg, NoScopes, acts, d, k);
    assert Capped(cfg, World(ScopedRun(cfg, NoScopes, acts), map[]), d, k);
  }

  /** So do the lease rule and the uniqueness of keys, among the committed rows and in what any
      transaction sees, now and after a rollback to any of its savepoints. */
  lemma KeysUniqueWithScopes(cfg: Config, acts: seq<ScopedAction>, w: Choice, t: TxId, i: Id, j: Id)
    requires var s := ScopedRun(cfg, NoScopes, acts);
             t in s.db.txs && var seen := s.db.rows + Overlay(At(s, w, t)); i in seen && j in seen
    ensures var s := ScopedRun(cfg, NoScopes, acts);
            var seen := s.db.rows + Overlay(At(s, w, t));
            && (seen[i].lease.Some? <==> seen[i].status.Sent? || seen[i].status.Delivered?)
            && (i != j && seen[i].key.Some? && seen[i].key == seen[j].key ==> Terminal(seen[i].status) || Terminal(seen[j].status))
  {
    InitSound(cfg, 0, 0);
    ScopedRunSound(cfg, NoScopes, acts);
    var s := ScopedRun(cfg, NoScopes, acts);
    assert Inv(cfg, World(s, w)) && World(s, w).txs[t] == At(s, w, t);
    var seen := s.db.rows + Overlay(At(s, w, t));
    assert i != j ==> !Clash(seen[i], seen[j]);
  }

  /** And committed commands move only along the status table and never again once terminal. */
  lemma RowsFollowWithScopes(cfg: Config, before: seq<ScopedAction>, after: seq<ScopedAction>)
    ensures var s := ScopedRun(cfg, NoScopes, before); Follows(s.db.rows, ScopedRun(cfg, s, after).db.rows)
  {
    InitSound(cfg, 0, 0);
    ScopedRunSound(cfg, NoScopes, before);
    ScopedRunSound(cfg, ScopedRun(cfg, NoScopes, before), after);
  }

  // ------------------------------------------------------------------
  // A rollback brings back what the scope found
  // ------------------------------------------------------------------

  /** The transaction stays inside its first `n` scopes. */
  ghost predicate StaysInside(cfg: Config, s: Scoped, acts: seq<ScopedAction>, t: TxId, n: nat)
    decreases |acts|
  {
    && t in s.db.txs && |Points(s, t)| >= n
    && (acts == [] || StaysInside(cfg, ScopedStep(cfg, s, acts[0]), acts[1..], t, n))
  }

  lemma StepKeepsPoints(cfg: Config, s: Scoped, a: ScopedAction, t: TxId, n: nat)
    requires t in s.db.txs && |Points(s, t)| >= n
    requires t in ScopedStep(cfg, s, a).db.txs && |Points(ScopedStep(cfg, s, a), t)| >= n
    ensures Points(ScopedStep(cfg, s, a), t)[..n] == Points(s, t)[..n]
  {
  }

  lemma {:induction false} RunKeepsPoints(cfg: Config, s: Scoped, acts: seq<ScopedAction>, t: TxId, n: nat)
    requires StaysInside(cfg, s, acts, t, n)
    ensures var end := ScopedRun(cfg, s, acts); t in end.db.txs && |Points(end, t)| >= n && Points(end, t)[..n] == Points(s, t)[..n]
    decreases |acts|
  {
    if acts != [] {
      var next := ScopedStep(cfg, s, acts[0]);
      assert StaysInside(cfg, next, acts[1..], t, n);
      StepKeepsPoints(cfg, s, acts[0], t, n);
      RunKeepsPoints(cfg, next, acts[1..], t, n);
    }
  }

  /** Whatever the transaction and the others do inside a scope: when it is rolled back the
      transaction has the rows and the locks it had when it opened it, and no others. */
  lemma RollbackRestores(cfg: Config, s: Scoped, acts: seq<ScopedAction>, t: TxId)
    requires t in s.db.txs && s.db.txs[t].pc.Idle?
    requires var inside := ScopedStep(cfg, s, OpenScope(t));
             && StaysInside(cfg, inside, acts, t, |Points(s, t)| + 1)
             && |Points(ScopedRun(cfg, inside, acts), t)| == |Points(s, t)| + 1
    ensures var end := ScopedStep(cfg, ScopedRun(cfg, ScopedStep(cfg, s, OpenScope(t)), acts), RollbackScope(t));
            t in end.db.txs && end.db.txs[t] == s.db.txs[t] && Points(end, t) == Points(s, t)
  {
    var inside, n := ScopedStep(cfg, s, OpenScope(t)), |Points(s, t)| + 1;
    RunKeepsPoints(cfg, inside, acts, t, n);
    var last := ScopedRun(cfg, inside, acts);
    assert Points(last, t) == Points(last, t)[..n] && Points(inside, t)[..n] == Points(inside, t);
  }

  /** Leaving a scope keeps what was done in it. */
  lemma LeaveKeeps(cfg: Config, s: Scoped, t: TxId)
    requires t in s.db.txs && s.db.txs[t].pc.Idle? && Points(s, t) != []
    ensures var end := ScopedStep(cfg, s, LeaveScope(t)); end.db == s.db && Points(end, t) == Points(s, t)[..|Points(s, t)| - 1]
  {
  }

  /** No command of the savepoint has the key and is under way, there or in what is committed. */
  ghost predicate Released(rows: Table, p: Point, key: Key) {
    forall x | x in p.own && p.own[x].key == Some(key) :: Terminal(p.own[x].status) && (x in rows ==> Terminal(rows[x].status))
  }

  /** Savepoints hold up nothing but the insert of a key that another transaction had at one of its own. */
  lemma OnlySavedKeysWait(cfg: Config, s: Scoped, op: Action)
    requires op.Insert? && op.key.Some? ==>
               forall u, i | u in s.db.txs && u != op.t && 0 <= i < |Points(s, u)| :: Released(s.db.rows, Points(s, u)[i], op.key.value)
    ensures var s' := ScopedStep(cfg, s, Op(op)); s'.db == Step(cfg, s.db, op) && forall t | t in s'.db.txs :: Points(s', t) == Points(s, t)
  {
    if op.Insert? && op.key.Some? {
      forall u, i | u in s.db.txs && u != op.t && u in s.saved && 0 <= i < |s.saved[u]| ensures !HeldAt(s, s.saved[u][i], op.key) {
        assert Released(s.db.rows, Points(s, u)[i], op.key.value);
      }
    }
  }

  function Ops(acts: seq<Action>): seq<ScopedAction> {
    seq(|acts|, i requires 0 <= i < |acts| => Op(acts[i]))
  }

  /** Without scopes of the callers this is the machine of the single operations. */
  lemma {:induction false} WithoutScopes(cfg: Config, db: Db, acts: seq<Action>)
    ensures ScopedRun(cfg, Scoped(db, map[]), Ops(acts)) == Scoped(Run(cfg, db, acts), map[])
    decreases |acts|
  {
    if acts != [] {
      var s, next := Scoped(db, map[]), Step(cfg, db, acts[0]);
      assert ScopedStep(cfg, s, Op(acts[0])) == Scoped(next, map[]) by {
        assert Performed(cfg, s, acts[0]).saved == map[];
      }
      assert Ops(acts)[1..] == Ops(acts[1..]);
      WithoutScopes(cfg, next, acts[1..]);
    }
  }
}
