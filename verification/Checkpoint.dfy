/** The owner-fenced projection checkpoint, adapters/postgres/projection_checkpoint_store.go.

    AdvanceIfOwner is two statements, a read for update and a conditional write, which the
    statements of other callers separate. A caller works either inside an ambient transaction
    (READ COMMITTED; row locks last until it ends) or without one (every statement commits
    alone and keeps no lock). The committed versions of each row are kept in order. */
module Checkpoint {
  import opened Options

  type Key = nat
  type Caller = nat
  type Token = string

  datatype Row = Row(offset: int, owner: Token)

  /** A version of a row; `fenced` tells AdvanceIfOwner from SaveOffset. */
  datatype Version = Version(row: Row, fenced: bool)

  datatype Pc =
    | Idle
    | Ready(key: Key, token: Token, offset: int, seen: Option<Row>)  // the Go check passed
    | Done(accepted: bool)

  /** `own` holds the versions the transaction wrote, `held` the keys it has locked. */
  datatype Session = Session(inTx: bool, own: map<Key, seq<Version>>, held: set<Key>, pc: Pc)

  datatype Db = Db(history: map<Key, seq<Version>>, sessions: map<Caller, Session>)

  const Init := Db(map[], map[])

  datatype Action =
    | Begin(c: Caller)
    | Read(c: Caller, key: Key, token: Token, offset: int)
    | Write(c: Caller)
    | Save(c: Caller, key: Key, offset: int)
    | Commit(c: Caller)
    | Rollback(c: Caller)

  function Of(db: Db, c: Caller): Session {
    if c in db.sessions then db.sessions[c] else Session(false, map[], {}, Idle)
  }

  function Past(m: map<Key, seq<Version>>, key: Key): seq<Version> {
    if key in m then m[key] else []
  }

  function Newest(vs: seq<Version>): Option<Row> {
    if vs == [] then None else Some(vs[|vs| - 1].row)
  }

  function Committed(db: Db, key: Key): Option<Row> {
    Newest(Past(db.history, key))
  }

  /** What a statement of `s` sees: its own last write, else the last committed version. */
  function Visible(db: Db, s: Session, key: Key): Option<Row> {
    Newest(Past(db.history, key) + Past(s.own, key))
  }

  predicate HeldByOther(db: Db, c: Caller, key: Key) {
    exists d | d in db.sessions :: d != c && key in db.sessions[d].held
  }

  /** The fencing rule: same owner, or strictly ahead; a missing row counts as offset 0. */
  predicate Fence(was: Option<Row>, token: Token, offset: int) {
    if was.None? then offset > 0 else token == was.value.owner || offset > was.value.offset
  }

  function With(db: Db, c: Caller, s: Session): Db {
    db.(sessions := db.sessions[c := s])
  }

  /** Writes a version: in the transaction under a lock, or committed at once. */
  function Put(db: Db, c: Caller, key: Key, v: Version, pc: Pc): Db {
    var s := Of(db, c);
    if s.inTx then
      With(db, c, Session(true, s.own[key := Past(s.own, key) + [v]], s.held + {key}, pc))
    else
      Db(db.history[key := Past(db.history, key) + [v]], db.sessions[c := Session(false, s.own, s.held, pc)])
  }

  function ReadStep(db: Db, c: Caller, key: Key, token: Token, offset: int): Db {
    var s := Of(db, c);
    var seen := Visible(db, s, key);
    if s.pc.Ready? || token == "" then db
    else if Committed(db, key).Some? && HeldByOther(db, c, key) then db  // waits for the row lock
    else
      With(db, c, Session(s.inTx, s.own, if s.inTx && seen.Some? then s.held + {key} else s.held,
                          if Fence(seen, token, offset) then Ready(key, token, offset, seen) else Done(false)))
  }

  function WriteStep(db: Db, c: Caller): Db {
    var s := Of(db, c);
    if !s.pc.Ready? then db
    else
      var key, now := s.pc.key, Visible(db, s, s.pc.key);
      if s.pc.seen.None? then
        // INSERT … ON CONFLICT DO NOTHING
        if now.Some? then With(db, c, s.(pc := Done(false)))
        else if HeldByOther(db, c, key) then db
        else Put(db, c, key, Version(Row(s.pc.offset, s.pc.token), true), Done(true))
      else
        // UPDATE … WHERE owner = token OR offset > offset_seq
        if HeldByOther(db, c, key) then db
        else if now.Some? && Fence(now, s.pc.token, s.pc.offset) then
          Put(db, c, key, Version(Row(s.pc.offset, s.pc.token), true), Done(true))
        else With(db, c, s.(pc := Done(false)))
  }

  function SaveStep(db: Db, c: Caller, key: Key, offset: int): Db {
    var s := Of(db, c);
    var now := Visible(db, s, key);
    if s.pc.Ready? || HeldByOther(db, c, key) then db
    else Put(db, c, key, Version(Row(offset, if now.Some? then now.value.owner else ""), false), s.pc)
  }

  function Merge(history: map<Key, seq<Version>>, own: map<Key, seq<Version>>): map<Key, seq<Version>> {
    map key | key in history.Keys + own.Keys :: Past(history, key) + Past(own, key)
  }

  function Step(db: Db, a: Action): Db {
    var s := Of(db, a.c);
    match a
    case Begin(c) => if s.inTx || s.pc.Ready? then db else With(db, c, Session(true, map[], {}, Idle))
    case Read(c, key, token, offset) => ReadStep(db, c, key, token, offset)
    case Write(c) => WriteStep(db, c)
    case Save(c, key, offset) => SaveStep(db, c, key, offset)
    case Commit(c) =>
      if !s.inTx || s.pc.Ready? then db
      else Db(Merge(db.history, s.own), db.sessions[c := Session(false, map[], {}, Idle)])
    case Rollback(c) => if !s.inTx then db else With(db, c, Session(false, map[], {}, Idle))
  }

  function Run(db: Db, acts: seq<Action>): Db
    decreases |acts|
  {
    if acts == [] then db else Run(Step(db, acts[0]), acts[1..])
  }

  // ------------------------------------------------------------------
  // The invariant
  // ------------------------------------------------------------------

  /** A version may follow what it overwrote. */
  predicate Follows(was: Option<Row>, v: Version) {
    if v.fenced then Fence(was, v.row.owner, v.row.offset)
    else v.row.owner == if was.Some? then was.value.owner else ""
  }

  ghost predicate Chained(vs: seq<Version>) {
    forall i | 0 <= i < |vs| :: Follows(Newest(vs[..i]), vs[i])
  }

  ghost predicate SessionOk(db: Db, s: Session) {
    && (!s.inTx ==> s.own == map[] && s.held == {})
    && (forall key | key in s.own :: key in s.held && Chained(Past(db.history, key) + s.own[key]))
    && (s.pc.Ready? ==> Fence(s.pc.seen, s.pc.token, s.pc.offset))
    && (s.pc.Ready? && s.inTx && s.pc.seen.Some? ==>
          s.pc.key in s.held && Visible(db, s, s.pc.key) == s.pc.seen)
  }

  ghost predicate Inv(db: Db) {
    && (forall key | key in db.history :: Chained(db.history[key]))
    && (forall c | c in db.sessions :: SessionOk(db, db.sessions[c]))
    && (forall c, d | c in db.sessions && d in db.sessions && c != d :: db.sessions[c].held !! db.sessions[d].held)
  }

  lemma ChainedExtends(vs: seq<Version>, v: Version)
    requires Chained(vs) && Follows(Newest(vs), v)
    ensures Chained(vs + [v])
  {
    var more := vs + [v];
    forall i | 0 <= i < |more| ensures Follows(Newest(more[..i]), more[i]) {
      assert more[..i] == vs[..i];
      assert i == |vs| ==> vs[..i] == vs;
    }
  }

  /** A step that leaves the history alone, and grows the locks of one caller at most by a free key. */
  lemma OnlySession(db: Db, c: Caller, s: Session)
    requires Inv(db) && SessionOk(db, s)
    requires forall key | key in s.held :: key in Of(db, c).held || !HeldByOther(db, c, key)
    ensures Inv(With(db, c, s))
  {
    var db' := With(db, c, s);
    forall d | d in db'.sessions ensures SessionOk(db', db'.sessions[d]) {
    }
    forall d, e | d in db'.sessions && e in db'.sessions && d != e
      ensures db'.sessions[d].held !! db'.sessions[e].held
    {
      forall key ensures !(key in db'.sessions[d].held && key in db'.sessions[e].held) {
      }
    }
  }

  /** Committed work on keys that no other caller holds leaves the other callers' sessions sound. */
  lemma HistoryMoves(db: Db, history: map<Key, seq<Version>>, c: Caller, s: Session)
    requires Inv(db)
    requires forall key | key in history :: Chained(history[key])
    requires forall key :: Past(history, key) != Past(db.history, key) ==> !HeldByOther(db, c, key)
    requires s.own == map[] && s.held == {} && !s.pc.Ready?
    ensures Inv(Db(history, db.sessions[c := s]))
  {
    var db' := Db(history, db.sessions[c := s]);
    forall d | d in db'.sessions ensures SessionOk(db', db'.sessions[d]) {
      if d != c {
        var t := db.sessions[d];
        assert forall key | key in t.held :: HeldByOther(db, c, key);
        assert forall key | key in t.held :: Past(history, key) == Past(db.history, key);
      }
    }
  }

  lemma PutKeeps(db: Db, c: Caller, key: Key, v: Version, pc: Pc)
    requires Inv(db) && !HeldByOther(db, c, key) && !pc.Ready?
    requires Follows(Visible(db, Of(db, c), key), v)
    ensures Inv(Put(db, c, key, v, pc))
  {
    var s := Of(db, c);
    var past := Past(db.history, key);
    if s.inTx {
      var trail := Past(s.own, key);
      var s' := Session(true, s.own[key := trail + [v]], s.held + {key}, pc);
      assert Chained(past + trail) by {
        assert trail == [] ==> past + trail == past;
      }
      ChainedExtends(past + trail, v);
      assert past + trail + [v] == past + (trail + [v]);
      OnlySession(db, c, s');
    } else {
      assert past + Past(s.own, key) == past;
      ChainedExtends(past, v);
      HistoryMoves(db, db.history[key := past + [v]], c, Session(false, s.own, s.held, pc));
    }
  }

  lemma ReadKeeps(db: Db, a: Action)
    requires Inv(db) && a.Read?
    ensures Inv(Step(db, a))
  {
    var s := Of(db, a.c);
    var db' := Step(db, a);
    if db' != db {
      var s' := db'.sessions[a.c];
      var seen := Visible(db, s, a.key);
      assert seen.Some? && a.key !in s.held ==> Committed(db, a.key).Some? by {
        assert a.key !in s.own ==> Past(db.history, a.key) + Past(s.own, a.key) == Past(db.history, a.key);
      }
      assert Visible(db, s', a.key) == seen;
      OnlySession(db, a.c, s');
    }
  }

  lemma WriteKeeps(db: Db, a: Action)
    requires Inv(db) && a.Write?
    ensures Inv(Step(db, a))
  {
    var s := Of(db, a.c);
    if s.pc.Ready? {
      var key, now := s.pc.key, Visible(db, s, s.pc.key);
      var v := Version(Row(s.pc.offset, s.pc.token), true);
      if !HeldByOther(db, a.c, key) && Follows(now, v) {
        PutKeeps(db, a.c, key, v, Done(true));
      }
      OnlySession(db, a.c, s.(pc := Done(false)));
    }
  }

  lemma CommitKeeps(db: Db, a: Action)
    requires Inv(db) && a.Commit?
    ensures Inv(Step(db, a))
  {
    var s := Of(db, a.c);
    if s.inTx && !s.pc.Ready? {
      var merged := Merge(db.history, s.own);
      forall key | key in merged ensures Chained(merged[key]) {
        assert key !in s.own ==> merged[key] == db.history[key];
      }
      forall key ensures Past(merged, key) == Past(db.history, key) + Past(s.own, key) {
      }
      HistoryMoves(db, merged, a.c, Session(false, map[], {}, Idle));
    }
  }

  lemma StepKeeps(db: Db, a: Action)
    requires Inv(db)
    ensures Inv(Step(db, a))
  {
    match a
    case Begin(c) => OnlySession(db, c, Session(true, map[], {}, Idle));
    case Read(_, _, _, _) => ReadKeeps(db, a);
    case Write(_) => WriteKeeps(db, a);
    case Save(c, key, offset) =>
      var s := Of(db, c);
      var now := Visible(db, s, key);
      if !s.pc.Ready? && !HeldByOther(db, c, key) {
        PutKeeps(db, c, key, Version(Row(offset, if now.Some? then now.value.owner else ""), false), s.pc);
      }
    case Commit(_) => CommitKeeps(db, a);
    case Rollback(c) => OnlySession(db, c, Session(false, map[], {}, Idle));
  }

  lemma {:induction false} RunKeeps(db: Db, acts: seq<Action>)
    requires Inv(db)
    ensures Inv(Run(db, acts))
    decreases |acts|
  {
    if acts != [] {
      StepKeeps(db, acts[0]);
      RunKeeps(Step(db, acts[0]), acts[1..]);
    }
  }

  // ------------------------------------------------------------------
  // Over every run
  // ------------------------------------------------------------------

  /** In the committed history of every row, each advance obeys the fence against the very
      version it replaced, so an owner changes only together with a higher offset. */
  lemma OwnerChangesRaiseOffset(acts: seq<Action>, key: Key, i: nat)
    requires var h := Run(Init, acts).history; key in h && i + 1 < |h[key]|
    ensures var h := Run(Init, acts).history;
            && Follows(Some(h[key][i].row), h[key][i + 1])
            && (h[key][i].row.owner != h[key][i + 1].row.owner ==> h[key][i].row.offset < h[key][i + 1].row.offset)
  {
    RunKeeps(Init, acts);
    var vs := Run(Init, acts).history[key];
    assert Follows(Newest(vs[..i + 1]), vs[i + 1]);
  }

  /** Inside a transaction, a write whose read saw the row is neither blocked nor rejected:
      the guard in the UPDATE repeats a check that cannot have become false. */
  lemma LockedGuardAgrees(acts: seq<Action>, c: Caller)
    requires var s := Of(Run(Init, acts), c); s.inTx && s.pc.Ready? && s.pc.seen.Some?
    ensures var db := Run(Init, acts);
            var pc := Of(db, c).pc;
            var db' := Step(db, Write(c));
            && !HeldByOther(db, c, pc.key)
            && Of(db', c).pc == Done(true)
            && Visible(db', Of(db', c), pc.key) == Some(Row(pc.offset, pc.token))
  {
    RunKeeps(Init, acts);
    var db := Run(Init, acts);
    var s := Of(db, c);
    var key := s.pc.key;
    var v := Version(Row(s.pc.offset, s.pc.token), true);
    assert (Past(db.history, key) + (Past(s.own, key) + [v])) == (Past(db.history, key) + Past(s.own, key)) + [v];
  }

  /** Writing puts the version on top of what the statement saw, and nowhere else. */
  lemma PutIs(db: Db, c: Caller, key: Key, v: Version, pc: Pc)
    requires !Of(db, c).inTx ==> Of(db, c).own == map[]
    ensures var db' := Put(db, c, key, v, pc);
            var s, s' := Of(db, c), Of(db', c);
            && s'.pc == pc
            && Visible(db', s', key) == Some(v.row)
            && forall k | k != key :: Past(db'.history, k) == Past(db.history, k) && Past(s'.own, k) == Past(s.own, k)
  {
    var s := Of(db, c);
    var past, trail := Past(db.history, key), Past(s.own, key);
    assert past + (trail + [v]) == (past + trail) + [v];
    assert !s.inTx ==> (past + [v]) + trail == past + [v];
  }

  lemma OwnOutsideTx(acts: seq<Action>, c: Caller)
    ensures var s := Of(Run(Init, acts), c); !s.inTx ==> s.own == map[]
  {
    RunKeeps(Init, acts);
  }

  /** A write step either appends one version that obeys the fence, on top of what the
      statement saw, or changes no row at all. */
  lemma WriteAdvancesOrNothing(acts: seq<Action>, c: Caller)
    ensures var db := Run(Init, acts);
            var db' := Step(db, Write(c));
            var s, s' := Of(db, c), Of(db', c);
            if s.pc.Ready? && s'.pc == Done(true) then
              var was := Visible(db, s, s.pc.key);
              && Fence(was, s.pc.token, s.pc.offset)
              && Visible(db', s', s.pc.key) == Some(Row(s.pc.offset, s.pc.token))
              && forall key | key != s.pc.key :: Past(db'.history, key) == Past(db.history, key) && Past(s'.own, key) == Past(s.own, key)
            else db'.history == db.history && s'.own == s.own
  {
    var db := Run(Init, acts);
    var s := Of(db, c);
    if s.pc.Ready? {
      OwnOutsideTx(acts, c);
      FenceBeforeInsert(acts, c);
      PutIs(db, c, s.pc.key, Version(Row(s.pc.offset, s.pc.token), true), Done(true));
    }
  }

  /** The check that was made before an INSERT. */
  lemma FenceBeforeInsert(acts: seq<Action>, c: Caller)
    ensures var s := Of(Run(Init, acts), c); s.pc.Ready? ==> Fence(s.pc.seen, s.pc.token, s.pc.offset)
  {
    RunKeeps(Init, acts);
  }

  /** A transaction that advances a row once changes its owner only by raising the committed offset. */
  lemma CommitOfOneAdvance(acts: seq<Action>, c: Caller, key: Key)
    requires var s := Of(Run(Init, acts), c); s.inTx && !s.pc.Ready? && key in s.own && |s.own[key]| == 1
    ensures var db := Run(Init, acts);
            var db' := Step(db, Commit(c));
            var was, next := Committed(db, key), Committed(db', key);
            && next == Some(Of(db, c).own[key][0].row)
            && (was.Some? && was.value.owner != next.value.owner ==> was.value.offset < next.value.offset)
  {
    RunKeeps(Init, acts);
    var db := Run(Init, acts);
    var past, trail := Past(db.history, key), Of(db, c).own[key];
    assert Follows(Newest((past + trail)[..|past|]), (past + trail)[|past|]);
    assert (past + trail)[..|past|] == past;
  }

  // ------------------------------------------------------------------
  // What does happen
  // ------------------------------------------------------------------

  /** The two statements of a call that no other statement separates. */
  function Advance(c: Caller, key: Key, token: Token, offset: int): seq<Action> {
    [Read(c, key, token, offset), Write(c)]
  }

  lemma {:induction false} RunSplits(db: Db, xs: seq<Action>, ys: seq<Action>)
    ensures Run(db, xs + ys) == Run(Run(db, xs), ys)
    decreases |xs|
  {
    if xs == [] {
      assert xs + ys == ys;
    } else {
      assert (xs + ys)[0] == xs[0] && (xs + ys)[1..] == xs[1..] + ys;
      RunSplits(Step(db, xs[0]), xs[1..], ys);
    }
  }

  /** A call run without interruption, outside a transaction and with no lock in its way,
      decides exactly by the fence. */
  lemma QuietAdvance(db: Db, c: Caller, key: Key, token: Token, offset: int)
    requires Inv(db) && token != "" && !Of(db, c).inTx && !Of(db, c).pc.Ready? && !HeldByOther(db, c, key)
    ensures var db' := Run(db, Advance(c, key, token, offset));
            if Fence(Committed(db, key), token, offset) then
              && Of(db', c).pc == Done(true)
              && db'.history == db.history[key := Past(db.history, key) + [Version(Row(offset, token), true)]]
            else Of(db', c).pc == Done(false) && db'.history == db.history
    ensures var db' := Run(db, Advance(c, key, token, offset)); db'.sessions == db.sessions[c := Of(db, c).(pc := Of(db', c).pc)]
  {
    var acts := Advance(c, key, token, offset);
    var s := Of(db, c);
    assert Past(db.history, key) + Past(s.own, key) == Past(db.history, key);
    var db1 := Step(db, acts[0]);
    assert !HeldByOther(db1, c, key);
    assert Visible(db1, Of(db1, c), key) == Committed(db, key);
    Two(db, acts);
  }

  /** Two callers that both found no row: the one whose INSERT comes second is rejected,
      even if it is ahead. */
  lemma ColdRaceLoserRejected(x: int, y: int)
    requires 0 < x < y
    ensures var db := Run(Init, [Read(1, 0, "A", x), Read(2, 0, "B", y), Write(1), Write(2)]);
            Of(db, 2).pc == Done(false) && Committed(db, 0) == Some(Row(x, "A"))
  {
    var acts := [Read(1, 0, "A", x), Read(2, 0, "B", y), Write(1), Write(2)];
    var db1 := Step(Init, acts[0]);
    var db2 := Step(db1, acts[1]);
    var db3 := Step(db2, acts[2]);
    var db4 := Step(db3, acts[3]);
    assert Of(db2, 1).pc == Ready(0, "A", x, None) && Of(db2, 2).pc == Ready(0, "B", y, None);
    assert !HeldByOther(db2, 1, 0);
    assert Past(db3.history, 0) == [Version(Row(x, "A"), true)];
    assert Of(db4, 2).pc == Done(false);
    Unroll(Init, acts);
  }

  /** A call run without interruption inside a transaction, with no lock in its way, decides
      by the fence against the transaction's own view. */
  lemma QuietAdvanceInTx(db: Db, c: Caller, key: Key, token: Token, offset: int)
    requires token != "" && Of(db, c).inTx && !Of(db, c).pc.Ready? && !HeldByOther(db, c, key)
    requires Fence(Visible(db, Of(db, c), key), token, offset)
    ensures var db' := Run(db, Advance(c, key, token, offset));
            var s, s' := Of(db, c), Of(db', c);
            && s'.inTx && s'.pc == Done(true) && db'.history == db.history && !HeldByOther(db', c, key)
            && s'.own == s.own[key := Past(s.own, key) + [Version(Row(offset, token), true)]]
  {
    var acts := Advance(c, key, token, offset);
    var db1 := Step(db, acts[0]);
    assert !HeldByOther(db1, c, key);
    assert Visible(db1, Of(db1, c), key) == Visible(db, Of(db, c), key);
    Two(db, acts);
  }

  lemma StepBackInTx(db: Db)
    requires db.history == map[0 := [Version(Row(5, "A"), true)]]
    requires Of(db, 2) == Session(true, map[], {}, Idle) && !HeldByOther(db, 2, 0)
    ensures var db' := Run(Run(db, Advance(2, 0, "B", 6)), Advance(2, 0, "B", 3));
            Committed(Step(db', Commit(2)), 0) == Some(Row(3, "B"))
  {
    var db1 := Run(db, Advance(2, 0, "B", 6));
    var past := db.history[0];
    assert past + Past(Of(db, 2).own, 0) == past;
    QuietAdvanceInTx(db, 2, 0, "B", 6);
    assert Past(Of(db1, 2).own, 0) == [Version(Row(6, "B"), true)];
    assert Visible(db1, Of(db1, 2), 0) == Some(Row(6, "B"));
    QuietAdvanceInTx(db1, 2, 0, "B", 3);
  }

  /** At the grain of commits the owner rule fails: a transaction that takes the row ahead and
      then, as its owner, steps back, commits a new owner at a lower offset. */
  lemma CommitMayLowerOffset()
    ensures var start := Step(Run(Init, Advance(1, 0, "A", 5)), Begin(2));
            var end := Step(Run(Run(start, Advance(2, 0, "B", 6)), Advance(2, 0, "B", 3)), Commit(2));
            Committed(start, 0) == Some(Row(5, "A")) && Committed(end, 0) == Some(Row(3, "B"))
  {
    var acts := Advance(1, 0, "A", 5);
    Two(Init, acts);
    var db1 := Step(Init, acts[0]);
    assert !HeldByOther(db1, 1, 0) && db1.sessions.Keys == {1};
    var start := Step(Run(Init, acts), Begin(2));
    assert start.sessions.Keys == {1, 2} && start.sessions[1].held == {};
    QuietAdvance(Init, 1, 0, "A", 5);
    assert start.history[0] == [Version(Row(5, "A"), true)];
    StepBackInTx(start);
  }

  /** Without a transaction the guard does work of its own: a caller that passed the check is
      rejected once another moved the row past it. */
  lemma UnlockedGuardMayReject(db: Db, key: Key, x: int, y: int)
    requires Inv(db) && Committed(db, key).Some? && Committed(db, key).value.offset < x < y
    requires Of(db, 1) == Session(false, map[], {}, Idle) && Of(db, 2) == Session(false, map[], {}, Idle)
    requires forall c | c in db.sessions :: key !in db.sessions[c].held
    ensures var db' := Run(db, [Read(1, key, "A", x), Read(2, key, "B", y), Write(2), Write(1)]);
            Of(db', 1).pc == Done(false) && Committed(db', key) == Some(Row(y, "B"))
  {
    var acts := [Read(1, key, "A", x), Read(2, key, "B", y), Write(2), Write(1)];
    var past := Past(db.history, key);
    var db1 := Step(db, acts[0]);
    var db2 := Step(db1, acts[1]);
    var db3 := Step(db2, acts[2]);
    assert past + Past(Of(db, 1).own, key) == past && past + Past(Of(db, 2).own, key) == past;
    assert Of(db1, 1).pc == Ready(key, "A", x, Newest(past));
    assert !HeldByOther(db1, 2, key) && past + Past(Of(db1, 2).own, key) == past;
    assert Of(db2, 1).pc == Ready(key, "A", x, Newest(past)) && Of(db2, 2).pc == Ready(key, "B", y, Newest(past));
    assert !HeldByOther(db2, 2, key) && !HeldByOther(db2, 1, key);
    assert Past(db3.history, key) == past + [Version(Row(y, "B"), true)];
    assert Past(db3.history, key) + Past(Of(db3, 1).own, key) == Past(db3.history, key);
    assert !HeldByOther(db3, 1, key);
    Unroll(db, acts);
  }

  lemma Unroll(db: Db, acts: seq<Action>)
    requires |acts| == 4
    ensures Run(db, acts) == Step(Step(Step(Step(db, acts[0]), acts[1]), acts[2]), acts[3])
  {
    RunSplits(db, acts[..2], acts[2..]);
    assert acts[..2] + acts[2..] == acts;
    Two(db, acts[..2]);
    Two(Run(db, acts[..2]), acts[2..]);
  }

  lemma Two(db: Db, acts: seq<Action>)
    requires |acts| == 2
    ensures Run(db, acts) == Step(Step(db, acts[0]), acts[1])
  {
    assert acts[1..] == [acts[1]] && [acts[1]][1..] == [];
    assert Run(Step(db, acts[0]), [acts[1]]) == Run(Step(Step(db, acts[0]), acts[1]), []);
  }
}
