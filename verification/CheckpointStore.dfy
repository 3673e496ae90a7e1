/** The store's methods, adapters/postgres/projection_checkpoint_store.go:121-273. */
module CheckpointStore {
  import opened Options
  import opened Checkpoint

  datatype Outcome = Accepted | StaleOwner | InvalidToken | StillWaiting

  lemma AppendOne(acts: seq<Action>, a: Action)
    ensures Run(Init, acts + [a]) == Step(Run(Init, acts), a)
  {
    RunSplits(Init, acts, [a]);
    assert [a][1..] == [];
  }

  /** Steps of other callers leave what a caller holds as it is. */
  lemma OthersLeaveHeld(db: Db, a: Action, c: Caller, key: Key)
    requires Inv(db) && a.c != c && key in Of(db, c).held
    ensures Of(Step(db, a), c) == Of(db, c)
    ensures Past(Step(db, a).history, key) == Past(db.history, key)
  {
    assert c in db.sessions;
    assert HeldByOther(db, a.c, key);
    assert key !in Of(db, a.c).held;
  }

  lemma OthersLeaveSession(db: Db, a: Action, c: Caller)
    requires a.c != c
    ensures Of(Step(db, a), c) == Of(db, c)
  {
  }

  /** The fencing rule in columns: the owner may go anywhere, anybody else only ahead; a row that is
      not there has offset 0 and no owner. */
  ghost predicate MayAdvance(was: Option<Row>, token: Token, offset: int) {
    if was == None then 0 < offset else was.value.owner == token || was.value.offset < offset
  }

  /** Another caller has the row locked. */
  ghost predicate LockedElsewhere(db: Db, c: Caller, key: Key) {
    exists d | d in db.sessions :: d != c && key in db.sessions[d].held
  }

  class Store {
    var db: Db
    ghost var acts: seq<Action>

    ghost predicate Valid()
      reads this
    {
      db == Run(Init, acts)
    }

    constructor ()
      ensures Valid() && db == Init
    {
      db := Init;
      acts := [];
    }

    method Perform(a: Action)
      requires Valid()
      modifies this
      ensures Valid() && db == Step(old(db), a)
    {
      AppendOne(acts, a);
      db := Step(db, a);
      acts := acts + [a];
    }

    /** Statements of other callers that come in between. */
    method Interleave(others: seq<Action>, c: Caller)
      requires Valid() && forall i | 0 <= i < |others| :: others[i].c != c
      modifies this
      ensures Valid() && Of(db, c) == old(Of(db, c))
      ensures forall key | key in Of(db, c).held :: Past(db.history, key) == old(Past(db.history, key))
      ensures others == [] ==> db == old(db)
    {
      for i := 0 to |others|
        invariant Valid() && Of(db, c) == old(Of(db, c))
        invariant forall key | key in Of(db, c).held :: Past(db.history, key) == old(Past(db.history, key))
        invariant i == 0 ==> db == old(db)
      {
        ghost var was := db;
        assert Inv(db) by {
          RunKeeps(Init, acts);
        }
        OthersLeaveSession(db, others[i], c);
        forall key | key in Of(was, c).held ensures Past(Step(was, others[i]).history, key) == Past(was.history, key) {
          OthersLeaveHeld(was, others[i], c, key);
        }
        Perform(others[i]);
      }
    }

    /** Opens a transaction; nothing is visible or locked by it yet. */
    method Begin(c: Caller)
      requires Valid() && !Of(db, c).inTx && !Of(db, c).pc.Ready?
      modifies this
      ensures Valid() && db.history == old(db.history)
      ensures Of(db, c).inTx && Of(db, c).own == map[] && Of(db, c).held == {}
    {
      Perform(Checkpoint.Begin(c));
    }

    /** Adds the transaction's versions to the history, in order, and gives up its locks. */
    method CommitTx(c: Caller)
      requires Valid() && Of(db, c).inTx && !Of(db, c).pc.Ready?
      modifies this
      ensures Valid() && !Of(db, c).inTx && Of(db, c).own == map[] && Of(db, c).held == {}
      ensures forall key :: Past(db.history, key) == old(Past(db.history, key)) + old(Past(Of(db, c).own, key))
    {
      Perform(Commit(c));
    }

    /** Leaves no trace of the transaction, wherever its calls stand, and gives up its locks. */
    method RollbackTx(c: Caller)
      requires Valid() && Of(db, c).inTx
      modifies this
      ensures Valid() && !Of(db, c).inTx && Of(db, c).own == map[] && Of(db, c).held == {} && Of(db, c).pc == Idle
      ensures db.history == old(db.history)
    {
      Perform(Rollback(c));
    }

    /** The last offset the caller can see; 0 before the first. */
    method LoadOffset(c: Caller, key: Key) returns (offset: int)
      requires Valid()
      ensures var s := Of(db, c);
              var trail := Past(db.history, key) + Past(s.own, key);
              offset == if trail == [] then 0 else trail[|trail| - 1].row.offset
      ensures !Of(db, c).inTx ==>
                var past := Past(db.history, key); offset == if past == [] then 0 else past[|past| - 1].row.offset
    {
      assert Inv(db) by {
        RunKeeps(Init, acts);
      }
      var row := Visible(db, Of(db, c), key);
      offset := if row.Some? then row.value.offset else 0;
    }

    /** Moves the offset unconditionally and never the owner, once no other caller has the row locked. */
    method SaveOffset(c: Caller, key: Key, offset: int) returns (done: bool)
      requires Valid() && !Of(db, c).pc.Ready?
      modifies this
      ensures Valid()
      ensures done <==> !LockedElsewhere(old(db), c, key)
      ensures !done ==> db == old(db)
      ensures var was := old(Visible(db, Of(db, c), key));
              done ==> Visible(db, Of(db, c), key) == Some(Row(offset, if was.Some? then was.value.owner else ""))
    {
      assert Inv(db) by {
        RunKeeps(Init, acts);
      }
      ghost var s := Of(db, c);
      ghost var now := Visible(db, s, key);
      ghost var v := Version(Row(offset, if now.Some? then now.value.owner else ""), false);
      assert Past(db.history, key) + (Past(s.own, key) + [v]) == Past(db.history, key) + Past(s.own, key) + [v];
      assert !s.inTx ==> (Past(db.history, key) + [v]) + Past(s.own, key) == Past(db.history, key) + Past(s.own, key) + [v];
      done := !HeldByOther(db, c, key);
      Perform(Save(c, key, offset));
    }

    /** The SELECT … FOR UPDATE and the check on what it returns. */
    method ReadForUpdate(c: Caller, key: Key, token: Token, offset: int)
      requires Valid() && !Of(db, c).pc.Ready? && token != "" && !(Committed(db, key).Some? && HeldByOther(db, c, key))
      modifies this
      ensures Valid()
      ensures var was, s, s' := old(Visible(db, Of(db, c), key)), old(Of(db, c)), Of(db, c);
              && db == With(old(db), c, s') && s'.inTx == s.inTx && s'.own == s.own
              && s'.held == (if s.inTx && was.Some? then s.held + {key} else s.held)
              && s'.pc == if Fence(was, token, offset) then Ready(key, token, offset, was) else Done(false)
      ensures Visible(db, Of(db, c), key) == old(Visible(db, Of(db, c), key))
      ensures HeldByOther(db, c, key) == old(HeldByOther(db, c, key))
    {
      Perform(Read(c, key, token, offset));
      assert forall d | d != c :: (d in db.sessions <==> d in old(db).sessions) && (d in db.sessions ==> db.sessions[d] == old(db).sessions[d]);
    }

    /** Whatever other callers do between the two statements: an accepted call leaves its offset
        and token; any other leaves the caller's view unchanged by its own hand; and inside a
        transaction a row that exists decides by the fence alone. */
    method AdvanceIfOwner(c: Caller, key: Key, token: Token, offset: int, others: seq<Action>)
      returns (outcome: Outcome)
      requires Valid() && !Of(db, c).pc.Ready?
      requires forall i | 0 <= i < |others| :: others[i].c != c
      modifies this
      ensures Valid()
      ensures outcome == InvalidToken <==> token == ""
      ensures outcome == Accepted ==> Visible(db, Of(db, c), key) == Some(Row(offset, token))
      ensures outcome == StaleOwner || outcome == InvalidToken ==> Of(db, c).own == old(Of(db, c).own)
      ensures var was := old(Visible(db, Of(db, c), key));
              token != "" && !LockedElsewhere(old(db), c, key) && ((old(Of(db, c).inTx) && was != None) || others == []) ==>
                outcome == if MayAdvance(was, token, offset) then Accepted else StaleOwner
      ensures outcome == StillWaiting ==> LockedElsewhere(old(db), c, key) || LockedElsewhere(db, c, key)
      ensures var was, now := old(Visible(db, Of(db, c), key)), Visible(db, Of(db, c), key);
              outcome == StaleOwner && MayAdvance(was, token, offset) ==>
                if was == None then now != None else now == None || !MayAdvance(now, token, offset)
    {
      if token == "" {
        return InvalidToken;
      }
      if Committed(db, key).Some? && HeldByOther(db, c, key) {
        return StillWaiting;
      }
      ReadForUpdate(c, key, token, offset);
      if Of(db, c).pc == Done(false) {
        return StaleOwner;
      }
      Interleave(others, c);
      ghost var before := acts;
      Perform(Write(c));
      WriteAdvancesOrNothing(before, c);
      if Of(Run(Init, before), c).inTx && Of(Run(Init, before), c).pc.seen.Some? {
        LockedGuardAgrees(before, c);
      }
      outcome := if Of(db, c).pc.Ready? then StillWaiting
                 else if Of(db, c).pc == Done(true) then Accepted else StaleOwner;
    }
  }
}
