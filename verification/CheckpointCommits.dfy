/** The owner rule at the grain of commits, adapters/postgres/projection_checkpoint_store.go:208-273:
    when may a transaction that advances a checkpoint several times as one owner commit? */
module CheckpointCommits {
  import opened Options
  import opened Checkpoint

  /** What a transaction writes that advances the row to the given offsets, one after the other. */
  function Versions(token: Token, offsets: seq<int>): seq<Version> {
    seq(|offsets|, i requires 0 <= i < |offsets| => Version(Row(offsets[i], token), true))
  }

  /** The committed row; a missing one counts as offset 0 without an owner. */
  function Before(db: Db, key: Key): Row {
    if Committed(db, key).Some? then Committed(db, key).value else Row(0, "")
  }

  /** In the state after `acts`, if `c` is about to commit exactly these advances over a row that
      another owner has, its commit raises the committed offset. */
  ghost predicate Obeys(acts: seq<Action>, c: Caller, key: Key, token: Token, offsets: seq<int>) {
    var db := Run(Init, acts);
    var s := Of(db, c);
    s.inTx && !s.pc.Ready? && Past(s.own, key) == Versions(token, offsets) && Before(db, key).owner != token ==>
      Before(db, key).offset < Before(Step(db, Commit(c)), key).offset
  }

  /** So it is in every state of every run. */
  ghost predicate OwnerRule(token: Token, offsets: seq<int>) {
    forall acts: seq<Action>, c: Caller, key: Key :: Obeys(acts, c, key, token, offsets)
  }

  /** The commit leaves the last offset, and the first one passed the fence. */
  lemma CommitOfAdvances(acts: seq<Action>, c: Caller, key: Key, token: Token, offsets: seq<int>)
    requires offsets != []
    requires var s := Of(Run(Init, acts), c); s.inTx && !s.pc.Ready? && Past(s.own, key) == Versions(token, offsets)
    ensures var db := Run(Init, acts);
            && Before(Step(db, Commit(c)), key) == Row(offsets[|offsets| - 1], token)
            && (Before(db, key).owner != token ==> Before(db, key).offset < offsets[0])
  {
    var db := Run(Init, acts);
    var past, trail := Past(db.history, key), Versions(token, offsets);
    TrailChained(acts, c, key);
    ChainedJoin(past, trail);
    assert Past(Step(db, Commit(c)).history, key) == past + trail;
  }

  lemma TrailChained(acts: seq<Action>, c: Caller, key: Key)
    ensures var db := Run(Init, acts);
            Past(Of(db, c).own, key) != [] ==> Chained(Past(db.history, key) + Past(Of(db, c).own, key))
  {
    RunKeeps(Init, acts);
  }

  /** The first of the later versions follows the last of the earlier ones. */
  lemma ChainedJoin(past: seq<Version>, trail: seq<Version>)
    requires Chained(past + trail) && trail != []
    ensures Follows(Newest(past), trail[0])
  {
    var all := past + trail;
    assert Follows(Newest(all[..|past|]), all[|past|]);
    assert all[..|past|] == past;
  }

  /** The calls that make the advances. */
  function AdvanceAll(c: Caller, key: Key, token: Token, offsets: seq<int>): seq<Action>
    decreases |offsets|
  {
    if offsets == [] then [] else Advance(c, key, token, offsets[0]) + AdvanceAll(c, key, token, offsets[1..])
  }

  /** Inside a transaction all of them pass once the first does: the token owns the row then. */
  lemma {:induction false} QuietAdvances(db: Db, c: Caller, key: Key, token: Token, offsets: seq<int>)
    requires token != "" && Of(db, c).inTx && !Of(db, c).pc.Ready? && !HeldByOther(db, c, key)
    requires offsets != [] ==> Fence(Visible(db, Of(db, c), key), token, offsets[0])
    ensures var db' := Run(db, AdvanceAll(c, key, token, offsets));
            var s, s' := Of(db, c), Of(db', c);
            && s'.inTx && !s'.pc.Ready? && db'.history == db.history
            && Past(s'.own, key) == Past(s.own, key) + Versions(token, offsets)
    decreases |offsets|
  {
    if offsets == [] {
      assert Past(Of(db, c).own, key) + [] == Past(Of(db, c).own, key) && Versions(token, offsets) == [];
    } else {
      var rest := offsets[1..];
      var next := Run(db, Advance(c, key, token, offsets[0]));
      QuietFirst(db, c, key, token, offsets[0]);
      QuietAdvances(next, c, key, token, rest);
      RunSplits(db, Advance(c, key, token, offsets[0]), AdvanceAll(c, key, token, rest));
      VersionsFrom(Past(Of(db, c).own, key), token, offsets);
    }
  }

  lemma VersionsFrom(trail: seq<Version>, token: Token, offsets: seq<int>)
    requires offsets != []
    ensures trail + Versions(token, offsets) == trail + [Version(Row(offsets[0], token), true)] + Versions(token, offsets[1..])
  {
  }

  lemma QuietFirst(db: Db, c: Caller, key: Key, token: Token, offset: int)
    requires token != "" && Of(db, c).inTx && !Of(db, c).pc.Ready? && !HeldByOther(db, c, key)
    requires Fence(Visible(db, Of(db, c), key), token, offset)
    ensures var db' := Run(db, Advance(c, key, token, offset));
            var s, s' := Of(db, c), Of(db', c);
            && s'.inTx && !s'.pc.Ready? && db'.history == db.history && !HeldByOther(db', c, key)
            && Past(s'.own, key) == Past(s.own, key) + [Version(Row(offset, token), true)]
            && Visible(db', s', key) == Some(Row(offset, token))
  {
    QuietAdvanceInTx(db, c, key, token, offset);
    var v := Version(Row(offset, token), true);
    var past, trail := Past(db.history, key), Past(Of(db, c).own, key);
    assert past + (trail + [v]) == (past + trail) + [v];
  }

  /** Somebody else brings the row to any offset whatever, and a transaction begins. */
  function Setup(owner: Token, offset: int): seq<Action> {
    Advance(1, 0, owner, 1) + Advance(1, 0, owner, offset)
  }

  lemma SetupIs(owner: Token, offset: int)
    requires owner != ""
    ensures var db := Run(Init, Setup(owner, offset));
            && Committed(db, 0) == Some(Row(offset, owner)) && db.sessions.Keys == {1}
            && !db.sessions[1].inTx && db.sessions[1].held == {}
  {
    var first := Run(Init, Advance(1, 0, owner, 1));
    FirstAdvance(owner);
    RunKeeps(Init, Advance(1, 0, owner, 1));
    QuietAdvance(first, 1, 0, owner, offset);
    RunSplits(Init, Advance(1, 0, owner, 1), Advance(1, 0, owner, offset));
  }

  lemma FirstAdvance(owner: Token)
    requires owner != ""
    ensures Run(Init, Advance(1, 0, owner, 1))
         == Db(map[0 := [Version(Row(1, owner), true)]], map[1 := Session(false, map[], {}, Done(true))])
  {
    QuietAdvance(Init, 1, 0, owner, 1);
    var db := Run(Init, Advance(1, 0, owner, 1));
    assert Past(Init.history, 0) + [Version(Row(1, owner), true)] == [Version(Row(1, owner), true)];
  }

  /** The run that breaks the rule for offsets that end below their start. */
  function Breaking(owner: Token, token: Token, offsets: seq<int>): seq<Action>
    requires offsets != []
  {
    Setup(owner, offsets[0] - 1) + [Begin(2)] + AdvanceAll(2, 0, token, offsets)
  }

  lemma BreakingIs(owner: Token, token: Token, offsets: seq<int>)
    requires offsets != [] && owner != "" && token != "" && owner != token
    ensures var db := Run(Init, Breaking(owner, token, offsets));
            && Before(db, 0) == Row(offsets[0] - 1, owner)
            && Of(db, 2).inTx && !Of(db, 2).pc.Ready? && Past(Of(db, 2).own, 0) == Versions(token, offsets)
  {
    var setup, rest := Setup(owner, offsets[0] - 1), AdvanceAll(2, 0, token, offsets);
    var db := Run(Init, setup);
    SetupIs(owner, offsets[0] - 1);
    var db1 := Step(db, Begin(2));
    assert [Begin(2)][1..] == [] && Run(db, [Begin(2)]) == Run(db1, []);
    RunSplits(Init, setup, [Begin(2)]);
    RunSplits(Init, setup + [Begin(2)], rest);
    assert !HeldByOther(db1, 2, 0);
    var past := Past(db1.history, 0);
    assert past + Past(Of(db1, 2).own, 0) == past;
    assert Visible(db1, Of(db1, 2), 0) == Committed(db, 0);
    QuietAdvances(db1, 2, 0, token, offsets);
    assert Past(Of(db1, 2).own, 0) + Versions(token, offsets) == Versions(token, offsets);
  }

  /** A transaction that advances a row as one owner, any number of times, changes the committed
      owner only by raising the committed offset, in every run, if and only if the last offset it
      asks for is not below the first. */
  lemma OwnerRuleIff(token: Token, offsets: seq<int>)
    requires token != "" && offsets != []
    ensures OwnerRule(token, offsets) <==> offsets[0] <= offsets[|offsets| - 1]
  {
    if offsets[0] <= offsets[|offsets| - 1] {
      forall acts: seq<Action>, c: Caller, key: Key ensures Obeys(acts, c, key, token, offsets) {
        var s := Of(Run(Init, acts), c);
        if s.inTx && !s.pc.Ready? && Past(s.own, key) == Versions(token, offsets) {
          CommitOfAdvances(acts, c, key, token, offsets);
        }
      }
    } else {
      var owner := if token == "A" then "B" else "A";
      var acts := Breaking(owner, token, offsets);
      BreakingIs(owner, token, offsets);
      CommitOfAdvances(acts, 2, 0, token, offsets);
      assert !Obeys(acts, 2, 0, token, offsets);
    }
  }
}
