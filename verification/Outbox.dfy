/** The outbox lease machine, adapters/postgres/outbox_store.go.

    Each store operation is one SQL statement and so one atomic step on the table; steps
    of any number of workers, of the reclaim sweep and of the cleanup interleave freely.
    The rows a LIMIT / SKIP LOCKED sub-select picks are given with the step. */
module Outbox {
  import opened Options

  type Id = nat
  type Lease = nat
  type Time = int

  datatype Status = Pending | Claiming | Published | Dead

  datatype Row = Row(
    status: Status,
    attempts: nat,
    createdAt: Time,
    nextRetryAt: Option<Time>,
    claimedAt: Option<Time>,
    lease: Option<Lease>,
    publishedAt: Option<Time>,
    deadAt: Option<Time>,
    lastError: string)

  /** How a grant ended, and the retry delay a reclaim gave the row (none if it went dead). */
  datatype Settlement = Settlement(id: Id, lease: Lease, settler: Settler, delay: Option<int>)
  datatype Settler = ByPublish | ByRetry | ByDead | ByReclaim

  /** The table, the grants ever made (row, lease), and how they were settled, in order. */
  datatype State = State(rows: map<Id, Row>, leases: set<Lease>, grants: set<(Id, Lease)>, log: seq<Settlement>)

  const Init := State(map[], {}, {}, [])

  datatype Sweep = Sweep(ttl: int, maxAttempts: int, baseDelay: int, maxDelay: int)

  datatype Action =
    | Write(id: Id, now: Time)
    | Claim(lease: Lease, picked: set<Id>, now: Time)
    | MarkPublished(id: Id, lease: Lease, now: Time)
    | MarkRetry(id: Id, lease: Lease, attempts: nat, delay: int, error: string, now: Time)
    | MarkDead(id: Id, lease: Lease, attempts: nat, error: string, now: Time)
    | Reclaim(picked: set<Id>, sweep: Sweep, now: Time)
    | CleanupPublished(picked: set<Id>, cutoff: Time)
    | CleanupDead(picked: set<Id>, cutoff: Time)

  function NewRow(now: Time): Row {
    Row(Pending, 0, now, None, None, None, None, None, "")
  }

  predicate Claimable(r: Row, now: Time) {
    r.status.Pending? && (r.nextRetryAt.None? || r.nextRetryAt.value <= now)
  }

  function Claimed(r: Row, lease: Lease, now: Time): Row {
    r.(status := Claiming, claimedAt := Some(now), lease := Some(lease))
  }

  /** The fencing guard of the three Mark statements. */
  predicate Holds(rows: map<Id, Row>, id: Id, lease: Lease) {
    id in rows && rows[id].status.Claiming? && rows[id].lease == Some(lease)
  }

  function Marked(r: Row, a: Action): Row
    requires a.MarkPublished? || a.MarkRetry? || a.MarkDead?
  {
    match a
    case MarkPublished(_, _, now) => r.(status := Published, publishedAt := Some(now))
    case MarkRetry(_, _, attempts, delay, error, now) =>
      r.(status := Pending, attempts := attempts, nextRetryAt := Some(now + Max(delay, 0)), lastError := error, lease := None)
    case MarkDead(_, _, attempts, error, now) =>
      r.(status := Dead, attempts := attempts, lastError := error, deadAt := Some(now))
  }

  function Max(a: int, b: int): int {
    if a < b then b else a
  }

  function Min(a: int, b: int): int {
    if a < b then a else b
  }

  function Power2(n: nat): nat {
    if n == 0 then 1 else 2 * Power2(n - 1)
  }

  /** LEAST(base * 2^attempts, max), in microseconds. */
  function Backoff(s: Sweep, attempts: nat): int {
    Min(s.baseDelay * Power2(attempts), s.maxDelay)
  }

  predicate Stale(r: Row, s: Sweep, now: Time) {
    r.status.Claiming? && r.claimedAt.Some? && r.claimedAt.value < now - s.ttl && r.lease.Some?
  }

  /** Attempts reach maxAttempts with this reclaim. */
  predicate Exhausted(r: Row, s: Sweep) {
    r.attempts + 1 >= s.maxAttempts
  }

  function Reclaimed(r: Row, s: Sweep, now: Time): Row {
    if Exhausted(r, s) then
      r.(status := Dead, attempts := r.attempts + 1, claimedAt := None, deadAt := Some(now), nextRetryAt := None)
    else
      r.(status := Pending, attempts := r.attempts + 1, claimedAt := None, lease := None, deadAt := None,
         nextRetryAt := Some(now + Backoff(s, r.attempts + 1)))
  }

  function ReclaimRows(rows: map<Id, Row>, picked: set<Id>, s: Sweep, now: Time): map<Id, Row> {
    map id | id in rows :: if id in picked then Reclaimed(rows[id], s, now) else rows[id]
  }

  /** The settlements of a sweep, in ascending order of row id. */
  function ReclaimLog(rows: map<Id, Row>, picked: set<Id>, s: Sweep): seq<Settlement>
    requires forall id | id in picked :: id in rows && rows[id].lease.Some?
    decreases picked
  {
    if picked == {} then []
    else
      var id := Least(picked);
      [Settlement(id, rows[id].lease.value, ByReclaim,
                  if Exhausted(rows[id], s) then None else Some(Backoff(s, rows[id].attempts + 1)))]
      + ReclaimLog(rows, picked - {id}, s)
  }

  predicate IsLeast(m: Id, s: set<Id>) {
    m in s && forall x | x in s :: m <= x
  }

  function Least(s: set<Id>): (m: Id)
    requires s != {}
    ensures IsLeast(m, s)
  {
    LeastExists(s);
    var m :| m in s && IsLeast(m, s);
    m
  }

  lemma {:induction false} LeastExists(s: set<Id>)
    requires s != {}
    ensures exists m :: m in s && IsLeast(m, s)
    decreases s
  {
    var x :| x in s;
    var rest := s - {x};
    assert forall y | y in s :: y == x || y in rest;
    if rest == {} {
      assert IsLeast(x, s);
    } else {
      LeastExists(rest);
      var m :| m in rest && IsLeast(m, rest);
      if x < m {
        assert IsLeast(x, s);
      } else {
        assert IsLeast(m, s);
      }
    }
  }

  function SettlerOf(a: Action): Settler
    requires a.MarkPublished? || a.MarkRetry? || a.MarkDead?
  {
    match a
    case MarkPublished(_, _, _) => ByPublish
    case MarkRetry(_, _, _, _, _, _) => ByRetry
    case MarkDead(_, _, _, _, _) => ByDead
  }

  function Mark(st: State, a: Action): State
    requires a.MarkPublished? || a.MarkRetry? || a.MarkDead?
  {
    if !Holds(st.rows, a.id, a.lease) then st
    else st.(rows := st.rows[a.id := Marked(st.rows[a.id], a)],
             log := st.log + [Settlement(a.id, a.lease, SettlerOf(a), None)])
  }

  function Step(st: State, a: Action): State {
    match a
    case Write(id, now) =>
      if id in st.rows then st else st.(rows := st.rows[id := NewRow(now)])
    case Claim(lease, picked, now) =>
      // lease ids are drawn fresh
      if lease in st.leases || exists id | id in picked :: id !in st.rows || !Claimable(st.rows[id], now) then st
      else State(map id | id in st.rows :: if id in picked then Claimed(st.rows[id], lease, now) else st.rows[id],
                 st.leases + {lease}, st.grants + set id | id in picked :: (id, lease), st.log)
    case MarkPublished(_, _, _) => Mark(st, a)
    case MarkRetry(_, _, _, _, _, _) => Mark(st, a)
    case MarkDead(_, _, _, _, _) => Mark(st, a)
    case Reclaim(picked, sweep, now) =>
      if exists id | id in picked :: id !in st.rows || !Stale(st.rows[id], sweep, now) then st
      else st.(rows := ReclaimRows(st.rows, picked, sweep, now), log := st.log + ReclaimLog(st.rows, picked, sweep))
    case CleanupPublished(picked, cutoff) =>
      if exists id | id in picked :: id !in st.rows || !st.rows[id].status.Published?
                                     || st.rows[id].publishedAt.None? || st.rows[id].publishedAt.value >= cutoff then st
      else st.(rows := st.rows - picked)
    case CleanupDead(picked, cutoff) =>
      if exists id | id in picked :: id !in st.rows || !st.rows[id].status.Dead?
                                     || st.rows[id].deadAt.None? || st.rows[id].deadAt.value >= cutoff then st
      else st.(rows := st.rows - picked)
  }

  function Run(st: State, acts: seq<Action>): State
    decreases |acts|
  {
    if acts == [] then st else Run(Step(st, acts[0]), acts[1..])
  }

  // ------------------------------------------------------------------
  // Every grant is settled at most once
  // ------------------------------------------------------------------

  ghost predicate Settled(log: seq<Settlement>, id: Id, lease: Lease) {
    exists i | 0 <= i < |log| :: log[i].id == id && log[i].lease == lease
  }

  ghost predicate NoneTwice(log: seq<Settlement>) {
    forall i, j | 0 <= i < j < |log| :: log[i].id != log[j].id || log[i].lease != log[j].lease
  }

  ghost predicate Inv(st: State) {
    && (forall id | id in st.rows && st.rows[id].status.Claiming? ::
          && st.rows[id].lease.Some?
          && (id, st.rows[id].lease.value) in st.grants
          && !Settled(st.log, id, st.rows[id].lease.value))
    && (forall id, lease | (id, lease) in st.grants :: lease in st.leases)
    && (forall i | 0 <= i < |st.log| :: (st.log[i].id, st.log[i].lease) in st.grants)
    && NoneTwice(st.log)
  }

  lemma SettledLater(first: Settlement, rest: seq<Settlement>, id: Id, lease: Lease)
    requires Settled(rest, id, lease)
    ensures Settled([first] + rest, id, lease)
  {
    var i :| 0 <= i < |rest| && rest[i].id == id && rest[i].lease == lease;
    assert ([first] + rest)[i + 1] == rest[i];
  }

  /** The sweep settles each picked row once, under the lease it holds. */
  lemma {:induction false} ReclaimLogIs(rows: map<Id, Row>, picked: set<Id>, s: Sweep)
    requires forall id | id in picked :: id in rows && rows[id].lease.Some?
    ensures var log := ReclaimLog(rows, picked, s);
            && (forall i | 0 <= i < |log| :: log[i].id in picked && log[i].lease == rows[log[i].id].lease.value && log[i].settler == ByReclaim)
            && (forall i, j | 0 <= i < j < |log| :: log[i].id != log[j].id)
            && (forall id | id in picked :: Settled(log, id, rows[id].lease.value))
    decreases picked
  {
    if picked != {} {
      var id := Least(picked);
      ReclaimLogIs(rows, picked - {id}, s);
      var rest, log := ReclaimLog(rows, picked - {id}, s), ReclaimLog(rows, picked, s);
      assert log == [log[0]] + rest && log[0].id == id && log[0].lease == rows[id].lease.value;
      forall x | x in picked ensures Settled(log, x, rows[x].lease.value) {
        if x != id {
          SettledLater(log[0], rest, x, rows[x].lease.value);
        }
      }
    }
  }

  lemma StepKeeps(st: State, a: Action)
    requires Inv(st)
    ensures Inv(Step(st, a))
  {
    match a
    case Write(_, _) =>
    case Claim(lease, picked, now) => ClaimKeeps(st, a);
    case MarkPublished(_, _, _) => MarkKeeps(st, a);
    case MarkRetry(_, _, _, _, _, _) => MarkKeeps(st, a);
    case MarkDead(_, _, _, _, _) => MarkKeeps(st, a);
    case Reclaim(picked, sweep, now) => ReclaimKeeps(st, a);
    case CleanupPublished(_, _) =>
    case CleanupDead(_, _) =>
  }

  lemma ClaimKeeps(st: State, a: Action)
    requires Inv(st) && a.Claim?
    ensures Inv(Step(st, a))
  {
    var st' := Step(st, a);
    forall id | id in st'.rows && st'.rows[id].status.Claiming?
      ensures st'.rows[id].lease.Some? && (id, st'.rows[id].lease.value) in st'.grants
      ensures !Settled(st'.log, id, st'.rows[id].lease.value)
    {
    }
  }

  lemma MarkKeeps(st: State, a: Action)
    requires Inv(st) && (a.MarkPublished? || a.MarkRetry? || a.MarkDead?)
    ensures Inv(Mark(st, a))
  {
    var st' := Mark(st, a);
    forall id | id in st'.rows && st'.rows[id].status.Claiming?
      ensures !Settled(st'.log, id, st'.rows[id].lease.value)
    {
    }
  }

  lemma ReclaimKeeps(st: State, a: Action)
    requires Inv(st) && a.Reclaim?
    ensures Inv(Step(st, a))
  {
    if forall id | id in a.picked :: id in st.rows && Stale(st.rows[id], a.sweep, a.now) {
      var st' := Step(st, a);
      var log := ReclaimLog(st.rows, a.picked, a.sweep);
      ReclaimLogIs(st.rows, a.picked, a.sweep);
      assert st'.log == st.log + log;
      forall id | id in st'.rows && st'.rows[id].status.Claiming?
        ensures !Settled(st'.log, id, st'.rows[id].lease.value)
      {
        assert id !in a.picked && st'.rows[id] == st.rows[id];
      }
      forall i, j | 0 <= i < j < |st'.log| ensures st'.log[i].id != st'.log[j].id || st'.log[i].lease != st'.log[j].lease {
        if i < |st.log| <= j {
          assert !Settled(st.log, st'.log[j].id, st'.log[j].lease);
        }
      }
    }
  }

  lemma {:induction false} RunKeeps(st: State, acts: seq<Action>)
    requires Inv(st)
    ensures Inv(Run(st, acts))
    decreases |acts|
  {
    if acts != [] {
      StepKeeps(st, acts[0]);
      RunKeeps(Step(st, acts[0]), acts[1..]);
    }
  }

  /** Over every run each (row, lease) grant is settled at most once, by whichever of the
      three marks or the sweep, and only what was granted is settled. */
  lemma GrantsSettledOnce(acts: seq<Action>)
    ensures var st := Run(Init, acts);
            NoneTwice(st.log) && forall i | 0 <= i < |st.log| :: (st.log[i].id, st.log[i].lease) in st.grants
  {
    RunKeeps(Init, acts);
  }

  /** A worker whose grant was settled by anybody, or never made, changes nothing. */
  lemma LostLeaseIsInert(acts: seq<Action>, a: Action)
    requires a.MarkPublished? || a.MarkRetry? || a.MarkDead?
    requires var st := Run(Init, acts); Settled(st.log, a.id, a.lease) || (a.id, a.lease) !in st.grants
    ensures Step(Run(Init, acts), a) == Run(Init, acts)
  {
    RunKeeps(Init, acts);
  }

  // ------------------------------------------------------------------
  // Published and dead rows
  // ------------------------------------------------------------------

  /** Not from before the cutoff. */
  ghost predicate Recent(at: Option<Time>, cutoff: Time) {
    at == None || cutoff <= at.value
  }

  /** A final row is never changed, and only a cleanup of its own kind that picks it, with a cutoff
      after it, removes it. */
  lemma {:induction false} FinalRowsStay(st: State, acts: seq<Action>, id: Id)
    requires id in st.rows && (st.rows[id].status.Published? || st.rows[id].status.Dead?)
    requires forall i | 0 <= i < |acts| ::
               if st.rows[id].status.Published? then acts[i].CleanupPublished? ==> id !in acts[i].picked || Recent(st.rows[id].publishedAt, acts[i].cutoff)
               else acts[i].CleanupDead? ==> id !in acts[i].picked || Recent(st.rows[id].deadAt, acts[i].cutoff)
    ensures id in Run(st, acts).rows && Run(st, acts).rows[id] == st.rows[id]
    decreases |acts|
  {
    if acts != [] {
      var next := Step(st, acts[0]);
      assert id in next.rows && next.rows[id] == st.rows[id];
      FinalRowsStay(next, acts[1..], id);
    }
  }

  // ------------------------------------------------------------------
  // A row that is only claimed and abandoned
  // ------------------------------------------------------------------

  /** The delays the sweeps gave the row, in order. */
  function Delays(log: seq<Settlement>, id: Id): seq<Option<int>> {
    if log == [] then []
    else Delays(log[..|log| - 1], id) + if log[|log| - 1].id == id then [log[|log| - 1].delay] else []
  }

  /** No worker marks the row and no cleanup removes it; every sweep uses the settings `s`. */
  ghost predicate Abandons(acts: seq<Action>, id: Id, s: Sweep) {
    forall i | 0 <= i < |acts| ::
      && (acts[i].MarkPublished? || acts[i].MarkRetry? || acts[i].MarkDead? ==> acts[i].id != id)
      && (acts[i].CleanupDead? ==> id !in acts[i].picked)
      && (acts[i].Reclaim? ==> acts[i].sweep == s)
  }

  /** The reclaim that finishes the row off: the maxAttempts-th, or the first if that is less. */
  function LastAttempt(s: Sweep): int {
    Max(s.maxAttempts, 1)
  }

  /** What k reclaims of an abandoned row have to record. */
  function ExpectedDelays(s: Sweep, k: nat): seq<Option<int>> {
    seq(k, i requires 0 <= i < k => if i + 1 < LastAttempt(s) then Some(Backoff(s, i + 1)) else None)
  }

  ghost predicate AfterReclaims(st: State, id: Id, s: Sweep, k: nat) {
    && id in st.rows
    && st.rows[id].attempts == k
    && k <= LastAttempt(s)
    && (k < LastAttempt(s) ==> st.rows[id].status.Pending? || st.rows[id].status.Claiming?)
    && (k == LastAttempt(s) ==> st.rows[id].status.Dead?)
  }

  lemma {:induction false} DelaysAppend(log: seq<Settlement>, more: seq<Settlement>, id: Id)
    ensures Delays(log + more, id) == Delays(log, id) + Delays(more, id)
    decreases |more|
  {
    if more == [] {
      assert log + more == log;
    } else {
      var init := more[..|more| - 1];
      assert (log + more)[..|log + more| - 1] == log + init;
      DelaysAppend(log, init, id);
    }
  }

  lemma {:induction false} SweepDelays(rows: map<Id, Row>, picked: set<Id>, s: Sweep, id: Id)
    requires forall x | x in picked :: x in rows && rows[x].lease.Some?
    ensures Delays(ReclaimLog(rows, picked, s), id)
            == if id !in picked then []
               else [if Exhausted(rows[id], s) then None else Some(Backoff(s, rows[id].attempts + 1))]
    decreases picked
  {
    if picked != {} {
      var x := Least(picked);
      var log, rest := ReclaimLog(rows, picked, s), ReclaimLog(rows, picked - {x}, s);
      SweepDelays(rows, picked - {x}, s, id);
      DelaysAppend([log[0]], rest, id);
      assert log == [log[0]] + rest;
      assert [log[0]][..0] == [];
      assert Delays([log[0]], id) == Delays([], id) + if log[0].id == id then [log[0].delay] else [];
    }
  }

  /** An abandoned row has as many attempts as reclaims, is dead exactly from the
      LastAttempt-th reclaim on, and was given the expected delays before it. */
  lemma {:induction false} AbandonedRow(st: State, acts: seq<Action>, id: Id, s: Sweep, k: nat)
    requires Inv(st) && AfterReclaims(st, id, s, k) && Abandons(acts, id, s)
    requires Delays(st.log, id) == ExpectedDelays(s, k)
    ensures var end := Run(st, acts);
            && AfterReclaims(end, id, s, |Delays(end.log, id)|)
            && Delays(end.log, id) == ExpectedDelays(s, |Delays(end.log, id)|)
    decreases |acts|
  {
    if acts != [] {
      var a, next := acts[0], Step(st, acts[0]);
      StepKeeps(st, a);
      var k' := AbandonedStep(st, a, id, s, k);
      AbandonedRow(next, acts[1..], id, s, k');
    }
  }

  lemma AbandonedStep(st: State, a: Action, id: Id, s: Sweep, k: nat) returns (k': nat)
    requires Inv(st) && AfterReclaims(st, id, s, k) && Abandons([a], id, s)
    requires Delays(st.log, id) == ExpectedDelays(s, k)
    ensures AfterReclaims(Step(st, a), id, s, k') && Delays(Step(st, a).log, id) == ExpectedDelays(s, k')
  {
    assert a == [a][0];
    k' := k;
    if a.MarkPublished? || a.MarkRetry? || a.MarkDead? {
      MarkElsewhere(st, a, id);
    } else if a.Reclaim? {
      k' := AbandonedReclaim(st, a, id, s, k);
    }
  }

  lemma AbandonedReclaim(st: State, a: Action, id: Id, s: Sweep, k: nat) returns (k': nat)
    requires AfterReclaims(st, id, s, k) && a.Reclaim? && a.sweep == s
    requires Delays(st.log, id) == ExpectedDelays(s, k)
    ensures AfterReclaims(Step(st, a), id, s, k') && Delays(Step(st, a).log, id) == ExpectedDelays(s, k')
  {
    k' := k;
    if forall x | x in a.picked :: x in st.rows && Stale(st.rows[x], s, a.now) {
      ReclaimAttempts(st, a, id, s, k);
      ReclaimDelays(st, a, id, s, k);
      if id in a.picked {
        k' := k + 1;
      }
    }
  }

  lemma ReclaimAttempts(st: State, a: Action, id: Id, s: Sweep, k: nat)
    requires AfterReclaims(st, id, s, k) && a.Reclaim? && a.sweep == s
    requires forall x | x in a.picked :: x in st.rows && Stale(st.rows[x], s, a.now)
    ensures AfterReclaims(Step(st, a), id, s, if id in a.picked then k + 1 else k)
  {
  }

  lemma ReclaimDelays(st: State, a: Action, id: Id, s: Sweep, k: nat)
    requires id in st.rows && st.rows[id].attempts == k && a.Reclaim? && a.sweep == s
    requires forall x | x in a.picked :: x in st.rows && Stale(st.rows[x], s, a.now)
    requires Delays(st.log, id) == ExpectedDelays(s, k)
    ensures Delays(Step(st, a).log, id) == ExpectedDelays(s, if id in a.picked then k + 1 else k)
  {
    DelaysAppend(st.log, ReclaimLog(st.rows, a.picked, s), id);
    SweepDelays(st.rows, a.picked, s, id);
    OneMoreDelay(s, k);
  }

  lemma OneMoreDelay(s: Sweep, k: nat)
    ensures ExpectedDelays(s, k + 1)
         == ExpectedDelays(s, k) + [if k + 1 >= s.maxAttempts then None else Some(Backoff(s, k + 1))]
  {
  }

  lemma MarkElsewhere(st: State, a: Action, id: Id)
    requires a.MarkPublished? || a.MarkRetry? || a.MarkDead?
    requires a.id != id
    ensures Delays(Mark(st, a).log, id) == Delays(st.log, id)
  {
    if Holds(st.rows, a.id, a.lease) {
      var e := Settlement(a.id, a.lease, SettlerOf(a), None);
      assert (st.log + [e])[..|st.log|] == st.log;
    }
  }

  /** From a row just written: dead after exactly LastAttempt reclaims, not before. */
  lemma AbandonedRowDies(st: State, acts: seq<Action>, id: Id, now: Time, s: Sweep)
    requires Inv(st) && id !in st.rows && Delays(st.log, id) == [] && Abandons(acts, id, s)
    ensures var end := Run(Step(st, Write(id, now)), acts);
            && id in end.rows
            && |Delays(end.log, id)| <= LastAttempt(s)
            && (end.rows[id].status.Dead? <==> |Delays(end.log, id)| == LastAttempt(s))
            && Delays(end.log, id) == ExpectedDelays(s, |Delays(end.log, id)|)
  {
    var next := Step(st, Write(id, now));
    StepKeeps(st, Write(id, now));
    assert ExpectedDelays(s, 0) == [];
    AbandonedRow(next, acts, id, s, 0);
  }

  /** Retry delays never shrink and never exceed the cap. */
  lemma {:induction false} BackoffGrows(s: Sweep, j: nat, k: nat)
    requires s.baseDelay >= 0 && j <= k
    ensures Backoff(s, j) <= Backoff(s, k) <= s.maxDelay
    decreases k
  {
    if j < k {
      BackoffGrows(s, j, k - 1);
      Doubles(s.baseDelay, Power2(k - 1));
    }
  }

  lemma Doubles(b: int, p: int)
    requires b >= 0 && p >= 0
    ensures b * (2 * p) == 2 * (b * p) && b * p >= 0
  {
  }
}
