/** The store's operations, adapters/postgres/outbox_store.go:200-344, over the lease machine. */
module OutboxStore {
  import opened Collections
  import opened Options
  import opened Outbox

  /** ORDER BY next_retry_at NULLS FIRST, created_at, id. */
  predicate Before(rows: map<Id, Row>, x: Id, y: Id)
    requires x in rows && y in rows
  {
    var a, b := rows[x], rows[y];
    if a.nextRetryAt != b.nextRetryAt then
      a.nextRetryAt.None? || (b.nextRetryAt.Some? && a.nextRetryAt.value < b.nextRetryAt.value)
    else if a.createdAt != b.createdAt then a.createdAt < b.createdAt
    else x < y
  }

  /** `picked` is the head of the claim order among the rows in `from`, at most `limit` of them. */
  ghost predicate IsHead(rows: map<Id, Row>, from: set<Id>, limit: nat, picked: seq<Id>)
    requires forall id | id in from :: id in rows
  {
    && (forall i | 0 <= i < |picked| :: picked[i] in from)
    && (forall i, j | 0 <= i < j < |picked| :: Before(rows, picked[i], picked[j]))
    && (forall i, y | 0 <= i < |picked| && y in from && y !in picked :: Before(rows, picked[i], y))
    && |picked| <= limit
    && (|picked| < limit ==> forall y | y in from :: y in picked)
  }

  lemma {:induction false} RunAppend(st: State, acts: seq<Action>, a: Action)
    ensures Run(st, acts + [a]) == Step(Run(st, acts), a)
    decreases |acts|
  {
    if acts == [] {
      assert acts + [a] == [a] && [a][1..] == [];
    } else {
      assert (acts + [a])[1..] == acts[1..] + [a];
      RunAppend(Step(st, acts[0]), acts[1..], a);
    }
  }

  /** The row that sorts first. */
  method First(rows: map<Id, Row>, from: set<Id>) returns (first: Id)
    requires from != {} && forall id | id in from :: id in rows
    ensures first in from && forall y | y in from && y != first :: Before(rows, first, y)
  {
    first :| first in from;
    var rest := from - {first};
    while rest != {}
      invariant first in from && first !in rest && rest <= from
      invariant forall y | y in from && y !in rest && y != first :: Before(rows, first, y)
      decreases rest
    {
      var id :| id in rest;
      rest := rest - {id};
      if Before(rows, id, first) {
        first := id;
      }
    }
  }

  /** ORDER BY … LIMIT. */
  method PickHead(rows: map<Id, Row>, from: set<Id>, limit: nat) returns (picked: seq<Id>)
    requires forall id | id in from :: id in rows
    ensures IsHead(rows, from, limit, picked)
  {
    var rest := from;
    picked := [];
    while |picked| < limit && rest != {}
      invariant rest <= from && |picked| <= limit
      invariant forall y | y in from :: y in rest <==> y !in picked
      invariant forall i | 0 <= i < |picked| :: picked[i] in from
      invariant forall i, j | 0 <= i < j < |picked| :: Before(rows, picked[i], picked[j])
      invariant forall i, y | 0 <= i < |picked| && y in rest :: Before(rows, picked[i], y)
      decreases rest
    {
      var first := First(rows, rest);
      picked := picked + [first];
      rest := rest - {first};
    }
  }

  // ------------------------------------------------------------------
  // In columns
  // ------------------------------------------------------------------

  /** Pending, and with no retry time or one that has come. */
  ghost predicate Due(r: Row, now: Time) {
    r.status == Pending && (r.nextRetryAt == None || r.nextRetryAt.value <= now)
  }

  /** Rows without a retry time first, then the earlier retry time, the older row, the lower id. */
  ghost predicate Precedes(rows: map<Id, Row>, x: Id, y: Id)
    requires x in rows && y in rows
  {
    var a, b := rows[x], rows[y];
    || (a.nextRetryAt == None && b.nextRetryAt != None)
    || (a.nextRetryAt != None && b.nextRetryAt != None && a.nextRetryAt.value < b.nextRetryAt.value)
    || (a.nextRetryAt == b.nextRetryAt && (a.createdAt < b.createdAt || (a.createdAt == b.createdAt && x < y)))
  }

  /** The first due rows that nobody has locked; when there are fewer than asked for, all of them. */
  ghost predicate Chosen(rows: map<Id, Row>, locked: set<Id>, limit: nat, now: Time, entries: seq<Id>) {
    && |entries| <= limit
    && (forall i | 0 <= i < |entries| :: entries[i] in rows && entries[i] !in locked && Due(rows[entries[i]], now))
    && (forall i, j | 0 <= i < j < |entries| :: Precedes(rows, entries[i], entries[j]))
    && (forall id | id in rows && id !in locked && Due(rows[id], now) && id !in entries ::
          |entries| == limit && forall i | 0 <= i < |entries| :: Precedes(rows, entries[i], id))
  }

  lemma HeadIsChosen(rows: map<Id, Row>, locked: set<Id>, limit: nat, now: Time, entries: seq<Id>)
    requires IsHead(rows, (set id | id in rows && Claimable(rows[id], now) && id !in locked), limit, entries)
    ensures Chosen(rows, locked, limit, now, entries)
  {
    var free := set id | id in rows && Claimable(rows[id], now) && id !in locked;
    assert forall x, y | x in free && y in free :: Before(rows, x, y) ==> Precedes(rows, x, y);
  }

  /** A claim that has outlived its time to live. */
  ghost predicate Overdue(r: Row, ttl: int, now: Time) {
    r.status == Claiming && r.claimedAt != None && r.claimedAt.value + ttl < now
  }

  ghost function OverdueRows(rows: map<Id, Row>, ttl: int, locked: set<Id>, now: Time): set<Id> {
    set id | id in rows && Overdue(rows[id], ttl, now) && id !in locked
  }

  function StaleRows(rows: map<Id, Row>, sweep: Sweep, locked: set<Id>, now: Time): set<Id> {
    set id | id in rows && Stale(rows[id], sweep, now) && id !in locked
  }

  /** The rows claimed first, all of them if there are fewer than the limit. */
  ghost predicate FirstClaimed(rows: map<Id, Row>, from: set<Id>, limit: nat, picked: set<Id>)
    requires forall id | id in from :: id in rows && rows[id].claimedAt.Some?
  {
    && picked <= from && |picked| <= limit && (|picked| < limit ==> picked == from)
    && forall x, y | x in picked && y in from - picked :: rows[x].claimedAt.value <= rows[y].claimedAt.value
  }

  /** The delay doubled once per attempt. */
  function Doubled(delay: int, attempts: nat): int
    decreases attempts
  {
    if attempts == 0 then delay else Doubled(2 * delay, attempts - 1)
  }

  lemma {:induction false} DoubledIsPower(delay: int, attempts: nat)
    ensures Doubled(delay, attempts) == delay * Power2(attempts)
    decreases attempts
  {
    if attempts > 0 {
      DoubledIsPower(2 * delay, attempts - 1);
    }
  }

  class Store {
    var st: State
    ghost var history: seq<Action>

    ghost predicate Valid()
      reads this
    {
      st == Run(Init, history)
    }

    constructor ()
      ensures Valid() && st == Init
    {
      st := Init;
      history := [];
    }

    /** One statement, by this process or another. */
    method Perform(a: Action)
      requires Valid()
      modifies this
      ensures Valid() && st == Step(old(st), a) && history == old(history) + [a]
    {
      RunAppend(Init, history, a);
      st := Step(st, a);
      history := history + [a];
    }

    /** A new entry is pending and due at once. */
    method Write(id: Id, now: Time) returns (added: bool)
      requires Valid()
      modifies this
      ensures Valid()
      ensures added <==> id !in old(st.rows)
      ensures !added ==> st == old(st)
      ensures added ==> st == old(st).(rows := old(st.rows)[id := Row(Pending, 0, now, None, None, None, None, None, "")])
      ensures added ==> forall t :: Due(st.rows[id], t)
    {
      added := id !in st.rows;
      Perform(Outbox.Write(id, now));
    }

    /** Claims the first due rows that no other transaction has locked, and returns them in claim
        order. */
    method ClaimPending(batchSize: nat, lease: Lease, locked: set<Id>, now: Time) returns (entries: seq<Id>)
      requires Valid() && lease !in st.leases
      modifies this
      ensures Valid()
      ensures Chosen(old(st.rows), locked, batchSize, now, entries)
      ensures st.rows.Keys == old(st.rows).Keys
      ensures forall id | id in st.rows ::
                st.rows[id] == if id in entries then old(st.rows)[id].(status := Claiming, claimedAt := Some(now), lease := Some(lease))
                               else old(st.rows)[id]
      ensures st.grants == old(st.grants) + set id | id in entries :: (id, lease)
      ensures st.log == old(st.log)
    {
      var free := set id | id in st.rows && Claimable(st.rows[id], now) && id !in locked;
      entries := PickHead(st.rows, free, batchSize);
      HeadIsChosen(st.rows, locked, batchSize, now, entries);
      var picked := set id | id in entries;
      Perform(Claim(lease, picked, now));
      assert (set id | id in entries :: (id, lease)) == set id | id in picked :: (id, lease);
    }

    /** A written entry is claimed by the next claim with room for it, at any time, unless it is locked. */
    method ClaimWritten(id: Id, at: Time, lease: Lease, locked: set<Id>, now: Time) returns (entries: seq<Id>)
      requires Valid() && lease !in st.leases && id !in st.rows && id !in locked
      modifies this
      ensures Valid() && id in entries && id in st.rows && st.rows[id].status.Claiming? && st.rows[id].lease == Some(lease)
    {
      var _ := Write(id, at);
      entries := ClaimPending(|st.rows| + 1, lease, locked, now);
      FewerThanRows(old(st.rows).Keys + {id}, entries);
    }

    /** The caller's grant is still open: the row is claimed under its lease. */
    ghost predicate Open(rows: map<Id, Row>, id: Id, lease: Lease) {
      id in rows && rows[id].status == Claiming && rows[id].lease == Some(lease)
    }

    /** Publishing settles the caller's grant if it is still open; otherwise nothing changes. */
    method MarkPublished(id: Id, lease: Lease, now: Time) returns (updated: bool)
      requires Valid()
      modifies this
      ensures Valid()
      ensures updated <==> Open(old(st.rows), id, lease)
      ensures !updated ==> st == old(st)
      ensures updated ==>
                && st.rows == old(st.rows)[id := old(st.rows)[id].(status := Published, publishedAt := Some(now))]
                && st.log == old(st.log) + [Settlement(id, lease, ByPublish, None)] && st.grants == old(st.grants)
      ensures Settled(old(st.log), id, lease) ==> !updated
    {
      updated := Settle(Outbox.MarkPublished(id, lease, now));
    }

    /** A delay that is not positive makes the row due at once. */
    method MarkRetry(id: Id, lease: Lease, attempts: nat, delay: int, error: string, now: Time) returns (updated: bool)
      requires Valid()
      modifies this
      ensures Valid()
      ensures updated <==> Open(old(st.rows), id, lease)
      ensures !updated ==> st == old(st)
      ensures updated ==>
                && st.rows == old(st.rows)[id := old(st.rows)[id].(
                     status := Pending, attempts := attempts, nextRetryAt := Some(if delay > 0 then now + delay else now),
                     lastError := error, lease := None)]
                && st.log == old(st.log) + [Settlement(id, lease, ByRetry, None)] && st.grants == old(st.grants)
      ensures updated ==> forall t :: Due(st.rows[id], t) <==> t >= now && t >= now + delay
      ensures Settled(old(st.log), id, lease) ==> !updated
    {
      updated := Settle(Outbox.MarkRetry(id, lease, attempts, delay, error, now));
    }

    method MarkDead(id: Id, lease: Lease, attempts: nat, error: string, now: Time) returns (updated: bool)
      requires Valid()
      modifies this
      ensures Valid()
      ensures updated <==> Open(old(st.rows), id, lease)
      ensures !updated ==> st == old(st)
      ensures updated ==>
                && st.rows == old(st.rows)[id := old(st.rows)[id].(
                     status := Dead, attempts := attempts, lastError := error, deadAt := Some(now))]
                && st.log == old(st.log) + [Settlement(id, lease, ByDead, None)] && st.grants == old(st.grants)
      ensures Settled(old(st.log), id, lease) ==> !updated
    {
      updated := Settle(Outbox.MarkDead(id, lease, attempts, error, now));
    }

    method Settle(a: Action) returns (updated: bool)
      requires Valid() && (a.MarkPublished? || a.MarkRetry? || a.MarkDead?)
      modifies this
      ensures Valid()
      ensures updated <==> Holds(old(st.rows), a.id, a.lease)
      ensures !updated ==> st == old(st)
      ensures updated ==>
                && st == old(st).(rows := old(st.rows)[a.id := Marked(old(st.rows)[a.id], a)],
                                  log := old(st.log) + [Settlement(a.id, a.lease, SettlerOf(a), None)])
      ensures Settled(old(st.log), a.id, a.lease) ==> !updated
    {
      RunKeeps(Init, history);
      updated := Holds(st.rows, a.id, a.lease);
      Perform(a);
    }

    /** Sweeps stale claims that no other transaction has locked; the counted rows are
        exactly those taken from their workers. */
    method ReclaimStale(sweep: Sweep, batchSize: nat, locked: set<Id>, now: Time) returns (count: nat)
      requires Valid()
      modifies this
      ensures Valid() && count <= batchSize
      ensures st.rows.Keys == old(st.rows).Keys
      ensures var overdue := OverdueRows(old(st.rows), sweep.ttl, locked, now);
              exists swept: set<Id> :: |swept| == count && FirstClaimed(old(st.rows), overdue, batchSize, swept) && SweptExactly(old(st), st, swept, sweep, now)
    {
      OverdueIsStale(history, sweep, locked, now);
      ghost var overdue := OverdueRows(st.rows, sweep.ttl, locked, now);
      ghost var swept;
      count, swept := SweepStale(sweep, batchSize, locked, now);
      assert |swept| == count && FirstClaimed(old(st.rows), overdue, batchSize, swept) && SweptExactly(old(st), st, swept, sweep, now);
    }

    method SweepStale(sweep: Sweep, batchSize: nat, locked: set<Id>, now: Time) returns (count: nat, ghost swept: set<Id>)
      requires Valid()
      modifies this
      ensures Valid()
      ensures var free := StaleRows(old(st.rows), sweep, locked, now);
              |swept| == count && FirstClaimed(old(st.rows), free, batchSize, swept) && SweptExactly(old(st), st, swept, sweep, now)
    {
      var free := StaleRows(st.rows, sweep, locked, now);
      var picked := PickOldest(map id | id in free :: st.rows[id].claimedAt.value, free, batchSize);
      count, swept := |picked|, picked;
      SweepIs(st, picked, sweep, now);
      Perform(Reclaim(picked, sweep, now));
    }

    /** Removes published rows from before the cutoff, up to the batch size, and nothing else. */
    method CleanupPublished(cutoff: Time, batchSize: nat) returns (count: nat)
      requires Valid()
      modifies this
      ensures Valid() && st == old(st).(rows := st.rows)
      ensures var old' := set id | id in old(st.rows) && old(st.rows)[id].status == Published
                                   && old(st.rows)[id].publishedAt != None && old(st.rows)[id].publishedAt.value < cutoff;
              exists picked: set<Id> ::
                picked <= old' && |picked| == count <= batchSize && (count < batchSize ==> picked == old') && st.rows == old(st.rows) - picked
    {
      var from := set id | id in st.rows && st.rows[id].status.Published? && st.rows[id].publishedAt.Some? && st.rows[id].publishedAt.value < cutoff;
      var picked := PickOldest(map id | id in from :: 0, from, batchSize);
      count := |picked|;
      Perform(Outbox.CleanupPublished(picked, cutoff));
    }

    method CleanupDead(cutoff: Time, batchSize: nat) returns (count: nat)
      requires Valid()
      modifies this
      ensures Valid() && st == old(st).(rows := st.rows)
      ensures var old' := set id | id in old(st.rows) && old(st.rows)[id].status == Dead
                                   && old(st.rows)[id].deadAt != None && old(st.rows)[id].deadAt.value < cutoff;
              exists picked: set<Id> ::
                picked <= old' && |picked| == count <= batchSize && (count < batchSize ==> picked == old') && st.rows == old(st.rows) - picked
    {
      var from := set id | id in st.rows && st.rows[id].status.Dead? && st.rows[id].deadAt.Some? && st.rows[id].deadAt.value < cutoff;
      var picked := PickOldest(map id | id in from :: 0, from, batchSize);
      count := |picked|;
      Perform(Outbox.CleanupDead(picked, cutoff));
    }
  }

  /** Claimed rows have a lease, so the sweep's guard on it excludes nothing. */
  lemma OverdueIsStale(acts: seq<Action>, sweep: Sweep, locked: set<Id>, now: Time)
    ensures var rows := Run(Init, acts).rows; OverdueRows(rows, sweep.ttl, locked, now) == StaleRows(rows, sweep, locked, now)
  {
    RunKeeps(Init, acts);
    var rows := Run(Init, acts).rows;
    assert forall id | id in rows :: Overdue(rows[id], sweep.ttl, now) <==> Stale(rows[id], sweep, now);
  }

  lemma FewerThanRows(ids: set<Id>, entries: seq<Id>)
    requires forall i | 0 <= i < |entries| :: entries[i] in ids
    requires forall i, j | 0 <= i < j < |entries| :: entries[i] != entries[j]
    ensures |entries| <= |ids|
    decreases |entries|
  {
    if entries != [] {
      FewerThanRows(ids - {entries[|entries| - 1]}, entries[..|entries| - 1]);
    }
  }

  /** A reclaimed row is dead with its last lease, or pending with a delay that doubles with every
      attempt up to the maximum. */
  ghost predicate Retired(r: Row, r': Row, sweep: Sweep, now: Time) {
    var n := r.attempts + 1;
    var delay := Doubled(sweep.baseDelay, n);
    r' == if n >= sweep.maxAttempts then
            r.(status := Dead, attempts := n, claimedAt := None, deadAt := Some(now), nextRetryAt := None)
          else
            r.(status := Pending, attempts := n, claimedAt := None, lease := None, deadAt := None,
               nextRetryAt := Some(now + if delay <= sweep.maxDelay then delay else sweep.maxDelay))
  }

  /** The sweep took the picked rows from their workers, settling their grants, and touched no other. */
  ghost predicate SweptExactly(before: State, after: State, picked: set<Id>, sweep: Sweep, now: Time) {
    && after.rows.Keys == before.rows.Keys
    && (forall id | id in picked ::
          && id in before.rows && before.rows[id].lease.Some?
          && Retired(before.rows[id], after.rows[id], sweep, now)
          && Settled(after.log, id, before.rows[id].lease.value))
    && (forall id | id in before.rows && id !in picked :: after.rows[id] == before.rows[id])
  }

  lemma ReclaimedIsRetired(r: Row, sweep: Sweep, now: Time)
    requires Stale(r, sweep, now)
    ensures Retired(r, Reclaimed(r, sweep, now), sweep, now)
  {
    DoubledIsPower(sweep.baseDelay, r.attempts + 1);
  }

  lemma SweepSettles(st: State, picked: set<Id>, sweep: Sweep, now: Time, id: Id)
    requires forall id | id in picked :: id in st.rows && Stale(st.rows[id], sweep, now)
    requires id in picked
    ensures Settled(Step(st, Reclaim(picked, sweep, now)).log, id, st.rows[id].lease.value)
  {
    var after, log := Step(st, Reclaim(picked, sweep, now)).log, ReclaimLog(st.rows, picked, sweep);
    ReclaimLogIs(st.rows, picked, sweep);
    var i :| 0 <= i < |log| && log[i].id == id && log[i].lease == st.rows[id].lease.value;
    assert after[|st.log| + i] == log[i];
  }

  lemma SweepIs(st: State, picked: set<Id>, sweep: Sweep, now: Time)
    requires forall id | id in picked :: id in st.rows && Stale(st.rows[id], sweep, now)
    ensures SweptExactly(st, Step(st, Reclaim(picked, sweep, now)), picked, sweep, now)
  {
    var after := Step(st, Reclaim(picked, sweep, now));
    forall id | id in picked
      ensures Retired(st.rows[id], Reclaimed(st.rows[id], sweep, now), sweep, now) && Settled(after.log, id, st.rows[id].lease.value)
    {
      ReclaimedIsRetired(st.rows[id], sweep, now);
      SweepSettles(st, picked, sweep, now, id);
    }
  }
}
