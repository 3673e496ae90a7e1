/** Append and Tail as the store executes them, statement by statement, in a transaction
    that is not interrupted between its statements. */
module LedgerStore {
  import opened AuditVerify
  import opened AuditLedger

  /** Waiting: another transaction holds the chain's lock. */
  datatype Appended = Waiting | Duplicate | Appended(seqNo: int, entry: Entry)

  /** An empty chain reports 0, "" and 0. */
  datatype TailSnapshot = TailSnapshot(seqNo: int, hash: string, count: int)

  lemma {:induction false} RunAppend(cfg: Config, db: Db, acts: seq<Action>, a: Action)
    ensures Run(cfg, db, acts + [a]) == Step(cfg, Run(cfg, db, acts), a)
    decreases |acts|
  {
    if acts != [] {
      assert (acts + [a])[1..] == acts[1..] + [a];
      RunAppend(cfg, Step(cfg, db, acts[0]), acts[1..], a);
    }
  }

  /** The times are the last whole microseconds not after those sent; all else is as sent. */
  ghost predicate CutToMicros(sent: Fields, stored: Fields) {
    && stored == sent.(occurredAt := stored.occurredAt, timestamp := stored.timestamp)
    && stored.occurredAt % 1000 == 0 && 0 <= sent.occurredAt - stored.occurredAt < 1000
    && stored.timestamp % 1000 == 0 && 0 <= sent.timestamp - stored.timestamp < 1000
  }

  lemma StoredIsCut(f: Fields)
    ensures CutToMicros(f, Stored(f))
  {
  }

  /** The chain a transaction sees is well formed in every reachable state. */
  lemma VisibleChain(cfg: Config, acts: seq<Action>, t: TxId, chain: ChainId)
    requires t in Run(cfg, Init, acts).txs
    ensures var db := Run(cfg, Init, acts);
            WellFormed(cfg.hash(chain.namespace), Visible(db.committed, db.txs[t], chain))
  {
    RunKeeps(cfg, Init, acts);
    var db := Run(cfg, Init, acts);
    assert ChainOk(cfg, db.committed, db.txs[t], chain);
  }

  /** After the tail was read the position is the next one and nothing is in the way of the row. */
  lemma TailReady(cfg: Config, acts: seq<Action>, t: TxId)
    requires var db := Run(cfg, Init, acts); t in db.txs && db.txs[t].pc.Tailed?
    ensures var db := Run(cfg, Init, acts);
            var pc := db.txs[t].pc;
            var m := Visible(db.committed, db.txs[t], pc.chain);
            && pc.seqNo == |m| + 1 && pc.prevHash == PrevHash(m, |m| + 1)
            && Insertable(db, pc.chain, pc.seqNo, pc.fields.eventId)
  {
    RunKeeps(cfg, Init, acts);
    InsertNeverConflicts(cfg, Run(cfg, Init, acts), t);
  }

  class Store {
    const cfg: Config
    var db: Db
    ghost var history: seq<Action>

    constructor (cfg: Config)
      ensures Valid() && this.cfg == cfg && db == Init
    {
      this.cfg := cfg;
      db, history := Init, [];
    }

    ghost predicate Valid()
      reads this
    {
      db == Run(cfg, Init, history)
    }

    method Perform(a: Action)
      requires Valid()
      modifies this
      ensures Valid() && db == Step(cfg, old(db), a)
    {
      RunAppend(cfg, Init, history, a);
      db, history := Step(cfg, db, a), history + [a];
    }

    /** The INSERT itself, which the lock keeps from conflicting. */
    method InsertRow(t: TxId)
      requires Valid() && t in db.txs && db.txs[t].pc.Tailed?
      requires var pc := db.txs[t].pc; Insertable(db, pc.chain, pc.seqNo, pc.fields.eventId)
      modifies this
      ensures Valid() && t in db.txs && db.committed == old(db.committed) && db.txs[t] == Inserted(cfg, old(db.txs[t]))
    {
      Perform(Insert(t));
    }

    /** The SELECT of the tail row. */
    method ReadLast(t: TxId)
      requires Valid() && t in db.txs && db.txs[t].pc.Checked?
      modifies this
      ensures Valid() && t in db.txs && db.committed == old(db.committed)
      ensures var was, tx := old(db.txs[t]), db.txs[t];
              && tx == was.(pc := tx.pc) && tx.pc.Tailed?
              && tx.pc.chain == was.pc.chain && tx.pc.fields == was.pc.fields && tx.pc.traceId == was.pc.traceId
    {
      Perform(ReadTail(t));
    }

    /** Steps 5 to 7 of Append: number the entry, hash it onto the tail, insert it. */
    method InsertAtTail(t: TxId) returns (seqNo: int, entry: Entry)
      requires Valid() && t in db.txs && db.txs[t].pc.Checked?
      modifies this
      ensures Valid() && t in db.txs && db.committed == old(db).committed
      ensures var pc := old(db).txs[t].pc;
              var m := Visible(old(db).committed, old(db).txs[t], pc.chain);
              && seqNo == |m| + 1
              && entry == Entry(pc.fields, pc.traceId, PrevHash(m, |m| + 1),
                                cfg.hash(pc.chain.namespace)(PrevHash(m, |m| + 1), pc.fields))
              && Visible(db.committed, db.txs[t], pc.chain)
                 == m[seqNo := Record(pc.fields, entry.(fields := Stored(pc.fields)))]
    {
      ReadLast(t);
      var pc := db.txs[t].pc;
      seqNo, entry := pc.seqNo, NewRecord(cfg, pc).entry.(fields := pc.fields);
      TailReady(cfg, history, t);
      VisibleAfterInsert(cfg, db.committed, db.txs[t], pc.chain);
      InsertRow(t);
    }

    /** The caller's entry is numbered and hashed as it is; the row has its times cut to
        microseconds, so it can be verified if there was nothing to cut. Only an entry with the very
        same event id makes it a duplicate. */
    method Append(t: TxId, chain: ChainId, fields: Fields, traceId: string) returns (r: Appended)
      requires Valid() && t in db.txs && db.txs[t].pc.Idle? && chain.tenant == fields.tenantId
      modifies this
      ensures Valid() && t in db.txs && db.committed == old(db).committed
      ensures r == Waiting <==> exists u | u in old(db).txs :: u != t && cfg.lockKey(chain) in old(db).txs[u].locks
      ensures r == Waiting ==> db == old(db)
      ensures var m := Visible(old(db).committed, old(db).txs[t], chain);
              r == Duplicate <==> r != Waiting && exists p | p in m :: m[p].entry.fields.eventId == fields.eventId
      ensures r == Duplicate ==> db.txs[t].own == old(db).txs[t].own
      ensures CutToMicros(fields, Stored(fields))
      ensures var m := Visible(old(db).committed, old(db).txs[t], chain);
              r.Appended? ==>
                && r.seqNo == |m| + 1
                && r.entry.fields == fields && r.entry.traceId == traceId
                && (m == map[] ==> r.entry.prevHash == "")
                && (m != map[] ==> |m| in m && r.entry.prevHash == m[|m|].entry.hash)
                && r.entry.hash == cfg.hash(chain.namespace)(r.entry.prevHash, fields)
                && Visible(db.committed, db.txs[t], chain)
                   == m[r.seqNo := Record(fields, r.entry.(fields := Stored(fields)))]
    {
      VisibleChain(cfg, history, t, chain);
      r := AppendAtTail(t, chain, fields, traceId);
      StoredIsCut(fields);
    }

    method AppendAtTail(t: TxId, chain: ChainId, fields: Fields, traceId: string) returns (r: Appended)
      requires Valid() && t in db.txs && db.txs[t].pc.Idle? && chain.tenant == fields.tenantId
      modifies this
      ensures Valid() && t in db.txs && db.committed == old(db).committed
      ensures var m := Visible(old(db).committed, old(db).txs[t], chain);
              if !LockFree(old(db), t, cfg.lockKey(chain)) then r == Waiting && db == old(db)
              else if HasEvent(m, fields.eventId) then r == Duplicate && db.txs[t].own == old(db).txs[t].own
              else && r.Appended?
                   && r.seqNo == |m| + 1
                   && r.entry == Entry(fields, traceId, PrevHash(m, |m| + 1),
                                       cfg.hash(chain.namespace)(PrevHash(m, |m| + 1), fields))
                   && Visible(db.committed, db.txs[t], chain)
                      == m[r.seqNo := Record(fields, r.entry.(fields := Stored(fields)))]
    {
      Perform(Lock(t, chain, fields, traceId));
      if db.txs[t].pc.Idle? {
        return Waiting;
      }
      Perform(CheckFingerprint(t));
      if db.txs[t].pc.Idle? {
        return Duplicate;
      }
      var seqNo, entry := InsertAtTail(t);
      r := Appended(seqNo, entry);
    }

    /** Highest seq_no, its hash and the row count; in every reachable state the count is
        the highest seq_no. */
    method Tail(t: TxId, chain: ChainId) returns (r: TailSnapshot)
      requires Valid() && t in db.txs
      ensures var m := Visible(db.committed, db.txs[t], chain);
              && r == TailSnapshot(|m|, PrevHash(m, |m| + 1), |m|)
              && (m == map[] ==> r.hash == "") && (m != map[] ==> |m| in m && r.hash == m[|m|].entry.hash)
    {
      var m := Visible(db.committed, db.txs[t], chain);
      VisibleChain(cfg, history, t, chain);
      TailIsLast(cfg.hash(chain.namespace), m, |m|);
      if m == map[] {
        return TailSnapshot(0, "", 0);
      }
      var p :| p in m && IsTail(m, p);
      TailIsLast(cfg.hash(chain.namespace), m, p);
      r := TailSnapshot(p, m[p].entry.hash, |m|);
    }
  }
}
