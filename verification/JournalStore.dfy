/** The journaling writer's call and the transaction around it, as executed without interruption,
    adapters/postgres/journaling_outbox_writer.go:76-163. */
module JournalStore {
  import opened Journal

  /** Waits: another transaction has written one of the ids. DuplicateKey: the server refuses the
      chunk, and the transaction is aborted. */
  datatype Answer = Stored | Waits | DuplicateKey

  lemma {:induction false} RunAppend(topics: set<Topic>, db: Db, acts: seq<Action>, a: Action)
    ensures Run(topics, db, acts + [a]) == Step(topics, Run(topics, db, acts), a)
    decreases |acts|
  {
    if acts == [] {
      assert acts + [a] == [a] && [a][1..] == [];
    } else {
      assert (acts + [a])[1..] == acts[1..] + [a];
      RunAppend(topics, Step(topics, db, acts[0]), acts[1..], a);
    }
  }

  /** Another transaction has an outbox row with one of the ids. */
  ghost predicate WrittenElsewhere(db: Db, t: TxId, ids: set<Id>) {
    exists u, id | u in db.txs && id in ids :: u != t && id in db.txs[u].now.outbox
  }

  /** The id has a position in the committed journal or in the transaction's own rows. */
  ghost predicate HasPosition(db: Db, tx: Tx, id: Id) {
    (exists p | p in db.journal :: db.journal[p] == id) || (exists p | p in tx.now.journal :: tx.now.journal[p] == id)
  }

  /** Journal rows of others are for ids of their own outbox rows. */
  lemma NotJournaledElsewhere(topics: set<Topic>, db: Db, t: TxId, id: Id)
    requires Inv(topics, db) && t in db.txs && id in db.txs[t].now.outbox
    ensures !JournalByOther(db, t, id)
  {
    forall u | u in db.txs && u != t ensures !Has(db.txs[u].now.journal, id) {
      assert PairOk(db.txs[t], db.txs[u]) && TxOk(topics, db.journal, db.nextPos, db.txs[u]);
    }
  }

  class Server {
    const topics: set<Topic>
    var db: Db
    ghost var acts: seq<Action>

    ghost predicate Valid()
      reads this
    {
      db == Run(topics, Init, acts)
    }

    constructor (topics: set<Topic>)
      ensures Valid() && this.topics == topics
      ensures db.outbox == map[] && db.journal == map[] && db.txs == map[]
    {
      this.topics := topics;
      db, acts := Init, [];
    }

    method Perform(a: Action)
      requires Valid()
      modifies this
      ensures Valid() && db == Step(topics, old(db), a)
    {
      RunAppend(topics, Init, acts, a);
      db := Step(topics, db, a);
      acts := acts + [a];
    }

    lemma Sound()
      requires Valid()
      ensures Inv(topics, db)
    {
      RunKeeps(topics, Init, acts);
    }

    /** Transaction `t` is open, can be used and has no call under way. */
    ghost predicate Ready(t: TxId)
      reads this
    {
      t in db.txs && !db.txs[t].aborted && db.txs[t].call == NoCall
    }

    method Begin(t: TxId)
      requires Valid() && t !in db.txs
      modifies this
      ensures Valid() && Ready(t) && db.txs[t].now.outbox == map[] && db.txs[t].now.journal == map[] && db.txs[t].scopes == []
      ensures db.outbox == old(db.outbox) && db.journal == old(db.journal)
    {
      Perform(Journal.Begin(t));
    }

    /** One INSERT into the outbox: waits for a transaction that has one of the ids, is refused if
        one of them is taken, and adds all rows otherwise. */
    method InsertRows(t: TxId, chunk: Outbox) returns (answer: Answer)
      requires Valid() && t in db.txs && !db.txs[t].aborted && db.txs[t].call.Calling?
      modifies this
      ensures Valid() && t in db.txs && db.(txs := old(db.txs)) == old(db)
      ensures answer == Waits <==> WrittenElsewhere(old(db), t, chunk.Keys)
      ensures answer == Waits ==> db == old(db)
      ensures answer == DuplicateKey <==>
                answer != Waits && exists id | id in chunk :: id in old(db.outbox) || id in old(db.txs[t].now.outbox)
      ensures answer == DuplicateKey ==> db.txs[t] == Tx(old(db.txs[t]).now, old(db.txs[t]).scopes, NoCall, true)
      ensures var tx := old(db.txs[t]);
              answer == Stored ==>
                db.txs[t] == Tx(tx.now.(outbox := tx.now.outbox + chunk), tx.scopes, Calling(tx.call.written + chunk.Keys, tx.call.done), false)
    {
      WrittenInKeys(db, t, chunk.Keys);
      var waits := OutboxByOther(db, t, chunk.Keys);
      Perform(InsertChunk(t, chunk));
      answer := if waits then Waits else if db.txs[t].aborted then DuplicateKey else Stored;
    }

    /** Write, on one entry: the outbox row and, on a projection topic, exactly one journal
        row, at a position nobody had; none if the id has one already. */
    method WriteOne(t: TxId, id: Id, topic: Topic) returns (answer: Answer)
      requires Valid() && Ready(t)
      modifies this
      ensures Valid() && t in db.txs && db.outbox == old(db.outbox) && db.journal == old(db.journal)
      ensures answer == Waits <==> WrittenElsewhere(old(db), t, {id})
      ensures answer == DuplicateKey <==> answer != Waits && (id in old(db.outbox) || id in old(db.txs[t].now.outbox))
      ensures answer == DuplicateKey ==> db.txs[t].aborted
      ensures var now, now' := old(db.txs[t].now), db.txs[t].now;
              answer == Stored ==>
                && Ready(t) && db.txs[t].scopes == old(db.txs[t].scopes)
                && now'.outbox == now.outbox[id := topic] && now'.strays == now.strays
                && now'.journal == if topic in topics && !HasPosition(old(db), old(db.txs[t]), id) then now.journal[old(db.nextPos) := id] else now.journal
    {
      answer := StoreOne(t, id, topic);
      if answer == Stored {
        JournalOne(t, id);
      }
    }

    /** The call up to its outbox row. */
    method StoreOne(t: TxId, id: Id, topic: Topic) returns (answer: Answer)
      requires Valid() && Ready(t)
      modifies this
      ensures Valid() && t in db.txs && db.(txs := old(db.txs)) == old(db)
      ensures answer == Waits <==> WrittenElsewhere(old(db), t, {id})
      ensures answer == DuplicateKey <==> answer != Waits && (id in old(db.outbox) || id in old(db.txs[t].now.outbox))
      ensures answer == DuplicateKey ==> db.txs[t].aborted
      ensures var tx := old(db.txs[t]);
              answer == Stored ==> db.txs[t] == Tx(tx.now.(outbox := tx.now.outbox[id := topic]), tx.scopes, Calling({id}, {}), false)
    {
      var chunk := map[id := topic];
      ElsewhereSame(db, t, Tx(db.txs[t].now, db.txs[t].scopes, Calling({}, {}), false), {id});
      assert chunk.Keys == {id} && {} + {id} == {id} && db.txs[t].now.outbox + chunk == db.txs[t].now.outbox[id := topic];
      Start(t);
      answer := InsertRows(t, chunk);
    }

    /** The rest of the call once its outbox row is in. */
    method JournalOne(t: TxId, id: Id)
      requires Valid() && t in db.txs && !db.txs[t].aborted && db.txs[t].call == Calling({id}, {}) && id in db.txs[t].now.outbox
      modifies this
      ensures Valid() && Ready(t) && db.outbox == old(db.outbox) && db.journal == old(db.journal)
      ensures var tx := old(db.txs[t]);
              && db.txs[t].scopes == tx.scopes && db.txs[t].now.outbox == tx.now.outbox && db.txs[t].now.strays == tx.now.strays
              && db.txs[t].now.journal == if tx.now.outbox[id] in topics && !HasPosition(old(db), tx, id) then tx.now.journal[old(db.nextPos) := id] else tx.now.journal
    {
      if db.txs[t].now.outbox[id] in topics {
        InsertOne(t, id);
      }
      Finish(t);
    }

    method Start(t: TxId)
      requires Valid() && Ready(t)
      modifies this
      ensures Valid() && db == With(old(db), t, Tx(old(db.txs[t]).now, old(db.txs[t]).scopes, Calling({}, {}), false))
    {
      Perform(StartCall(t));
    }

    /** The call is over once every projection row of it has been put to the journal. */
    method Finish(t: TxId)
      requires Valid() && t in db.txs && !db.txs[t].aborted && db.txs[t].call.Calling?
      requires var tx := db.txs[t]; forall id | id in tx.call.written && id in tx.now.outbox && tx.now.outbox[id] in topics :: id in tx.call.done
      modifies this
      ensures Valid() && Ready(t) && db.outbox == old(db.outbox) && db.journal == old(db.journal)
      ensures db.txs[t].now == old(db.txs[t]).now && db.txs[t].scopes == old(db.txs[t]).scopes
    {
      Perform(EndCall(t));
    }

    method InsertOne(t: TxId, id: Id)
      requires Valid() && t in db.txs && !db.txs[t].aborted && db.txs[t].call.Calling? && id in db.txs[t].call.written
      requires id in db.txs[t].now.outbox && db.txs[t].now.outbox[id] in topics
      modifies this
      ensures Valid() && t in db.txs && db.outbox == old(db.outbox) && db.journal == old(db.journal)
      ensures var tx, known := old(db.txs[t]), HasPosition(old(db), old(db.txs[t]), id);
              db.txs[t] == Tx(tx.now.(journal := if known then tx.now.journal else tx.now.journal[old(db.nextPos) := id]),
                              tx.scopes, Calling(tx.call.written, tx.call.done + {id}), false)
    {
      Sound();
      NotJournaledElsewhere(topics, db, t, id);
      Perform(InsertJournal(t, id));
    }

    /** A call that fails on the Go side leaves its rows and a usable transaction. */
    method Fail(t: TxId)
      requires Valid() && t in db.txs && !db.txs[t].aborted && db.txs[t].call.Calling?
      modifies this
      ensures Valid() && Ready(t) && db.outbox == old(db.outbox) && db.journal == old(db.journal)
      ensures var tx, tx' := old(db.txs[t]), db.txs[t];
              && tx'.now.outbox == tx.now.outbox && tx'.now.journal == tx.now.journal && tx'.scopes == tx.scopes
              && forall id :: id in tx'.now.strays <==>
                   id in tx.now.strays
                   || (id in tx.call.written && id in tx.now.outbox && tx.now.outbox[id] in topics && !HasPosition(old(db), tx, id))
    {
      Perform(GoFails(t));
    }

    /** A scope remembers what the transaction had, and its rollback brings that back. */
    method OpenScope(t: TxId)
      requires Valid() && Ready(t)
      modifies this
      ensures Valid() && Ready(t) && db.txs[t].now == old(db.txs[t].now) && db.txs[t].scopes == old(db.txs[t].scopes) + [old(db.txs[t].now)]
    {
      Perform(Journal.OpenScope(t));
    }

    method RollbackScope(t: TxId)
      requires Valid() && t in db.txs && db.txs[t].scopes != []
      modifies this
      ensures Valid() && Ready(t)
      ensures old(db.txs[t].scopes) == db.txs[t].scopes + [db.txs[t].now]
    {
      Perform(Journal.RollbackScope(t));
    }

    method LeaveScope(t: TxId)
      requires Valid() && Ready(t) && db.txs[t].scopes != []
      modifies this
      ensures Valid() && Ready(t) && db.txs[t].now == old(db.txs[t].now)
      ensures exists saved :: old(db.txs[t].scopes) == db.txs[t].scopes + [saved]
    {
      ghost var scopes := db.txs[t].scopes;
      Perform(Journal.LeaveScope(t));
      assert scopes == db.txs[t].scopes + [scopes[|scopes| - 1]];
    }

    /** A usable transaction leaves all its rows, an aborted one none. */
    method CommitTx(t: TxId)
      requires Valid() && t in db.txs && (db.txs[t].aborted || db.txs[t].call == NoCall)
      modifies this
      ensures Valid() && db.txs == old(db.txs) - {t}
      ensures var tx := old(db.txs[t]);
              && db.outbox == (if tx.aborted then old(db.outbox) else old(db.outbox) + tx.now.outbox)
              && db.journal == (if tx.aborted then old(db.journal) else old(db.journal) + tx.now.journal)
    {
      Perform(Commit(t));
    }

    method RollbackTx(t: TxId)
      requires Valid() && t in db.txs
      modifies this
      ensures Valid() && db == old(db).(txs := old(db.txs) - {t})
    {
      Perform(Rollback(t));
    }

    /** The relay removes a published row; the journal keeps its own. */
    method Cleanup(t: TxId, id: Id)
      requires Valid()
      modifies this
      ensures Valid() && db == old(db).(outbox := old(db.outbox) - {id})
    {
      Perform(Journal.Cleanup(t, id));
    }
  }

  lemma ElsewhereSame(db: Db, t: TxId, tx: Tx, ids: set<Id>)
    requires t in db.txs
    ensures WrittenElsewhere(With(db, t, tx), t, ids) <==> WrittenElsewhere(db, t, ids)
  {
    assert forall u | u in db.txs && u != t :: With(db, t, tx).txs[u] == db.txs[u];
  }

  lemma WrittenInKeys(db: Db, t: TxId, ids: set<Id>)
    ensures OutboxByOther(db, t, ids) <==> WrittenElsewhere(db, t, ids)
  {
    if OutboxByOther(db, t, ids) {
      var u :| u in db.txs && u != t && !(ids !! db.txs[u].now.outbox.Keys);
      var id :| id in ids && id in db.txs[u].now.outbox.Keys;
      assert WrittenElsewhere(db, t, ids);
    }
    if WrittenElsewhere(db, t, ids) {
      var u, id :| u in db.txs && id in ids && u != t && id in db.txs[u].now.outbox;
      assert id in ids * db.txs[u].now.outbox.Keys;
    }
  }
}
