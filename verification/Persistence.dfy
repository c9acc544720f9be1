/**
 Transactions as the handlers use them: begun from the database, written to by statements, ended by
 a commit or by the deferred rollback.

 A statement, a commit, a generator or a hash can fail at any time for reasons outside the tables.
 Every such failure is recorded in the ghost field `faulted`, so a contract can say what happens
 when there was none.
 */
module Persistence {
  import opened Model

  class Database {
    var store: Store

    constructor ()
      ensures store == EMPTY
    {
      store := EMPTY;
    }

    method BeginContext(now: int) returns (r: Result<Transaction>)
      ensures r.Ok? ==> fresh(r.value) && r.value.db == this && r.value.startedAt == now
                        && r.value.view == store && r.value.Open()
      ensures r.Err? ==> r.error == Fault
    {
      var fails: bool := *;
      if fails {
        return Err(Fault);
      }
      var tx := new Transaction(this, now);
      return Ok(tx);
    }

    /** Deferred by every handler: ends a transaction that was not committed, and reports that it did. */
    method RollbackUnlessCommitted(tx: Transaction) returns (rolledBack: bool)
      modifies tx`done
      ensures rolledBack <==> !tx.committed
      ensures tx.done == (old(tx.done) || rolledBack)
    {
      if tx.committed {
        return false;
      }
      tx.Rollback();
      return true;
    }
  }

  class Transaction {
    const db: Database
    /** What `now()` means to the database. */
    const startedAt: int
    /** The tables as the transaction's own statements see them. */
    var view: Store
    /** The driver's transaction has ended. */
    var done: bool
    var committed: bool
    ghost var faulted: bool

    constructor (db: Database, now: int)
      ensures this.db == db && startedAt == now && view == db.store && Open()
    {
      this.db, startedAt, view := db, now, db.store;
      done, committed, faulted := false, false, false;
    }

    ghost predicate Open()
      reads this
    {
      !done && !committed && !faulted
    }

    /** Anything that can fail from outside. */
    method Attempt() returns (ok: bool)
      requires !faulted
      modifies this`faulted
      ensures ok <==> !faulted
    {
      ok := *;
      faulted := !ok;
    }

    /** The flag is set exactly when the tables were replaced; a commit that fails changes nothing. */
    method Commit() returns (r: Result<()>)
      requires !faulted
      modifies this`done, this`committed, this`faulted, db
      ensures r.Ok? <==> !faulted
      ensures r.Ok? ==> !old(done) && committed && db.store == view
      ensures r.Err? ==> committed == old(committed) && db.store == old(db.store)
      ensures done
    {
      if done {
        faulted := true;
        return Err(Fault);
      }
      done := true;
      var ok := Attempt();
      if !ok {
        return Err(Fault);
      }
      db.store := view;
      committed := true;
      return Ok(());
    }

    /** Rolling back twice, or after a commit, is reported by the driver and ignored. */
    method Rollback()
      modifies this`done
      ensures done
    {
      if done {
        return;
      }
      done := true;
    }
  }
}
