/**
 Verification codes under concurrency: verify and resend transactions, statement by statement, over
 the users' verified flags and the code table, with registrations committing in between.

 A verify locks the row of its code. A resend reads its user without a lock and deletes the rows
 the user had when the delete started, once nobody else holds them and unless they are gone by
 then. However they interleave, a code is consumed at most once. What serial requests also keep,
 one code for an unverified user and none for a verified one, does not survive; `CodeRaces` says
 which half does and exactly which commits break the other.
 */
module VerifySteps {
  import opened Wrappers
  import opened Uuids

  type Id = Uuid

  /** A code row; the stored hash determines the code. */
  datatype Row = Row(userId: Id, code: string)

  datatype Job = VerifyJob(code: string) | ResendJob(userId: Id)

  datatype Stage = Begun | Found | Read | Deleting | Cleared | Ready

  /**
   `wanted` are the rows a delete saw when it started, `held` those the transaction has locked and
   will delete, `insert` the row it will add.
   */
  datatype Tx = Tx(job: Job, stage: Stage, wanted: set<Id>, held: set<Id>, insert: Option<(Id, Row)>)

  /** `consumed` lists the codes of committed verifications; ids and codes in `used` were generated. */
  datatype System = System(
    verified: map<Id, bool>,
    codes: map<Id, Row>,
    txs: map<nat, Tx>,
    usedIds: set<Id>,
    usedCodes: set<string>,
    consumed: seq<string>)

  const INIT := System(map[], map[], map[], {}, {}, [])

  datatype Step =
    | Register(userId: Id, codeId: Id, code: string)
    | Begin(t: nat, job: Job)
    | FindToken(t: nat)
    | FindUser(t: nat)
    | StartDelete(t: nat)
    | FinishDelete(t: nat)
    | Generate(t: nat, codeId: Id, code: string)
    | Commit(t: nat)
    | Abort(t: nat)

  ghost predicate At(s: System, t: nat, stage: Stage) {
    t in s.txs && s.txs[t].stage == stage
  }

  /** None of the rows is held by another transaction. */
  ghost predicate Free(s: System, t: nat, rows: set<Id>) {
    forall u :: u in s.txs && u != t ==> s.txs[u].held !! rows
  }

  function RowsWithCode(codes: map<Id, Row>, code: string): set<Id> {
    set id | id in codes && codes[id].code == code
  }

  function RowsOfUser(codes: map<Id, Row>, userId: Id): set<Id> {
    set id | id in codes && codes[id].userId == userId
  }

  ghost predicate Enabled(s: System, step: Step) {
    match step
    case Register(userId, codeId, code) => userId !in s.verified && codeId !in s.usedIds && code !in s.usedCodes
    case Begin(t, _) => t !in s.txs
    case FindToken(t) =>
      At(s, t, Begun) && s.txs[t].job.VerifyJob? && Free(s, t, RowsWithCode(s.codes, s.txs[t].job.code))
    case FindUser(t) => At(s, t, Begun) && s.txs[t].job.ResendJob?
    case StartDelete(t) => At(s, t, Read) && s.txs[t].job.ResendJob?
    case FinishDelete(t) => At(s, t, Deleting) && s.txs[t].job.ResendJob? && Free(s, t, s.txs[t].wanted)
    case Generate(t, codeId, code) =>
      At(s, t, Cleared) && s.txs[t].job.ResendJob? && codeId !in s.usedIds && code !in s.usedCodes
    case Commit(t) => At(s, t, Ready) || At(s, t, Found)
    case Abort(t) => t in s.txs
  }

  function Move(s: System, t: nat, tx: Tx): System {
    s.(txs := s.txs[t := tx])
  }

  function Close(s: System, t: nat): System {
    s.(txs := s.txs - {t})
  }

  /** The user a committing transaction verifies: the owner of the row it found. */
  ghost function OwnerOf(s: System, tx: Tx): Option<Id> {
    if tx.job.VerifyJob? && exists id :: id in tx.held && id in s.codes then
      var id :| id in tx.held && id in s.codes;
      Some(s.codes[id].userId)
    else None
  }

  ghost function Committed(s: System, t: nat): System
    requires t in s.txs
  {
    var tx := s.txs[t];
    var left := s.codes - tx.held;
    Close(s, t).(
      codes := if tx.insert.Some? then left[tx.insert.value.0 := tx.insert.value.1] else left,
      verified := if OwnerOf(s, tx).Some? then s.verified[OwnerOf(s, tx).value := true] else s.verified,
      consumed := if tx.job.VerifyJob? then s.consumed + [tx.job.code] else s.consumed)
  }

  ghost function Next(s: System, step: Step): System
    requires Enabled(s, step)
  {
    match step
    case Register(userId, codeId, code) =>
      s.(verified := s.verified[userId := false], codes := s.codes[codeId := Row(userId, code)],
         usedIds := s.usedIds + {codeId}, usedCodes := s.usedCodes + {code})
    case Begin(t, job) => Move(s, t, Tx(job, Begun, {}, {}, None))
    case FindToken(t) =>
      var rows := RowsWithCode(s.codes, s.txs[t].job.code);
      if rows == {} then Close(s, t) else Move(s, t, s.txs[t].(stage := Found, held := rows))
    case FindUser(t) =>
      var userId := s.txs[t].job.userId;
      if userId !in s.verified || s.verified[userId] then Close(s, t) else Move(s, t, s.txs[t].(stage := Read))
    case StartDelete(t) => Move(s, t, s.txs[t].(stage := Deleting, wanted := RowsOfUser(s.codes, s.txs[t].job.userId)))
    case FinishDelete(t) =>
      Move(s, t, s.txs[t].(stage := Cleared, held := s.txs[t].wanted * RowsOfUser(s.codes, s.txs[t].job.userId)))
    case Generate(t, codeId, code) =>
      Move(s, t, s.txs[t].(stage := Ready, insert := Some((codeId, Row(s.txs[t].job.userId, code)))))
        .(usedIds := s.usedIds + {codeId}, usedCodes := s.usedCodes + {code})
    case Commit(t) => Committed(s, t)
    case Abort(t) => Close(s, t)
  }

  // ---------------------------------------------------------------- what every step keeps

  ghost predicate TxOk(s: System, tx: Tx) {
    && (tx.job.VerifyJob? ==>
          (tx.stage.Begun? || tx.stage.Found?) && tx.insert.None?
          && (tx.stage.Found? ==> tx.held != {} && tx.held == RowsWithCode(s.codes, tx.job.code)))
    && (tx.job.ResendJob? ==>
          !tx.stage.Found? && (tx.stage.Ready? <==> tx.insert.Some?)
          && (tx.stage.Read? || tx.stage.Deleting? || tx.stage.Cleared? || tx.stage.Ready? ==>
                tx.job.userId in s.verified)
          && tx.held <= RowsOfUser(s.codes, tx.job.userId))
    && (tx.insert.Some? ==>
          tx.insert.value.0 in s.usedIds && tx.insert.value.0 !in s.codes && tx.insert.value.1.code in s.usedCodes
          && tx.job.ResendJob? && tx.insert.value.1.userId == tx.job.userId)
    && tx.held <= s.codes.Keys
  }

  ghost predicate Inserts(tx: Tx, code: string) {
    tx.insert.Some? && tx.insert.value.1.code == code
  }

  ghost predicate InsertsId(tx: Tx, id: Id) {
    tx.insert.Some? && tx.insert.value.0 == id
  }

  /** Rows were generated and belong to users; no two have the same code. */
  ghost predicate RowsOk(s: System) {
    && (forall id :: id in s.codes ==>
          id in s.usedIds && s.codes[id].code in s.usedCodes && s.codes[id].userId in s.verified)
    && (forall a, b :: a in s.codes && b in s.codes && s.codes[a].code == s.codes[b].code ==> a == b)
  }

  /** A code about to be inserted is in no row, was never consumed, and is inserted by one transaction. */
  ghost predicate PendingOk(s: System) {
    && (forall t, id :: t in s.txs && id in s.codes ==> !Inserts(s.txs[t], s.codes[id].code))
    && (forall t, i :: t in s.txs && 0 <= i < |s.consumed| ==> !Inserts(s.txs[t], s.consumed[i]))
    && (forall t, u, code :: t in s.txs && u in s.txs && Inserts(s.txs[t], code) && Inserts(s.txs[u], code) ==> t == u)
    && (forall t, u, id :: t in s.txs && u in s.txs && InsertsId(s.txs[t], id) && InsertsId(s.txs[u], id) ==> t == u)
  }

  /** A consumed code was generated, is in no row any more, and was consumed once. */
  ghost predicate ConsumedOk(s: System) {
    && (forall i :: 0 <= i < |s.consumed| ==> s.consumed[i] in s.usedCodes)
    && (forall i, id :: 0 <= i < |s.consumed| && id in s.codes ==> s.codes[id].code != s.consumed[i])
    && (forall i, j :: 0 <= i < j < |s.consumed| ==> s.consumed[i] != s.consumed[j])
  }

  ghost predicate SystemOk(s: System) {
    && (forall t :: t in s.txs ==> TxOk(s, s.txs[t]))
    && (forall t, u :: t in s.txs && u in s.txs && t != u ==> s.txs[t].held !! s.txs[u].held)
    && RowsOk(s) && PendingOk(s) && ConsumedOk(s)
  }

  /** A step without a new insertion leaves the pending insertions pending. */
  lemma PendingStays(s: System, txs': map<nat, Tx>)
    requires PendingOk(s)
    requires forall u :: u in txs' && txs'[u].insert.Some? ==> u in s.txs && s.txs[u].insert == txs'[u].insert
    ensures PendingOk(s.(txs := txs'))
  {
    forall u, code | u in txs' && Inserts(txs'[u], code) ensures u in s.txs && Inserts(s.txs[u], code) {
    }
    forall u, id | u in txs' && InsertsId(txs'[u], id) ensures u in s.txs && InsertsId(s.txs[u], id) {
    }
  }

  lemma MoveKeeps(s: System, t: nat, tx: Tx)
    requires SystemOk(s) && TxOk(s, tx) && Free(s, t, tx.held) && tx.insert.None?
    ensures SystemOk(Move(s, t, tx))
  {
    var s' := Move(s, t, tx);
    forall u | u in s'.txs ensures TxOk(s', s'.txs[u]) {
      assert u != t ==> TxOk(s, s.txs[u]);
    }
    PendingStays(s, s'.txs);
  }

  lemma CloseKeeps(s: System, t: nat)
    requires SystemOk(s)
    ensures SystemOk(Close(s, t))
  {
    var s' := Close(s, t);
    forall u | u in s'.txs ensures TxOk(s', s'.txs[u]) {
      assert TxOk(s, s.txs[u]);
    }
    PendingStays(s, s'.txs);
  }

  lemma GenerateKeeps(s: System, t: nat, codeId: Id, code: string)
    requires SystemOk(s) && Enabled(s, Generate(t, codeId, code))
    ensures SystemOk(Next(s, Generate(t, codeId, code)))
  {
    var s' := Next(s, Generate(t, codeId, code));
    forall u | u in s'.txs ensures TxOk(s', s'.txs[u]) {
      assert TxOk(s, s.txs[u]);
    }
    forall u, c | u in s'.txs && u != t && Inserts(s'.txs[u], c) ensures c in s.usedCodes {
      assert TxOk(s, s.txs[u]);
    }
    forall u, id | u in s'.txs && u != t && InsertsId(s'.txs[u], id) ensures id in s.usedIds {
      assert TxOk(s, s.txs[u]);
    }
  }

  lemma RegisterKeeps(s: System, userId: Id, codeId: Id, code: string)
    requires SystemOk(s) && Enabled(s, Register(userId, codeId, code))
    ensures SystemOk(Next(s, Register(userId, codeId, code)))
  {
    var s' := Next(s, Register(userId, codeId, code));
    forall u | u in s'.txs ensures TxOk(s', s'.txs[u]) {
      assert TxOk(s, s.txs[u]);
      TableStays(s, s', s.txs[u]);
    }
  }

  /** What others insert and delete leaves a transaction's rows its own. */
  lemma TableStays(s: System, s': System, tx: Tx)
    requires TxOk(s, tx) && RowsOk(s) && s.usedIds <= s'.usedIds && s.usedCodes <= s'.usedCodes
    requires s.verified.Keys <= s'.verified.Keys
    requires forall id :: id in tx.held ==> id in s'.codes && s'.codes[id] == s.codes[id]
    requires forall id :: id in s'.codes && id in s.codes ==> s'.codes[id] == s.codes[id]
    requires forall id :: id in s'.codes && id !in s.codes ==>
               !InsertsId(tx, id) && (forall x :: x in s.codes ==> s.codes[x].code != s'.codes[id].code)
    ensures TxOk(s', tx)
  {
    if tx.stage.Found? && tx.job.VerifyJob? {
      var id :| id in tx.held;
      forall x | x in s'.codes && s'.codes[x].code == tx.job.code ensures x in tx.held {
        assert s.codes[id].code == tx.job.code;
      }
      assert tx.held == RowsWithCode(s'.codes, tx.job.code);
    }
  }

  lemma CommitKeeps(s: System, t: nat)
    requires SystemOk(s) && Enabled(s, Commit(t))
    ensures SystemOk(Next(s, Commit(t)))
  {
    var s', tx := Committed(s, t), s.txs[t];
    assert TxOk(s, tx);
    if tx.insert.Some? {
      assert Inserts(tx, tx.insert.value.1.code) && InsertsId(tx, tx.insert.value.0);
    }
    forall u | u in s'.txs ensures TxOk(s', s'.txs[u]) {
      assert TxOk(s, s.txs[u]);
      TableStays(s, s', s.txs[u]);
    }
    CommitKeepsRows(s, t);
  }

  lemma CommitKeepsRows(s: System, t: nat)
    requires SystemOk(s) && Enabled(s, Commit(t))
    ensures var s' := Committed(s, t); RowsOk(s') && PendingOk(s') && ConsumedOk(s')
  {
    var tx := s.txs[t];
    assert TxOk(s, tx);
    if tx.job.VerifyJob? {
      VerifyKeepsRows(s, t);
    } else {
      ResendKeepsRows(s, t);
    }
  }

  lemma VerifyKeepsRows(s: System, t: nat)
    requires SystemOk(s) && At(s, t, Found) && s.txs[t].job.VerifyJob?
    ensures var s' := Committed(s, t); RowsOk(s') && PendingOk(s') && ConsumedOk(s')
  {
    VerifyTakesRow(s, t);
    ConsumeKeepsPending(s, t);
    ConsumeKeepsConsumed(s, t);
  }

  /** The row goes, its code is consumed now and in no other row, and was not consumed before. */
  lemma VerifyTakesRow(s: System, t: nat)
    requires SystemOk(s) && At(s, t, Found) && s.txs[t].job.VerifyJob?
    ensures var s', code := Committed(s, t), s.txs[t].job.code;
            && s'.consumed == s.consumed + [code] && s'.codes == s.codes - s.txs[t].held
            && (exists id :: id in s.codes && s.codes[id].code == code)
            && (forall x :: x in s'.codes ==> x in s.codes && s'.codes[x] == s.codes[x] && s'.codes[x].code != code)
            && s.verified.Keys <= s'.verified.Keys
  {
    var tx := s.txs[t];
    assert TxOk(s, tx);
    var id :| id in tx.held;
    assert s.codes[id].code == tx.job.code;
  }

  /** Pending insertions stay pending when rows go and a code that none of them carries is consumed. */
  lemma PendingOutlives(s: System, codes: map<Id, Row>, code: string)
    requires PendingOk(s) && forall u :: u in s.txs ==> !Inserts(s.txs[u], code)
    requires forall x :: x in codes ==> x in s.codes && codes[x] == s.codes[x]
    ensures PendingOk(s.(codes := codes, consumed := s.consumed + [code]))
  {
  }

  lemma PendingIgnoresUsers(s: System, verified: map<Id, bool>)
    requires PendingOk(s)
    ensures PendingOk(s.(verified := verified))
  {
  }

  lemma ConsumeKeepsPending(s: System, t: nat)
    requires SystemOk(s) && At(s, t, Found) && s.txs[t].job.VerifyJob?
    ensures PendingOk(Committed(s, t))
  {
    VerifyTakesRow(s, t);
    var s', code := Committed(s, t), s.txs[t].job.code;
    assert TxOk(s, s.txs[t]);
    var id :| id in s.codes && s.codes[id].code == code;
    var closed := Close(s, t);
    PendingStays(s, closed.txs);
    forall u | u in closed.txs ensures !Inserts(closed.txs[u], code) {
      assert !Inserts(s.txs[u], s.codes[id].code);
    }
    PendingOutlives(closed, s'.codes, code);
    PendingIgnoresUsers(closed.(codes := s'.codes, consumed := s'.consumed), s'.verified);
  }

  lemma ConsumeKeepsConsumed(s: System, t: nat)
    requires SystemOk(s) && At(s, t, Found) && s.txs[t].job.VerifyJob?
    ensures ConsumedOk(Committed(s, t))
  {
    VerifyTakesRow(s, t);
  }

  lemma ResendKeepsRows(s: System, t: nat)
    requires SystemOk(s) && At(s, t, Ready) && s.txs[t].job.ResendJob?
    ensures var s' := Committed(s, t); RowsOk(s') && PendingOk(s') && ConsumedOk(s')
  {
    var tx := s.txs[t];
    assert TxOk(s, tx);
    assert Inserts(tx, tx.insert.value.1.code);
  }

  lemma StepKeeps(s: System, step: Step)
    requires SystemOk(s) && Enabled(s, step)
    ensures SystemOk(Next(s, step))
  {
    match step
    case Register(userId, codeId, code) => RegisterKeeps(s, userId, codeId, code);
    case Begin(t, job) => MoveKeeps(s, t, Tx(job, Begun, {}, {}, None));
    case FindToken(t) =>
      var rows := RowsWithCode(s.codes, s.txs[t].job.code);
      assert TxOk(s, s.txs[t]);
      if rows == {} {
        CloseKeeps(s, t);
      } else {
        MoveKeeps(s, t, s.txs[t].(stage := Found, held := rows));
      }
    case FindUser(t) =>
      assert TxOk(s, s.txs[t]);
      if s.txs[t].job.userId !in s.verified || s.verified[s.txs[t].job.userId] {
        CloseKeeps(s, t);
      } else {
        MoveKeeps(s, t, s.txs[t].(stage := Read));
      }
    case StartDelete(t) =>
      assert TxOk(s, s.txs[t]);
      MoveKeeps(s, t, s.txs[t].(stage := Deleting, wanted := RowsOfUser(s.codes, s.txs[t].job.userId)));
    case FinishDelete(t) =>
      assert TxOk(s, s.txs[t]);
      MoveKeeps(s, t, s.txs[t].(stage := Cleared, held := s.txs[t].wanted * RowsOfUser(s.codes, s.txs[t].job.userId)));
    case Generate(t, codeId, code) => GenerateKeeps(s, t, codeId, code);
    case Commit(t) => CommitKeeps(s, t);
    case Abort(t) => CloseKeeps(s, t);
  }

  // ---------------------------------------------------------------- runs

  ghost function Run(schedule: seq<Step>): Option<System> {
    if schedule == [] then Some(INIT)
    else
      var last := |schedule| - 1;
      match Run(schedule[..last])
      case Some(s) => if Enabled(s, schedule[last]) then Some(Next(s, schedule[last])) else None
      case None => None
  }

  lemma {:induction false} RunIsOk(schedule: seq<Step>)
    requires Run(schedule).Some?
    ensures SystemOk(Run(schedule).value)
  {
    if schedule != [] {
      var last := |schedule| - 1;
      RunIsOk(schedule[..last]);
      StepKeeps(Run(schedule[..last]).value, schedule[last]);
    }
  }

  /** In every interleaving a code is consumed at most once, and a consumed code has no row. */
  lemma CodeConsumedOnce(schedule: seq<Step>, i: nat, j: nat)
    requires Run(schedule).Some? && i < |Run(schedule).value.consumed| && j < |Run(schedule).value.consumed|
    ensures var s := Run(schedule).value;
            (s.consumed[i] == s.consumed[j] ==> i == j) && RowsWithCode(s.codes, s.consumed[i]) == {}
  {
    RunIsOk(schedule);
  }

  /** What a commit of a verify consumes: the one row with the presented code. */
  lemma VerifyConsumesItsRow(schedule: seq<Step>, t: nat)
    requires Run(schedule).Some? && Enabled(Run(schedule).value, Commit(t)) && Run(schedule).value.txs[t].job.VerifyJob?
    ensures var s := Run(schedule).value;
            var s', code := Next(s, Commit(t)), s.txs[t].job.code;
            exists id :: id in s.codes && s.codes[id].code == code
              && s'.codes == s.codes - {id} && s'.verified == s.verified[s.codes[id].userId := true]
              && s'.consumed == s.consumed + [code]
  {
    RunIsOk(schedule);
    var s := Run(schedule).value;
    assert TxOk(s, s.txs[t]);
    var id :| id in s.txs[t].held;
    assert s.txs[t].held == {id};
    assert OwnerOf(s, s.txs[t]) == Some(s.codes[id].userId);
  }
}
