/**
 Where concurrent verifies and resends differ from serial ones. Every interleaving leaves each
 unverified user at least one code. That there is only one, and that verified users have none, is
 kept by every step except a resend's commit that comes too late: its user was verified since it
 read them, or has a code its delete did not see.
 */
module CodeRaces {
  import opened Wrappers
  import opened VerifySteps

  // ---------------------------------------------------------------- codes of verified users

  /** No verified user has a code row. */
  ghost predicate Clean(s: System) {
    forall id :: id in s.codes && s.codes[id].userId in s.verified ==> !s.verified[s.codes[id].userId]
  }

  /** The row `other` stays behind when its user is verified with the row `id`. */
  ghost predicate Overlooks(s: System, held: set<Id>, id: Id, other: Id) {
    id in held && id in s.codes && other in s.codes && other !in held && s.codes[other].userId == s.codes[id].userId
  }

  /** The commit adds a code for a user who is verified by now, or verifies a user with a second code. */
  ghost predicate LeavesStray(s: System, t: nat)
    requires t in s.txs
  {
    var tx := s.txs[t];
    if tx.job.ResendJob? then tx.job.userId in s.verified && s.verified[tx.job.userId]
    else exists id, other :: Overlooks(s, tx.held, id, other)
  }

  lemma VerifyIsClean(s: System, t: nat)
    requires SystemOk(s) && Clean(s) && Enabled(s, Commit(t)) && s.txs[t].job.VerifyJob?
    ensures Clean(Next(s, Commit(t))) <==> !LeavesStray(s, t)
  {
    var tx, s' := s.txs[t], Next(s, Commit(t));
    assert TxOk(s, tx);
    var id :| id in tx.held;
    assert tx.held == {id};
    assert OwnerOf(s, tx) == Some(s.codes[id].userId);
    forall other | other in s'.codes && s'.codes[other].userId in s'.verified && s'.verified[s'.codes[other].userId]
      ensures LeavesStray(s, t)
    {
      assert Overlooks(s, tx.held, id, other);
    }
    if LeavesStray(s, t) {
      var x, other :| Overlooks(s, tx.held, x, other);
      assert other in s'.codes;
    }
  }

  /** Verified users stay without codes through every step but exactly those commits. */
  lemma CleanUnlessStray(s: System, step: Step)
    requires SystemOk(s) && Clean(s) && Enabled(s, step)
    ensures Clean(Next(s, step)) <==> !(step.Commit? && LeavesStray(s, step.t))
  {
    if step.Commit? {
      var t := step.t;
      var tx, s' := s.txs[t], Next(s, step);
      assert TxOk(s, tx);
      if tx.job.VerifyJob? {
        VerifyIsClean(s, t);
      } else if LeavesStray(s, t) {
        assert tx.insert.value.0 in s'.codes;
      }
    }
  }

  // ---------------------------------------------------------------- codes of unverified users

  ghost predicate Unverified(s: System, u: Id) {
    u in s.verified && !s.verified[u]
  }

  /** Every unverified user has a code. */
  ghost predicate SomeEach(s: System) {
    forall u :: Unverified(s, u) ==> RowsOfUser(s.codes, u) != {}
  }

  /** Every unverified user has exactly one code. */
  ghost predicate OneEach(s: System) {
    forall u :: Unverified(s, u) ==> |RowsOfUser(s.codes, u)| == 1
  }

  /** What serial requests keep. */
  ghost predicate Tidy(s: System) {
    Clean(s) && OneEach(s)
  }

  /** A resend commits although its user was verified since, or has a code the delete did not see. */
  ghost predicate TooLate(s: System, step: Step) {
    step.Commit? && step.t in s.txs && s.txs[step.t].job.ResendJob?
    && var tx := s.txs[step.t];
    !Unverified(s, tx.job.userId) || tx.held != RowsOfUser(s.codes, tx.job.userId)
  }

  /** The rows of every user after a resend commits. */
  lemma ResendRows(s: System, t: nat, u: Id)
    requires SystemOk(s) && Enabled(s, Commit(t)) && s.txs[t].job.ResendJob?
    ensures var tx := s.txs[t];
            tx.insert.Some? && tx.insert.value.0 !in RowsOfUser(s.codes, u)
              && tx.held <= RowsOfUser(s.codes, tx.job.userId)
            && RowsOfUser(Next(s, Commit(t)).codes, u)
               == (if u == tx.job.userId then RowsOfUser(s.codes, u) - tx.held + {tx.insert.value.0}
                   else RowsOfUser(s.codes, u))
    ensures Next(s, Commit(t)).verified == s.verified
  {
    assert TxOk(s, s.txs[t]);
  }

  /** The rows of every user after a verify commits: its owner loses one and is verified. */
  lemma VerifyRows(s: System, t: nat) returns (id: Id)
    requires SystemOk(s) && Enabled(s, Commit(t)) && s.txs[t].job.VerifyJob?
    ensures id in s.codes && s.codes[id].userId in s.verified
    ensures var s' := Next(s, Commit(t));
            s'.codes == s.codes - {id} && s'.verified == s.verified[s.codes[id].userId := true]
    ensures forall u :: RowsOfUser(Next(s, Commit(t)).codes, u) == RowsOfUser(s.codes, u) - {id}
  {
    assert TxOk(s, s.txs[t]);
    id :| id in s.txs[t].held;
    assert s.txs[t].held == {id};
    assert OwnerOf(s, s.txs[t]) == Some(s.codes[id].userId);
  }

  lemma RegisterRows(s: System, userId: Id, codeId: Id, code: string, u: Id)
    requires SystemOk(s) && Enabled(s, Register(userId, codeId, code))
    ensures RowsOfUser(Next(s, Register(userId, codeId, code)).codes, u)
         == if u == userId then {codeId} else RowsOfUser(s.codes, u)
  {
  }

  /** Steps other than commits and registrations change neither codes nor users. */
  lemma TablesStay(s: System, step: Step)
    requires Enabled(s, step) && !step.Register? && !step.Commit?
    ensures Next(s, step).codes == s.codes && Next(s, step).verified == s.verified
  {
  }

  /** No step takes an unverified user's last code. */
  lemma StepKeepsSome(s: System, step: Step)
    requires SystemOk(s) && SomeEach(s) && Enabled(s, step)
    ensures SomeEach(Next(s, step))
  {
    var s' := Next(s, step);
    if step.Commit? && s.txs[step.t].job.VerifyJob? {
      var id := VerifyRows(s, step.t);
      forall u | Unverified(s', u) ensures RowsOfUser(s'.codes, u) != {} {
        assert Unverified(s, u) && id !in RowsOfUser(s.codes, u);
      }
    } else if !step.Register? && !step.Commit? {
      TablesStay(s, step);
    } else {
      forall u | Unverified(s', u) ensures RowsOfUser(s'.codes, u) != {} {
        if step.Register? {
          RegisterRows(s, step.userId, step.codeId, step.code, u);
        } else {
          ResendRows(s, step.t, u);
        }
        assert !(step.Register? && u == step.userId) ==> Unverified(s, u);
      }
    }
  }

  /** In every interleaving every unverified user has at least one code. */
  lemma {:induction false} UnverifiedHaveCodes(schedule: seq<Step>)
    requires Run(schedule).Some?
    ensures SomeEach(Run(schedule).value)
  {
    if schedule != [] {
      var last := |schedule| - 1;
      RunIsOk(schedule[..last]);
      UnverifiedHaveCodes(schedule[..last]);
      StepKeepsSome(Run(schedule[..last]).value, schedule[last]);
    }
  }

  lemma Replaced(rows: set<Id>, held: set<Id>, id: Id)
    requires held <= rows && id !in rows
    ensures |rows - held + {id}| == 1 <==> held == rows
  {
    assert |rows - held + {id}| == |rows - held| + 1;
    if |rows - held| == 0 {
      assert rows - held == {};
    } else {
      assert rows - held != {};
    }
  }

  lemma ResendKeepsTidyIff(s: System, t: nat)
    requires SystemOk(s) && Tidy(s) && Enabled(s, Commit(t)) && s.txs[t].job.ResendJob?
    ensures Tidy(Next(s, Commit(t))) <==> !TooLate(s, Commit(t))
  {
    var tx, s' := s.txs[t], Next(s, Commit(t));
    assert TxOk(s, tx);
    ResendRows(s, t, tx.job.userId);
    Replaced(RowsOfUser(s.codes, tx.job.userId), tx.held, tx.insert.value.0);
    CleanUnlessStray(s, Commit(t));
    assert LeavesStray(s, t) <==> !Unverified(s, tx.job.userId);
    forall u | u != tx.job.userId && Unverified(s', u) ensures |RowsOfUser(s'.codes, u)| == 1 {
      ResendRows(s, t, u);
      assert Unverified(s, u);
    }
    if Tidy(s') && Unverified(s, tx.job.userId) {
      assert Unverified(s', tx.job.userId);
    }
  }

  lemma VerifyKeepsTidy(s: System, t: nat)
    requires SystemOk(s) && Tidy(s) && Enabled(s, Commit(t)) && s.txs[t].job.VerifyJob?
    ensures Tidy(Next(s, Commit(t)))
  {
    var s' := Next(s, Commit(t));
    var id := VerifyRows(s, t);
    var owner := s.codes[id].userId;
    assert Unverified(s, owner) && id in RowsOfUser(s.codes, owner);
    Only(RowsOfUser(s.codes, owner), id);
    forall x | x in s'.codes && s'.codes[x].userId in s'.verified ensures !s'.verified[s'.codes[x].userId] {
      assert x in RowsOfUser(s.codes, s.codes[x].userId);
    }
    forall u | Unverified(s', u) ensures |RowsOfUser(s'.codes, u)| == 1 {
      assert Unverified(s, u) && id !in RowsOfUser(s.codes, u);
      assert RowsOfUser(s'.codes, u) == RowsOfUser(s.codes, u);
    }
  }

  lemma Only(rows: set<Id>, id: Id)
    requires |rows| == 1 && id in rows
    ensures rows == {id}
  {
    assert |rows - {id}| == 0;
  }

  lemma RegisterKeepsTidy(s: System, userId: Id, codeId: Id, code: string)
    requires SystemOk(s) && Tidy(s) && Enabled(s, Register(userId, codeId, code))
    ensures Tidy(Next(s, Register(userId, codeId, code)))
  {
    var s' := Next(s, Register(userId, codeId, code));
    forall u | Unverified(s', u) ensures |RowsOfUser(s'.codes, u)| == 1 {
      RegisterRows(s, userId, codeId, code, u);
      assert u != userId ==> Unverified(s, u);
    }
    CleanUnlessStray(s, Register(userId, codeId, code));
  }

  /** One code for an unverified user, none for a verified one: kept by every step but the late commits. */
  lemma TidyUnlessTooLate(s: System, step: Step)
    requires SystemOk(s) && Tidy(s) && Enabled(s, step)
    ensures Tidy(Next(s, step)) <==> !TooLate(s, step)
  {
    if step.Commit? {
      if s.txs[step.t].job.VerifyJob? {
        VerifyKeepsTidy(s, step.t);
      } else {
        ResendKeepsTidyIff(s, step.t);
      }
    } else if step.Register? {
      RegisterKeepsTidy(s, step.userId, step.codeId, step.code);
    } else {
      TablesStay(s, step);
      assert forall u :: Unverified(Next(s, step), u) <==> Unverified(s, u);
    }
  }

  // ---------------------------------------------------------------- whole schedules

  ghost predicate TidyAfter(schedule: seq<Step>, n: nat)
    requires n <= |schedule|
  {
    Run(schedule[..n]).Some? && Tidy(Run(schedule[..n]).value)
  }

  ghost predicate TooLateAt(schedule: seq<Step>, n: nat)
    requires n < |schedule|
  {
    Run(schedule[..n]).Some? && TooLate(Run(schedule[..n]).value, schedule[n])
  }

  lemma {:induction false} RunPrefix(schedule: seq<Step>, n: nat)
    requires Run(schedule).Some? && n <= |schedule|
    ensures Run(schedule[..n]).Some?
  {
    if n == |schedule| {
      assert schedule[..n] == schedule;
    } else {
      var init := schedule[..|schedule| - 1];
      RunPrefix(init, n);
      assert init[..n] == schedule[..n];
    }
  }

  /** One step of a run on what the steps before it left. */
  lemma RunStep(schedule: seq<Step>, n: nat)
    requires Run(schedule).Some? && n < |schedule|
    ensures Run(schedule[..n]).Some? && SystemOk(Run(schedule[..n]).value)
    ensures Enabled(Run(schedule[..n]).value, schedule[n])
    ensures Run(schedule[..n + 1]) == Some(Next(Run(schedule[..n]).value, schedule[n]))
  {
    RunPrefix(schedule, n + 1);
    var longer := schedule[..n + 1];
    assert longer[..|longer| - 1] == schedule[..n] && longer[|longer| - 1] == schedule[n];
    RunIsOk(schedule[..n]);
  }

  lemma TidyStep(schedule: seq<Step>, n: nat)
    requires Run(schedule).Some? && n < |schedule| && TidyAfter(schedule, n)
    ensures TidyAfter(schedule, n + 1) <==> !TooLateAt(schedule, n)
  {
    RunStep(schedule, n);
    TidyUnlessTooLate(Run(schedule[..n]).value, schedule[n]);
  }

  ghost predicate TidyUpTo(schedule: seq<Step>, n: nat)
    requires n <= |schedule|
  {
    forall i :: 0 <= i <= n ==> TidyAfter(schedule, i)
  }

  ghost predicate InTimeUpTo(schedule: seq<Step>, n: nat)
    requires n <= |schedule|
  {
    forall i :: 0 <= i < n ==> !TooLateAt(schedule, i)
  }

  /** A run is tidy throughout its first n steps exactly when none of them was a late commit. */
  lemma {:induction false} TidyThroughoutIff(schedule: seq<Step>, n: nat)
    requires Run(schedule).Some? && n <= |schedule|
    ensures TidyUpTo(schedule, n) <==> InTimeUpTo(schedule, n)
  {
    if n == 0 {
      EmptyIsTidy(schedule);
    } else {
      TidyThroughoutIff(schedule, n - 1);
      if TidyUpTo(schedule, n - 1) {
        TidyStep(schedule, n - 1);
      }
    }
  }

  lemma EmptyIsTidy(schedule: seq<Step>)
    ensures TidyAfter(schedule, 0)
  {
    assert schedule[..0] == [];
  }

  // ---------------------------------------------------------------- examples

  /** One more step of a run. */
  lemma Continue(schedule: seq<Step>, s: System, step: Step, s': System) returns (longer: seq<Step>)
    requires Run(schedule) == Some(s) && Enabled(s, step) && s' == Next(s, step)
    ensures longer == schedule + [step] && Run(longer) == Some(s')
  {
    longer := schedule + [step];
    assert longer[..|longer| - 1] == schedule && longer[|longer| - 1] == step;
  }

  /** The example after its user was read by a resend and then verified by another transaction. */
  function ReadThenVerified(user: Id, first: Id): System {
    System(map[user := true], map[], map[1 := Tx(ResendJob(user), Read, {}, {}, None)], {first}, {"one"}, ["one"])
  }

  /** The example when its user was read by a resend. */
  function ReadFirst(user: Id, first: Id): System {
    System(map[user := false], map[first := Row(user, "one")], map[1 := Tx(ResendJob(user), Read, {}, {}, None)],
           {first}, {"one"}, [])
  }

  lemma ReadEarly(user: Id, first: Id) returns (schedule: seq<Step>)
    ensures Run(schedule) == Some(ReadFirst(user, first))
  {
    var s1 := ReadFirst(user, first).(txs := map[]);
    var s2 := s1.(txs := map[1 := Tx(ResendJob(user), Begun, {}, {}, None)]);
    schedule := Continue([], INIT, Register(user, first, "one"), s1);
    schedule := Continue(schedule, s1, Begin(1, ResendJob(user)), s2);
    schedule := Continue(schedule, s2, FindUser(1), ReadFirst(user, first));
  }

  lemma VerifyCommits(user: Id, first: Id, s: System)
    requires var before, tx := ReadFirst(user, first), Tx(VerifyJob("one"), Found, {}, {first}, None);
             s == before.(txs := before.txs[2 := tx])
    ensures Enabled(s, Commit(2)) && Next(s, Commit(2)) == ReadThenVerified(user, first)
  {
    assert s.txs - {2} == ReadFirst(user, first).txs;
    assert OwnerOf(s, s.txs[2]) == Some(user) by {
      assert first in s.txs[2].held && first in s.codes;
    }
  }

  lemma VerifiedMeanwhile(user: Id, first: Id) returns (schedule: seq<Step>)
    ensures Run(schedule) == Some(ReadThenVerified(user, first))
  {
    schedule := ReadEarly(user, first);
    var s3 := ReadFirst(user, first);
    var s4 := s3.(txs := s3.txs[2 := Tx(VerifyJob("one"), Begun, {}, {}, None)]);
    var s5 := s3.(txs := s3.txs[2 := Tx(VerifyJob("one"), Found, {}, {first}, None)]);
    schedule := Continue(schedule, s3, Begin(2, VerifyJob("one")), s4);
    assert RowsWithCode(s3.codes, "one") == {first};
    schedule := Continue(schedule, s4, FindToken(2), s5);
    VerifyCommits(user, first, s5);
    schedule := Continue(schedule, s5, Commit(2), ReadThenVerified(user, first));
  }

  /** A run, with one registration, one verify and one resend, that ends with a verified user's live code. */
  lemma StrayCodeExample(user: Id, first: Id, second: Id) returns (schedule: seq<Step>)
    requires first != second
    ensures Run(schedule).Some? && !Clean(Run(schedule).value)
  {
    schedule := VerifiedMeanwhile(user, first);
    var s6 := ReadThenVerified(user, first);
    assert RowsOfUser(s6.codes, user) == {};
    var s7 := s6.(txs := map[1 := Tx(ResendJob(user), Deleting, {}, {}, None)]);
    var s8 := s6.(txs := map[1 := Tx(ResendJob(user), Cleared, {}, {}, None)]);
    schedule := Continue(schedule, s6, StartDelete(1), s7);
    assert s7.txs[1].wanted * RowsOfUser(s7.codes, user) == {};
    schedule := Continue(schedule, s7, FinishDelete(1), s8);
    schedule := LateCommit(schedule, s8, user, second);
  }

  lemma LateCommit(before: seq<Step>, s: System, user: Id, second: Id) returns (schedule: seq<Step>)
    requires Run(before) == Some(s) && s.verified == map[user := true]
    requires s.usedCodes == {"one"} && second !in s.usedIds
    requires 1 in s.txs && s.txs[1].job == ResendJob(user) && s.txs[1].stage == Cleared && s.txs[1].held == {}
    ensures Run(schedule).Some? && !Clean(Run(schedule).value)
  {
    var s9 := Next(s, Generate(1, second, "two"));
    schedule := Continue(before, s, Generate(1, second, "two"), s9);
    schedule := Continue(schedule, s9, Commit(1), Next(s9, Commit(1)));
    assert second in Next(s9, Commit(1)).codes;
  }

  /** Two resends of one user, both past their read. */
  function BothRead(user: Id, first: Id): System {
    var reader := Tx(ResendJob(user), Read, {}, {}, None);
    System(map[user := false], map[first := Row(user, "one")], map[1 := reader, 2 := reader], {first}, {"one"}, [])
  }

  /** The first is ready to commit; the second started its delete on the same row. */
  function FirstReady(user: Id, first: Id, second: Id): System {
    BothRead(user, first).(
      txs := map[1 := Tx(ResendJob(user), Ready, {first}, {first}, Some((second, Row(user, "two")))),
                 2 := Tx(ResendJob(user), Deleting, {first}, {}, None)],
      usedIds := {first, second}, usedCodes := {"one", "two"})
  }

  /** The first committed; the row the second wanted is gone. */
  function FirstDone(user: Id, first: Id, second: Id): System {
    FirstReady(user, first, second).(
      codes := map[second := Row(user, "two")], txs := map[2 := Tx(ResendJob(user), Deleting, {first}, {}, None)])
  }

  lemma BothReadRun(user: Id, first: Id) returns (schedule: seq<Step>)
    ensures Run(schedule) == Some(BothRead(user, first))
  {
    schedule := ReadEarly(user, first);
    var s3 := ReadFirst(user, first);
    var s4 := s3.(txs := s3.txs[2 := Tx(ResendJob(user), Begun, {}, {}, None)]);
    schedule := Continue(schedule, s3, Begin(2, ResendJob(user)), s4);
    schedule := Continue(schedule, s4, FindUser(2), BothRead(user, first));
  }

  /** Both deletes started on the row that was there. */
  function BothWant(user: Id, first: Id): System {
    var wanting := Tx(ResendJob(user), Deleting, {first}, {}, None);
    BothRead(user, first).(txs := map[1 := wanting, 2 := wanting])
  }

  lemma BothWantRun(user: Id, first: Id) returns (schedule: seq<Step>)
    ensures Run(schedule) == Some(BothWant(user, first))
  {
    schedule := BothReadRun(user, first);
    var s5 := BothRead(user, first);
    assert RowsOfUser(s5.codes, user) == {first};
    var s6 := s5.(txs := s5.txs[1 := Tx(ResendJob(user), Deleting, {first}, {}, None)]);
    schedule := Continue(schedule, s5, StartDelete(1), s6);
    schedule := Continue(schedule, s6, StartDelete(2), BothWant(user, first));
  }

  lemma FirstReadyRun(user: Id, first: Id, second: Id) returns (schedule: seq<Step>)
    requires first != second
    ensures Run(schedule) == Some(FirstReady(user, first, second))
  {
    schedule := BothWantRun(user, first);
    var s7 := BothWant(user, first);
    assert {first} * RowsOfUser(s7.codes, user) == {first};
    var s8 := s7.(txs := s7.txs[1 := Tx(ResendJob(user), Cleared, {first}, {first}, None)]);
    schedule := Continue(schedule, s7, FinishDelete(1), s8);
    schedule := Continue(schedule, s8, Generate(1, second, "two"), FirstReady(user, first, second));
  }

  lemma FirstCommits(user: Id, first: Id, second: Id)
    requires first != second
    ensures var s := FirstReady(user, first, second);
            Enabled(s, Commit(1)) && Next(s, Commit(1)) == FirstDone(user, first, second)
  {
    var s := FirstReady(user, first, second);
    assert s.txs - {1} == FirstDone(user, first, second).txs;
    assert s.codes - {first} == map[];
  }

  /**
   A run of one registration and two resends that ends with two codes for one user, who is still
   unverified; verified users have none.
   */
  lemma TwoCodesExample(user: Id, first: Id, second: Id, third: Id) returns (schedule: seq<Step>)
    requires first != second && first != third && second != third
    ensures Run(schedule).Some?
    ensures var s := Run(schedule).value;
            Unverified(s, user) && RowsOfUser(s.codes, user) == {second, third} && Clean(s) && !OneEach(s)
  {
    schedule := FirstReadyRun(user, first, second);
    FirstCommits(user, first, second);
    var s10 := FirstDone(user, first, second);
    schedule := Continue(schedule, FirstReady(user, first, second), Commit(1), s10);
    assert {first} * RowsOfUser(s10.codes, user) == {};
    var s11 := s10.(txs := map[2 := Tx(ResendJob(user), Cleared, {first}, {}, None)]);
    schedule := Continue(schedule, s10, FinishDelete(2), s11);
    schedule := SecondCommits(schedule, s11, user, second, third);
  }

  lemma SecondCommits(before: seq<Step>, s: System, user: Id, second: Id, third: Id) returns (schedule: seq<Step>)
    requires Run(before) == Some(s) && second != third && s.verified == map[user := false]
    requires s.codes == map[second := Row(user, "two")] && s.usedCodes == {"one", "two"} && third !in s.usedIds
    requires 2 in s.txs && s.txs[2].job == ResendJob(user) && s.txs[2].stage == Cleared && s.txs[2].held == {}
    ensures Run(schedule).Some?
    ensures var s := Run(schedule).value;
            Unverified(s, user) && RowsOfUser(s.codes, user) == {second, third} && Clean(s) && !OneEach(s)
  {
    var s12 := Next(s, Generate(2, third, "three"));
    schedule := Continue(before, s, Generate(2, third, "three"), s12);
    var s13 := Next(s12, Commit(2));
    schedule := Continue(schedule, s12, Commit(2), s13);
    assert s13.codes == map[second := Row(user, "two"), third := Row(user, "three")];
    assert RowsOfUser(s13.codes, user) == {second, third};
    assert |{second, third}| == 2 && Unverified(s13, user);
  }
}
