/**
 Two clients present the same refresh token at once. Both requests are open together; one waits for
 the row lock of the other, and when it gets it the token is revoked.
 */
module Rivals {
  import opened Wrappers
  import opened RawTokens
  import opened Model
  import opened Operations
  import opened Accounts
  import opened AccountHistory
  import opened TokenHistory
  import opened RotationSteps
  import opened Progress
  import TokenEffects
  import EmailDrift

  /** The token was handed out, is unspent and in date, and nobody holds its row. */
  ghost predicate Redeemable(s: System, raw: string) {
    && raw in Minted(s.log) && raw !in Spent(s.log)
    && s.clock <= Minted(s.log)[raw].issuedAt + TOKEN_LIFETIME
    && forall u :: u in s.txs ==> !Holds(s.txs[u], Minted(s.log)[raw].id)
  }

  lemma RedeemableRow(schedule: seq<Step>, raw: string)
    requires Run(schedule).Some? && Redeemable(Run(schedule).value, raw)
    ensures var s := Run(schedule).value;
            var o := Minted(s.log)[raw];
            && Lookup(s.store, raw) == Ok((o.id, RowOf(raw, o, None)))
            && KeyOf(raw) == Some(o.id) && o.userId in s.store.users
            && SystemOk(s) && History(s.log) && s.store == After(EMPTY, s.log)
  {
    var s := Run(schedule).value;
    RunIsOk(schedule);
    HistoryIsFaithful(s.log);
    LookupAgrees(s.log, raw);
    MintedNames(s.log, raw);
    TokenEffects.LookupFinds(s.store, raw);
    OwnersExist(s.log, Minted(s.log)[raw].id);
  }

  lemma NobodyHolds(s: System, s2: System, a: nat, b: nat, id: Id)
    requires forall u :: u in s.txs ==> !Holds(s.txs[u], id)
    requires a in s2.txs && b in s2.txs && s2.txs == s.txs[a := s2.txs[a]][b := s2.txs[b]]
    requires s2.txs[a].held.None? && s2.txs[b].held.None?
    ensures forall u :: u in s2.txs ==> !Holds(s2.txs[u], id)
  {
  }

  /** Both requests are open and neither has read anything yet. */
  lemma BothBegin(schedule: seq<Step>, a: nat, b: nat, raw: string) returns (both: seq<Step>)
    requires Run(schedule).Some? && a != b && a !in Run(schedule).value.txs && b !in Run(schedule).value.txs
    ensures both == schedule + [Begin(a, RefreshJob(raw))] + [Begin(b, RefreshJob(raw))] && Run(both).Some?
    ensures var s, s' := Run(schedule).value, Run(both).value;
            && a in s'.txs && b in s'.txs && s' == s.(txs := s.txs[a := s'.txs[a]][b := s'.txs[b]])
            && IsFresh(s'.txs[a], raw, s.clock) && IsFresh(s'.txs[b], raw, s.clock)
  {
    var first := schedule + [Begin(a, RefreshJob(raw))];
    BeginAnytime(schedule, a, RefreshJob(raw));
    BeginAnytime(first, b, RefreshJob(raw));
    both := first + [Begin(b, RefreshJob(raw))];
    RunIsOk(both);
    assert TxOk(Run(both).value.store, Run(both).value.txs[a]) && TxOk(Run(both).value.store, Run(both).value.txs[b]);
  }

  ghost predicate IsFresh(tx: Tx, raw: string, startedAt: int) {
    tx.job == RefreshJob(raw) && tx.stage.Begun? && tx.startedAt == startedAt && tx.held.None?
  }

  /** The first gets the lock of the row, and the second cannot. */
  ghost predicate FirstHolds(s: System, a: nat, b: nat, raw: string, s': System)
    requires raw in Minted(s.log)
  {
    && At(s', a, Locked) && s'.txs[a].job == RefreshJob(raw) && s'.txs[a].startedAt == s.clock
    && At(s', b, Begun) && IsFresh(s'.txs[b], raw, s.clock) && !Enabled(s', LockRow(b))
    && s'.store == s.store && s'.log == s.log && s'.clock == s.clock && s'.used == s.used
    && s'.txs == s.txs[a := s'.txs[a]][b := s'.txs[b]] && Holds(s'.txs[a], Minted(s.log)[raw].id)
  }

  lemma LockFirst(s: System, a: nat, b: nat, raw: string, s2: System)
    requires SystemOk(s) && a != b && a !in s.txs && b !in s.txs && Redeemable(s, raw)
    requires KeyOf(raw) == Some(Minted(s.log)[raw].id) && Lookup(s.store, raw).Ok?
    requires Lookup(s.store, raw).value.0 == Minted(s.log)[raw].id
    requires a in s2.txs && b in s2.txs && s2 == s.(txs := s.txs[a := s2.txs[a]][b := s2.txs[b]])
    requires IsFresh(s2.txs[a], raw, s.clock) && IsFresh(s2.txs[b], raw, s.clock)
    ensures Enabled(s2, LockRow(a)) && FirstHolds(s, a, b, raw, Next(s2, LockRow(a)))
  {
    NobodyHolds(s, s2, a, b, Minted(s.log)[raw].id);
    var s3 := Next(s2, LockRow(a));
    assert s3 == Move(s2, a, s2.txs[a].(stage := Locked, held := Some(Lookup(s.store, raw).value)));
    assert s3.txs == s.txs[a := s3.txs[a]][b := s3.txs[b]];
    assert Holds(s3.txs[a], Minted(s.log)[raw].id);
  }

  lemma SecondWaits(schedule: seq<Step>, a: nat, b: nat, raw: string) returns (rest: seq<Step>)
    requires Run(schedule).Some? && Redeemable(Run(schedule).value, raw)
    requires a != b && a !in Run(schedule).value.txs && b !in Run(schedule).value.txs
    ensures rest == [Begin(a, RefreshJob(raw)), Begin(b, RefreshJob(raw)), LockRow(a)]
    ensures Run(schedule + rest).Some?
    ensures FirstHolds(Run(schedule).value, a, b, raw, Run(schedule + rest).value)
  {
    var s := Run(schedule).value;
    RedeemableRow(schedule, raw);
    var both := BothBegin(schedule, a, b, raw);
    var s2 := Run(both).value;
    LockFirst(s, a, b, raw, s2);
    RunsOne(s2, LockRow(a), Next(s2, LockRow(a)), []);
    RunContinues(both, s2, [LockRow(a)] + []);
    rest := [Begin(a, RefreshJob(raw)), Begin(b, RefreshJob(raw)), LockRow(a)];
    assert both + ([LockRow(a)] + []) == schedule + rest;
  }

  lemma FirstOnItsWay(s: System, a: nat, b: nat, raw: string, s3: System, mint: Mint)
    requires Redeemable(s, raw) && FirstHolds(s, a, b, raw, s3) && KeyOf(raw) == Some(Minted(s.log)[raw].id)
    requires LocksOk(s3.txs) && mint.id !in s.used && mint.issuedAt == s.clock
    ensures OnItsWay(s3, a, mint)
  {
    forall u | u in s3.txs && u != a ensures !Holds(s3.txs[u], Minted(s.log)[raw].id) {
      assert Holds(s3.txs[a], Minted(s.log)[raw].id);
    }
  }

  /** The first commits: it is served with a successor. */
  lemma FirstCommits(s: System, a: nat, b: nat, raw: string, s3: System, mint: Mint)
    returns (rest: seq<Step>, s': System)
    requires SystemOk(s) && SystemOk(s3) && Redeemable(s, raw)
    requires FirstHolds(s, a, b, raw, s3) && KeyOf(raw) == Some(Minted(s.log)[raw].id)
    requires mint.id !in s.used && mint.issuedAt == s.clock
    ensures RunFrom(s3, rest) == Some(s') && SystemOk(s') && s'.used <= s.used + {mint.id} && s'.clock == s.clock
    ensures s'.txs == s3.txs - {a} && |s'.log| == |s.log| + 1 && s'.log[..|s.log|] == s.log
    ensures s'.log[|s.log|].op == OpRefresh(raw, s.clock, s.clock, mint) && s'.log[|s.log|].result.Ok?
  {
    FirstOnItsWay(s, a, b, raw, s3, mint);
    rest, s' := RunsToItsEnd(s3, a, mint);
    FirstAnswer(s, a, b, raw, s3, mint, s');
  }

  lemma FirstAnswer(s: System, a: nat, b: nat, raw: string, s3: System, mint: Mint, s': System)
    requires SystemOk(s) && SystemOk(s') && Redeemable(s, raw) && FirstHolds(s, a, b, raw, s3) && mint.id !in s.used
    requires Ended(s3, a, OpRefresh(raw, s.clock, s.clock, mint), OpRefresh(raw, s.clock, s.clock, NOT_MINTED), s')
    ensures |s'.log| == |s.log| + 1 && s'.log[..|s.log|] == s.log
    ensures s'.log[|s.log|].op == OpRefresh(raw, s.clock, s.clock, mint) && s'.log[|s.log|].result.Ok?
  {
    assert s'.log[..|s.log|] == s.log;
    var op := OpRefresh(raw, s.clock, s.clock, mint);
    var served := s.log + [Event(op, Apply(s.store, op).result)];
    assert served[..|served| - 1] == s.log && served[|served| - 1].op == op;
    assert !(mint.id in s.store.tokens) by {
      assert Unused(s.store, mint.id);
    }
    ServedNext(s.store, s.log, op);
    assert served[|s.log|].result.Ok?;
  }

  /** A refresh that comes next in a history while its token can be redeemed is served. */
  lemma ServedNext(store: Store, log: seq<Event>, op: Op)
    requires LogOk(store, log) && op.OpRefresh? && op.mint.id !in store.tokens
    requires op.raw in Minted(log) && op.raw !in Spent(log)
    requires op.checkedAt <= Minted(log)[op.raw].issuedAt + TOKEN_LIFETIME
    ensures Apply(store, op).result.Ok?
  {
    HistoryIsFaithful(log);
    LookupAgrees(log, op.raw);
    OwnersExist(log, Minted(log)[op.raw].id);
    var OpRefresh(raw, startedAt, checkedAt, mint) := op;
    AnswerOfRefresh(store, raw, startedAt, checkedAt, mint);
    TokenEffects.LookupFinds(store, raw);
  }

  /** The second gets the lock then, and is refused. */
  lemma SecondRefused(s: System, b: nat, raw: string, s4: System, mint: Mint) returns (rest: seq<Step>, s': System)
    requires SystemOk(s4) && Redeemable(s, raw) && KeyOf(raw) == Some(Minted(s.log)[raw].id)
    requires At(s4, b, Begun) && IsFresh(s4.txs[b], raw, s.clock) && s4.clock == s.clock && b !in s.txs
    requires s4.txs == s.txs[b := s4.txs[b]] && mint.id !in s4.used && mint.issuedAt == s.clock
    requires |s4.log| == |s.log| + 1 && Spends(s4.log[|s.log|].op) && s4.log[|s.log|].result.Ok?
    requires s4.log[|s.log|].op.raw == raw
    ensures RunFrom(s4, rest) == Some(s') && s'.txs == s.txs
    ensures s'.log == s4.log + [Event(OpRefresh(raw, s.clock, s.clock, NOT_MINTED), Err(TokenRevoked))]
  {
    SecondOnItsWay(s, b, raw, s4, mint);
    rest, s' := RunsToItsEnd(s4, b, mint);
    RevokedAnswer(s.clock, |s.log|, b, raw, s4, mint, s');
    assert s4.txs - {b} == s.txs;
  }

  lemma SecondOnItsWay(s: System, b: nat, raw: string, s4: System, mint: Mint)
    requires Redeemable(s, raw) && KeyOf(raw) == Some(Minted(s.log)[raw].id) && b !in s.txs
    requires At(s4, b, Begun) && IsFresh(s4.txs[b], raw, s.clock) && s4.clock == s.clock
    requires s4.txs == s.txs[b := s4.txs[b]] && mint.id !in s4.used && mint.issuedAt == s.clock
    ensures OnItsWay(s4, b, mint)
  {
    forall u | u in s4.txs && u != b ensures !Holds(s4.txs[u], Minted(s.log)[raw].id) {
      assert s4.txs[u] == s.txs[u];
    }
  }

  /** Whatever the refresh of a spent token ended with, it is "revoked". */
  lemma RevokedAnswer(now: int, n: nat, b: nat, raw: string, s4: System, mint: Mint, s': System)
    requires SystemOk(s') && |s4.log| == n + 1
    requires Spends(s4.log[n].op) && s4.log[n].result.Ok? && s4.log[n].op.raw == raw
    requires Ended(s4, b, OpRefresh(raw, now, now, mint), OpRefresh(raw, now, now, NOT_MINTED), s')
    ensures s'.log == s4.log + [Event(OpRefresh(raw, now, now, NOT_MINTED), Err(TokenRevoked))]
  {
    assert s'.log[n] == s4.log[n];
    SpentIsRevoked(s'.log, n, raw);
  }

  lemma SpentIsRevoked(log: seq<Event>, n: nat, raw: string)
    requires History(log) && |log| == n + 2
    requires Spends(log[n].op) && log[n].result.Ok? && log[n].op.raw == raw
    requires log[n + 1].op.OpRefresh? && log[n + 1].op.raw == raw
    ensures log[n + 1].result == Err(TokenRevoked)
  {
    HistoryIsFaithful(log);
    SingleRedemption(log, n, n + 1);
  }

  lemma Regroup(a: seq<Step>, b: seq<Step>, c: seq<Step>, d: seq<Step>)
    ensures (a + b) + (c + d) == a + (b + c + d)
  {
  }

  lemma RunsThrough(schedule: seq<Step>, waiting: seq<Step>, s3: System, commits: seq<Step>, s4: System,
                    refused: seq<Step>, s5: System)
    returns (rest: seq<Step>)
    requires Run(schedule + waiting) == Some(s3) && RunFrom(s3, commits) == Some(s4) && RunFrom(s4, refused) == Some(s5)
    ensures rest == waiting + commits + refused && Run(schedule + rest) == Some(s5)
  {
    RunsOn(s3, commits, s4, refused);
    RunContinues(schedule + waiting, s3, commits + refused);
    Regroup(schedule, waiting, commits, refused);
    rest := waiting + commits + refused;
  }

  /** What the two requests add to the log. */
  ghost predicate OneServedOneRefused(s: System, raw: string, mint: Mint, s': System) {
    && s'.txs == s.txs && |s'.log| == |s.log| + 2 && s'.log[..|s.log|] == s.log
    && s'.log[|s.log|].op == OpRefresh(raw, s.clock, s.clock, mint) && s'.log[|s.log|].result.Ok?
    && s'.log[|s.log| + 1] == Event(OpRefresh(raw, s.clock, s.clock, NOT_MINTED), Err(TokenRevoked))
  }

  /** With the first gone, the others are as they were before, and the second still waits. */
  lemma SecondLeft(s: System, a: nat, b: nat, raw: string, s3: System, s4: System)
    requires Redeemable(s, raw) && a != b && a !in s.txs && b !in s.txs && FirstHolds(s, a, b, raw, s3)
    requires s4.txs == s3.txs - {a}
    ensures At(s4, b, Begun) && IsFresh(s4.txs[b], raw, s.clock) && s4.txs == s.txs[b := s4.txs[b]]
  {
  }

  lemma BothLogged(s: System, raw: string, mint: Mint, log: seq<Event>, s': System)
    requires s'.txs == s.txs && |log| == |s.log| + 1 && log[..|s.log|] == s.log
    requires log[|s.log|].op == OpRefresh(raw, s.clock, s.clock, mint) && log[|s.log|].result.Ok?
    requires s'.log == log + [Event(OpRefresh(raw, s.clock, s.clock, NOT_MINTED), Err(TokenRevoked))]
    ensures OneServedOneRefused(s, raw, mint, s')
  {
    assert s'.log[..|s.log|] == log[..|s.log|];
  }

  lemma TakesSteps(s: System, rest: seq<Step>, s': System)
    requires RunFrom(s, rest) == Some(s') && s != s'
    ensures rest != []
  {
  }

  lemma BothAnswered(s: System, a: nat, b: nat, raw: string, s3: System, mint: Mint, other: Mint)
    returns (commits: seq<Step>, s4: System, refused: seq<Step>, s5: System)
    requires SystemOk(s) && SystemOk(s3) && Redeemable(s, raw) && a != b && a !in s.txs && b !in s.txs
    requires FirstHolds(s, a, b, raw, s3) && KeyOf(raw) == Some(Minted(s.log)[raw].id)
    requires mint.id !in s.used && other.id !in s.used && mint.id != other.id
    requires mint.issuedAt == other.issuedAt == s.clock
    ensures RunFrom(s3, commits) == Some(s4) && RunFrom(s4, refused) == Some(s5) && commits != []
    ensures OneServedOneRefused(s, raw, mint, s5)
  {
    commits, s4 := FirstCommits(s, a, b, raw, s3, mint);
    SecondLeft(s, a, b, raw, s3, s4);
    TakesSteps(s3, commits, s4);
    refused, s5 := SecondRefused(s, b, raw, s4, other);
    BothLogged(s, raw, mint, s4.log, s5);
  }

  /**
   On every reachable system where a token can be redeemed, two refreshes of it can be open together:
   while the first holds the row the second waits; the first commits and is served, the second is
   refused as revoked.
   */
  lemma TwoRefreshes(schedule: seq<Step>, a: nat, b: nat, raw: string, mint: Mint, other: Mint)
    returns (rest: seq<Step>)
    requires Run(schedule).Some? && Redeemable(Run(schedule).value, raw)
    requires a != b && a !in Run(schedule).value.txs && b !in Run(schedule).value.txs
    requires var s := Run(schedule).value;
             && mint.id !in s.used && other.id !in s.used && mint.id != other.id
             && mint.issuedAt == other.issuedAt == s.clock
    ensures |rest| > 3 && rest[..3] == [Begin(a, RefreshJob(raw)), Begin(b, RefreshJob(raw)), LockRow(a)]
    ensures Run(schedule + rest[..3]).Some?
    ensures FirstHolds(Run(schedule).value, a, b, raw, Run(schedule + rest[..3]).value)
    ensures Run(schedule + rest).Some?
    ensures OneServedOneRefused(Run(schedule).value, raw, mint, Run(schedule + rest).value)
  {
    var s := Run(schedule).value;
    RedeemableRow(schedule, raw);
    var waiting := SecondWaits(schedule, a, b, raw);
    var s3 := Run(schedule + waiting).value;
    RunIsOk(schedule + waiting);
    var commits, s4, refused, s5 := BothAnswered(s, a, b, raw, s3, mint, other);
    rest := RunsThrough(schedule, waiting, s3, commits, s4, refused, s5);
    assert rest[..3] == waiting;
  }

  /** And such a system is reachable: right after a first sign-in through a provider. */
  lemma TwoRefreshesExample(u: Id, i: Id, first: Mint, mint: Mint, other: Mint)
    returns (schedule: seq<Step>, rest: seq<Step>)
    requires u != i && first.id != u && first.id != i && first.issuedAt == 1
    requires mint.id !in {u, i, first.id} && other.id !in {u, i, first.id, mint.id}
    requires mint.issuedAt == other.issuedAt == 0
    ensures Run(schedule + rest).Some?
    ensures exists n :: 0 <= n < |schedule + rest| && BothOpen((schedule + rest)[..n], 1, 2)
    ensures var log := Run(schedule + rest).value.log;
            && |log| == 3 && log[1].op.OpRefresh? && log[2].op.OpRefresh?
            && log[1].op.raw == log[2].op.raw == MintedRaw(first)
            && log[1].result.Ok? && log[2].result == Err(TokenRevoked)
  {
    schedule := SignedIn(u, i, first);
    rest := TwoRefreshes(schedule, 1, 2, MintedRaw(first), mint, other);
    BothOpenThen(schedule, 1, 2, MintedRaw(first), rest);
  }

  lemma BothOpenThen(schedule: seq<Step>, a: nat, b: nat, raw: string, rest: seq<Step>)
    requires Run(schedule).Some? && |rest| > 3 && Run(schedule + rest[..3]).Some?
    requires raw in Minted(Run(schedule).value.log)
    requires FirstHolds(Run(schedule).value, a, b, raw, Run(schedule + rest[..3]).value)
    ensures exists n :: 0 <= n < |schedule + rest| && BothOpen((schedule + rest)[..n], a, b)
  {
    var n := |schedule| + 3;
    assert (schedule + rest)[..n] == schedule + rest[..3];
    assert BothOpen((schedule + rest)[..n], a, b);
  }

  ghost predicate BothOpen(schedule: seq<Step>, a: nat, b: nat) {
    && Run(schedule).Some? && a in Run(schedule).value.txs && b in Run(schedule).value.txs
    && Run(schedule).value.txs[a].job == Run(schedule).value.txs[b].job
  }

  lemma SignedIn(u: Id, i: Id, first: Mint) returns (schedule: seq<Step>)
    requires u != i && first.id != u && first.id != i && first.issuedAt == 1
    ensures Run(schedule).Some?
    ensures var s := Run(schedule).value;
            && s.txs == map[] && s.clock == 0 && s.used == {u, i, first.id} && |s.log| == 1
            && Redeemable(s, MintedRaw(first))
  {
    var op := OpCallback(EmailDrift.FIRST, u, i, 1, first);
    var log := EmailDrift.SignsInFirst(u, i, first);
    FirstEvent(log, op);
    WholeAnytime([], INIT, op);
    schedule := [] + [WholeTransaction(op)];
    var s := Served(INIT, op);
    assert s.log == log;
    HistoryIsFaithful(log);
    MintedFirst(log, op, first);
  }

  /** The first event of a history is its request on the empty store. */
  lemma FirstEvent(log: seq<Event>, op: Op)
    requires History(log) && |log| == 1 && log[0].op == op && log[0].result.Ok?
    ensures log == [Event(op, Apply(EMPTY, op).result)] && FreshFor(EMPTY, {}, op) && Issued([]) == {}
  {
    assert log[..0] == [] && log == [log[0]];
  }

  lemma MintedFirst(log: seq<Event>, op: Op, first: Mint)
    requires Faithful(EMPTY, log) && |log| == 1 && log[0].op == op && op.OpCallback? && op.mint == first
    requires log[0].result.Ok?
    ensures MintedRaw(first) in Minted(log) && MintedRaw(first) !in Spent(log)
    ensures Minted(log)[MintedRaw(first)].issuedAt == first.issuedAt
  {
    assert log[..0] == [];
    FaithfulAt(EMPTY, log, 0);
    AnswerKinds(EMPTY, log[0]);
    TokenEffects.EffectSound(EMPTY, log[0]);
    TokenEffects.MintSound(EMPTY, log[0]);
  }
}
