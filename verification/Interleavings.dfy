/**
 What the statement-by-statement system inherits from the atomic requests: every interleaving of
 refreshes, logouts and logins leaves the tables, and gives the answers, of running the same
 requests one after the other in the order they were decided.
 */
module Interleavings {
  import opened RawTokens
  import opened Model
  import opened Operations
  import opened AccountHistory
  import opened CodeHistory
  import opened TokenHistory
  import opened TokenChains
  import opened RotationSteps
  import opened Progress
  import TokenEffects

  /** Refinement: the committed store is the serial one, and so is every answer in the log. */
  lemma InterleavingIsSerial(schedule: seq<Step>)
    requires Run(schedule).Some?
    ensures var s := Run(schedule).value;
            Faithful(EMPTY, s.log) && History(s.log) && s.store == After(EMPTY, s.log)
  {
    RunIsOk(schedule);
    HistoryIsFaithful(Run(schedule).value.log);
  }

  /** In every interleaving a raw token is redeemed at most once, and never after a logout of it. */
  lemma InterleavedSingleRedemption(schedule: seq<Step>, i: nat, j: nat)
    requires Run(schedule).Some?
    requires var log := Run(schedule).value.log;
             i < j < |log| && Spends(log[i].op) && log[i].result.Ok?
             && log[j].op.OpRefresh? && log[j].op.raw == log[i].op.raw
    ensures Run(schedule).value.log[j].result == Err(TokenRevoked)
  {
    InterleavingIsSerial(schedule);
    SingleRedemption(Run(schedule).value.log, i, j);
  }

  /** In every interleaving lookup by id and MAC finds exactly what was handed out and committed. */
  lemma InterleavedLookup(schedule: seq<Step>, raw: string)
    requires Run(schedule).Some?
    ensures var s := Run(schedule).value;
            && (Lookup(s.store, raw).Ok? <==> raw in Minted(s.log))
            && (raw in Minted(s.log) ==>
                  var (id, row) := Lookup(s.store, raw).value;
                  id == Minted(s.log)[raw].id && row == RowOf(raw, Minted(s.log)[raw], row.revokedAt)
                  && (row.revokedAt.Some? <==> raw in Spent(s.log)))
  {
    InterleavingIsSerial(schedule);
    LookupAgrees(Run(schedule).value.log, raw);
  }

  /** In every interleaving a refresh succeeds exactly when what was decided before it says so. */
  lemma InterleavedRefreshIff(schedule: seq<Step>, n: nat)
    requires Run(schedule).Some? && n < |Run(schedule).value.log| && Run(schedule).value.log[n].op.OpRefresh?
    ensures var log := Run(schedule).value.log;
            var op, minted := log[n].op, Minted(log[..n]);
            log[n].result.Ok? <==>
              && op.raw in minted && op.raw !in Spent(log[..n])
              && op.checkedAt <= minted[op.raw].issuedAt + 2592000
              && op.mint.id !in TokensAfter(log[..n])
  {
    InterleavingIsSerial(schedule);
    RefreshSucceedsIff(Run(schedule).value.log, n);
  }

  /** In every interleaving a password login succeeds exactly as what was decided before it says. */
  lemma InterleavedLoginIff(schedule: seq<Step>, n: nat)
    requires Run(schedule).Some? && n < |Run(schedule).value.log| && Run(schedule).value.log[n].op.OpLogin?
    ensures var log := Run(schedule).value.log;
            var op, registered := log[n].op, Registered(log[..n]);
            log[n].result.Ok? <==>
              && op.email in registered && registered[op.email].password == op.password
              && registered[op.email].userId in VerifiedBy(log[..n]) && op.mint.id !in TokensAfter(log[..n])
  {
    InterleavingIsSerial(schedule);
    LoginSucceedsIff(Run(schedule).value.log, n);
  }

  /** In every interleaving every answer, refusals included, is the one that what was decided before it implies. */
  lemma InterleavedAnswers(schedule: seq<Step>, n: nat)
    requires Run(schedule).Some? && n < |Run(schedule).value.log|
    ensures var log := Run(schedule).value.log;
            var before, e := log[..n], log[n];
            && (e.op.OpRefresh? ==>
                  e.result == RefreshAnswer(Minted(before), Spent(before), e.op.raw, e.op.checkedAt, e.op.mint))
            && (e.op.OpLogout? ==>
                  e.result == if e.op.raw in Minted(before) then Ok(Nothing)
                              else Err(Unissued(Minted(before), e.op.raw)))
            && (e.op.OpLogin? ==>
                  e.result == LoginAnswer(Registered(before), VerifiedBy(before),
                                          IdMinted(Minted(before), e.op.mint.id),
                                          e.op.email, e.op.password, e.op.mint))
  {
    InterleavingIsSerial(schedule);
    var log := Run(schedule).value.log;
    match log[n].op
    case OpRefresh(_, _, _, _) => RefreshAnswered(log, n);
    case OpLogout(_, _) => LogoutAnswered(log, n);
    case OpLogin(_, _, _) => LoginAnswered(log, n);
    case _ =>
  }

  /** In every interleaving the committed tokens are disjoint chains. */
  lemma InterleavedChains(schedule: seq<Step>) returns (f: Forest)
    requires Run(schedule).Some?
    ensures var s := Run(schedule).value;
            DisjointChains(f, s.store.tokens, Roots(s.log), Parents(s.log))
  {
    InterleavingIsSerial(schedule);
    f := ChainsOverHistory(Run(schedule).value.log);
  }

  /** In every interleaving live tokens are chains started less live tokens logged out. */
  lemma InterleavedConservation(schedule: seq<Step>, userId: Id)
    requires Run(schedule).Some?
    ensures var s := Run(schedule).value;
            |LiveOf(s.store.tokens, userId)| == RootsFor(s.log, userId) - LiveLogoutsFor(s.log, userId)
  {
    InterleavingIsSerial(schedule);
    LiveTokensConserved(Run(schedule).value.log, userId);
  }

  // ---------------------------------------------------------------- waiting

  /** A transaction that holds a row never waits. */
  lemma HolderRuns(s: System, t: nat, mint: Mint)
    requires SystemOk(s) && t in s.txs && s.txs[t].held.Some?
    requires mint.id !in s.used && mint.issuedAt == s.clock
    ensures Enabled(s, Statement(t, s.txs[t], mint))
  {
    var tx := s.txs[t];
    assert TxOk(s.store, tx);
    TokenEffects.LookupFinds(s.store, tx.job.raw);
    forall u | u in s.txs && u != t ensures !Holds(s.txs[u], tx.held.value.0) {
      assert Holds(tx, tx.held.value.0);
    }
    StatementEnabled(s, t, mint);
  }

  /** No deadlock: whoever waits for a row waits for a transaction that can go on. */
  lemma WaitingIsForARunner(schedule: seq<Step>, t: nat, mint: Mint) returns (holder: nat)
    requires Run(schedule).Some?
    requires var s := Run(schedule).value;
             At(s, t, Begun) && !s.txs[t].job.LoginJob? && !RowFree(s, t, s.txs[t].job.raw)
             && mint.id !in s.used && mint.issuedAt == s.clock
    ensures var s := Run(schedule).value;
            holder in s.txs && holder != t && KeyOf(s.txs[t].job.raw).Some?
            && Holds(s.txs[holder], KeyOf(s.txs[t].job.raw).value)
            && Enabled(s, Statement(holder, s.txs[holder], mint))
  {
    var s := Run(schedule).value;
    RunIsOk(schedule);
    holder :| holder in s.txs && holder != t && Holds(s.txs[holder], KeyOf(s.txs[t].job.raw).value);
    HolderRuns(s, holder, mint);
  }
}
