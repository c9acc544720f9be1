/**
 Graceful shutdown: connections and their handlers, the signal, `Shutdown`, `Wait`, the two selects
 and the 25-second deadline, as goroutines whose steps interleave freely.

 A request is counted between the tracker's `Add` and `Done`; before `Add` and after `Done` its
 handler runs uncounted. `Shutdown` closes the listener, then idle connections as they appear. When
 no connection is left it returns the error of closing the listener, if there was one; at the
 deadline it returns an error in any case.
 */
module Shutdown {
  import opened Wrappers

  const TIMEOUT := 25

  /** `Entered` is before `Add`, `Tracked` between `Add` and `Done`, `Left` after `Done`. */
  datatype Conn = Opened | Entered | Tracked | Left | Idle

  /** The goroutine that runs `srv.Shutdown`. */
  datatype Stopper = NotStarted | Started | Polling | Returned(failed: bool)

  /** The goroutine that runs `wg.Wait`. */
  datatype Waiter = Asleep | Waiting | Finished

  /** The main goroutine: serving, in the final select, behind `waitDone`, or out. */
  datatype Main = Serving | Selecting | Receiving | Clean(failed: bool) | Forced | Fatal

  datatype System = System(
    conns: map<nat, Conn>,
    counter: int,
    listening: bool,
    main: Main,
    stopper: Stopper,
    waiter: Waiter,
    clock: nat,
    deadline: nat)

  const INIT := System(map[], 0, true, Serving, NotStarted, Asleep, 0, 0)

  datatype Step =
    | Accept(c: nat)
    | ReadRequest(c: nat)
    | Add(c: nat)
    | Unmatched(c: nat)
    | Done(c: nat)
    | KeepAlive(c: nat)
    | CloseServed(c: nat)
    | Hangup(c: nat)
    | ServerFails
    | Signal
    | CloseListener
    | CloseIdle(c: nat)
    | ShutdownReturns(closeFailed: bool)
    | ShutdownTimesOut
    | WaitReturns
    | SelectDone
    | SelectTimeout
    | ReceiveError
    | Tick(seconds: nat)

  predicate Is(s: System, c: nat, state: Conn) {
    c in s.conns && s.conns[c] == state
  }

  predicate Exited(s: System) {
    s.main.Clean? || s.main.Forced? || s.main.Fatal?
  }

  /** What a step waits for, apart from the process still being there. */
  predicate Ready(s: System, step: Step) {
    match step
    case Accept(c) => s.listening && c !in s.conns
    case ReadRequest(c) => Is(s, c, Opened) || Is(s, c, Idle)
    case Add(c) => Is(s, c, Entered)
    case Unmatched(c) => Is(s, c, Entered)
    case Done(c) => Is(s, c, Tracked)
    case KeepAlive(c) => Is(s, c, Left) && s.listening
    case CloseServed(c) => Is(s, c, Left)
    case Hangup(c) => Is(s, c, Opened) || Is(s, c, Idle)
    case ServerFails => s.main.Serving?
    case Signal => s.main.Serving?
    case CloseListener => s.stopper.Started?
    case CloseIdle(c) => s.stopper.Polling? && (Is(s, c, Idle) || Is(s, c, Opened))
    case ShutdownReturns(_) => s.stopper.Polling? && s.conns == map[]
    case ShutdownTimesOut => s.stopper.Polling? && s.clock >= s.deadline
    case WaitReturns => s.waiter.Waiting? && s.counter == 0
    case SelectDone => s.main.Selecting? && s.waiter.Finished?
    case SelectTimeout => s.main.Selecting? && s.clock >= s.deadline
    case ReceiveError => s.main.Receiving? && s.stopper.Returned?
    case Tick(_) => true
  }

  predicate Enabled(s: System, step: Step) {
    !Exited(s) && Ready(s, step)
  }

  function Next(s: System, step: Step): System
    requires Enabled(s, step)
  {
    match step
    case Accept(c) => s.(conns := s.conns[c := Opened])
    case ReadRequest(c) => s.(conns := s.conns[c := Entered])
    case Add(c) => s.(conns := s.conns[c := Tracked], counter := s.counter + 1)
    case Unmatched(c) => s.(conns := s.conns[c := Left])
    case Done(c) => s.(conns := s.conns[c := Left], counter := s.counter - 1)
    case KeepAlive(c) => s.(conns := s.conns[c := Idle])
    case CloseServed(c) => s.(conns := s.conns - {c})
    case Hangup(c) => s.(conns := s.conns - {c})
    case ServerFails => s.(main := Fatal)
    case Signal => s.(main := Selecting, stopper := Started, waiter := Waiting, deadline := s.clock + TIMEOUT)
    case CloseListener => s.(listening := false, stopper := Polling)
    case CloseIdle(c) => s.(conns := s.conns - {c})
    case ShutdownReturns(closeFailed) => s.(stopper := Returned(closeFailed))
    case ShutdownTimesOut => s.(stopper := Returned(true))
    case WaitReturns => s.(waiter := Finished)
    case SelectDone => s.(main := Receiving)
    case SelectTimeout => s.(main := Forced)
    case ReceiveError => s.(main := Clean(s.stopper.failed))
    case Tick(n) => s.(clock := s.clock + n)
  }

  // ---------------------------------------------------------------- what every step keeps

  function TrackedOf(conns: map<nat, Conn>): set<nat> {
    set c | c in conns && conns[c].Tracked?
  }

  ghost predicate SystemOk(s: System) {
    && s.counter == |TrackedOf(s.conns)|
    && (s.main.Serving? ==> s.stopper.NotStarted? && s.waiter.Asleep?)
    && (s.stopper.NotStarted? || s.stopper.Started? ==> s.listening)
    && (s.stopper.Polling? || s.stopper.Returned? ==> !s.listening)
    && (s.stopper.Returned? && (!s.stopper.failed || s.clock < s.deadline) ==> s.conns == map[])
    && (s.main.Selecting? || s.main.Receiving? || s.main.Clean? || s.main.Forced? ==>
          !s.stopper.NotStarted? && !s.waiter.Asleep?)
    && (s.main.Receiving? || s.main.Clean? ==> s.waiter.Finished?)
    && (s.main.Clean? ==> s.stopper == Returned(s.main.failed))
    && (s.main.Forced? ==> s.clock >= s.deadline)
  }

  lemma SetConn(conns: map<nat, Conn>, c: nat, state: Conn)
    ensures |TrackedOf(conns[c := state])|
         == |TrackedOf(conns)| - (if c in TrackedOf(conns) then 1 else 0) + (if state.Tracked? then 1 else 0)
  {
    var without := TrackedOf(conns) - {c};
    assert TrackedOf(conns[c := state]) == if state.Tracked? then without + {c} else without;
  }

  lemma DropConn(conns: map<nat, Conn>, c: nat)
    requires c in conns && !conns[c].Tracked?
    ensures TrackedOf(conns - {c}) == TrackedOf(conns)
  {
  }

  lemma StepKeeps(s: System, step: Step)
    requires SystemOk(s) && Enabled(s, step)
    ensures SystemOk(Next(s, step))
  {
    match step
    case Accept(c) => SetConn(s.conns, c, Opened);
    case ReadRequest(c) => SetConn(s.conns, c, Entered);
    case Add(c) => SetConn(s.conns, c, Tracked);
    case Unmatched(c) => SetConn(s.conns, c, Left);
    case Done(c) => SetConn(s.conns, c, Left);
    case KeepAlive(c) => SetConn(s.conns, c, Idle);
    case CloseServed(c) => DropConn(s.conns, c);
    case Hangup(c) => DropConn(s.conns, c);
    case CloseIdle(c) => DropConn(s.conns, c);
    case _ =>
  }

  function Run(schedule: seq<Step>): Option<System> {
    if schedule == [] then Some(INIT)
    else
      var last := |schedule| - 1;
      match Run(schedule[..last])
      case Some(s) => if Enabled(s, schedule[last]) then Some(Next(s, schedule[last])) else None
      case None => None
  }

  lemma {:induction false} RunIsOk(schedule: seq<Step>)
    requires Run(schedule).Some?
    ensures SystemOk(Run(schedule).value)
  {
    if schedule == [] {
      assert TrackedOf(INIT.conns) == {};
    } else {
      var last := |schedule| - 1;
      RunIsOk(schedule[..last]);
      StepKeeps(Run(schedule[..last]).value, schedule[last]);
    }
  }

  // ---------------------------------------------------------------- the properties

  /** In every interleaving the counter is the number of tracked handlers running. */
  lemma CounterIsTracked(schedule: seq<Step>)
    requires Run(schedule).Some?
    ensures Run(schedule).value.counter == |TrackedOf(Run(schedule).value.conns)|
  {
    RunIsOk(schedule);
  }

  /** A handler is running, counted or not. */
  predicate Busy(s: System, c: nat) {
    Is(s, c, Entered) || Is(s, c, Tracked) || Is(s, c, Left)
  }

  /** A request could still arrive. */
  predicate Reachable(s: System, c: nat) {
    Ready(s, Accept(c)) || Ready(s, ReadRequest(c))
  }

  /**
   The clean exit with a nil error from `Shutdown`: no handler is running and, were the process to
   stay, none would ever start.
   */
  lemma CleanExitIsQuiet(schedule: seq<Step>, c: nat)
    requires Run(schedule).Some? && Run(schedule).value.main == Clean(false)
    ensures !Busy(Run(schedule).value, c) && !Reachable(Run(schedule).value, c) && Run(schedule).value.counter == 0
  {
    RunIsOk(schedule);
    assert TrackedOf(Run(schedule).value.conns) == {};
  }

  lemma OneStep(schedule: seq<Step>, step: Step)
    requires Run(schedule).Some? && Enabled(Run(schedule).value, step)
    ensures Run(schedule + [step]) == Some(Next(Run(schedule).value, step))
  {
    var longer := schedule + [step];
    assert longer[..|longer| - 1] == schedule && longer[|longer| - 1] == step;
  }

  lemma Continue(schedule: seq<Step>, s: System, step: Step, s': System) returns (longer: seq<Step>)
    requires Run(schedule) == Some(s) && Enabled(s, step) && s' == Next(s, step)
    ensures longer == schedule + [step] && Run(longer) == Some(s')
  {
    longer := schedule + [step];
    OneStep(schedule, step);
  }

  /** The run can go on with the step. */
  ghost predicate CanTake(schedule: seq<Step>, step: Step) {
    Run(schedule + [step]).Some?
  }

  /**
   Whatever the shutdown is at, a client can send a request or hang up, a request can be counted or
   find no route, a handler can finish and a served connection be closed; only new connections and
   further requests on a served one need the listener.
   */
  lemma HandlersNeverWait(schedule: seq<Step>, c: nat)
    requires Run(schedule).Some? && !Exited(Run(schedule).value)
    ensures var s := Run(schedule).value;
            && (Is(s, c, Opened) || Is(s, c, Idle) ==>
                  CanTake(schedule, ReadRequest(c)) && CanTake(schedule, Hangup(c)))
            && (Is(s, c, Entered) ==> CanTake(schedule, Add(c)) && CanTake(schedule, Unmatched(c)))
            && (Is(s, c, Tracked) ==> CanTake(schedule, Done(c)))
            && (Is(s, c, Left) ==> CanTake(schedule, CloseServed(c)))
            && (Is(s, c, Left) ==> (CanTake(schedule, KeepAlive(c)) <==> s.listening))
            && (c !in s.conns ==> (CanTake(schedule, Accept(c)) <==> s.listening))
  {
    forall step ensures CanTake(schedule, step) <==> Enabled(Run(schedule).value, step) {
      TakenIfEnabled(schedule, step);
    }
  }

  lemma TakenIfEnabled(schedule: seq<Step>, step: Step)
    requires Run(schedule).Some?
    ensures CanTake(schedule, step) <==> Enabled(Run(schedule).value, step)
  {
    var longer := schedule + [step];
    assert longer[..|longer| - 1] == schedule && longer[|longer| - 1] == step;
  }

  /** A serving main gets the signal or the server's failure, whichever comes first. */
  lemma ServingEnds(schedule: seq<Step>)
    requires Run(schedule).Some? && Run(schedule).value.main.Serving?
    ensures CanTake(schedule, Signal) && CanTake(schedule, ServerFails)
    ensures Run(schedule + [ServerFails]).value.main.Fatal? && Run(schedule + [Signal]).value.main.Selecting?
  {
    OneStep(schedule, Signal);
    OneStep(schedule, ServerFails);
  }

  // ---------------------------------------------------------------- the deadline

  /** The signal was seen and main has not left yet. */
  predicate Closing(s: System) {
    s.main.Selecting? || s.main.Receiving?
  }

  /** A step of main or of the goroutine that runs `Shutdown`, other than closing one more connection. */
  predicate Own(step: Step) {
    || step.CloseListener? || step.ShutdownReturns? || step.ShutdownTimesOut?
    || step.SelectDone? || step.SelectTimeout? || step.ReceiveError?
  }

  /** How many own steps are left at most. */
  function Remaining(s: System): nat {
    if !Closing(s) then 0
    else
      (if s.main.Selecting? then 2 else 1)
      + (if s.stopper.Started? then 2 else if s.stopper.Polling? then 1 else 0)
  }

  lemma OwnStepCounts(s: System, step: Step)
    requires SystemOk(s) && Closing(s) && Enabled(s, step) && Own(step)
    ensures Remaining(Next(s, step)) < Remaining(s)
    ensures Closing(Next(s, step)) || Exited(Next(s, step))
  {
  }

  /** Handlers, connections, the waiter and the clock neither help nor hinder. */
  lemma OtherStepCountsNot(s: System, step: Step)
    requires SystemOk(s) && Closing(s) && Enabled(s, step) && !Own(step)
    ensures var s' := Next(s, step);
            Remaining(s') == Remaining(s) && Closing(s') && s'.deadline == s.deadline && s'.clock >= s.clock
  {
  }

  /** The own step that waits for nothing but the deadline. */
  function Due(s: System): Step {
    if s.main.Selecting? then SelectTimeout
    else if s.stopper.Started? then CloseListener
    else if s.stopper.Polling? then ShutdownTimesOut
    else ReceiveError
  }

  /** Past the deadline it is enabled in every reachable state, and no other goroutine can take that away. */
  lemma DueIsEnabled(schedule: seq<Step>, step: Step)
    requires Run(schedule).Some?
    requires var s := Run(schedule).value; Closing(s) && s.clock >= s.deadline
    ensures var s := Run(schedule).value;
            && Own(Due(s)) && Enabled(s, Due(s))
            && (Enabled(s, step) && !Own(step) ==> Due(Next(s, step)) == Due(s) && Enabled(Next(s, step), Due(s)))
  {
    RunIsOk(schedule);
  }

  function OwnSteps(schedule: seq<Step>): nat {
    if schedule == [] then 0
    else
      var last := |schedule| - 1;
      OwnSteps(schedule[..last]) + if Own(schedule[last]) then 1 else 0
  }

  /** Along every continuation the own steps taken and the own steps left add up to no more than at first. */
  lemma {:induction false} OwnStepsRunOut(schedule: seq<Step>, rest: seq<Step>)
    requires Run(schedule).Some? && Closing(Run(schedule).value) && Run(schedule + rest).Some?
    ensures var s' := Run(schedule + rest).value;
            (Closing(s') || Exited(s')) && Remaining(s') + OwnSteps(rest) <= Remaining(Run(schedule).value)
  {
    if rest == [] {
      assert schedule + rest == schedule;
    } else {
      var last, all := |rest| - 1, schedule + rest;
      assert all[..|all| - 1] == schedule + rest[..last] && all[|all| - 1] == rest[last];
      OwnStepsRunOut(schedule, rest[..last]);
      RunIsOk(schedule + rest[..last]);
      var s := Run(schedule + rest[..last]).value;
      if Own(rest[last]) {
        OwnStepCounts(s, rest[last]);
      } else {
        OtherStepCountsNot(s, rest[last]);
      }
    }
  }

  /**
   However requests, connections, the waiter and the clock interleave with them, at most four steps of
   main and of `Shutdown` are left once the signal was seen. A continuation with that many of them has
   exited, and past the deadline one is always enabled.
   */
  lemma DeadlineEnds(schedule: seq<Step>, rest: seq<Step>)
    requires Run(schedule).Some? && Closing(Run(schedule).value) && Run(schedule + rest).Some?
    ensures Remaining(Run(schedule).value) <= 4
    ensures OwnSteps(rest) >= Remaining(Run(schedule).value) ==> Exited(Run(schedule + rest).value)
    ensures var s' := Run(schedule + rest).value;
            Exited(s') || (Closing(s') && (s'.clock >= s'.deadline ==> Own(Due(s')) && Enabled(s', Due(s'))))
  {
    OwnStepsRunOut(schedule, rest);
    var s' := Run(schedule + rest).value;
    if Closing(s') && s'.clock >= s'.deadline {
      DueIsEnabled(schedule + rest, Due(s'));
    }
  }

  /** Time does not pass the deadline while main has not left: what is due then is taken first. */
  ghost predicate Timely(schedule: seq<Step>) {
    schedule == [] ||
    (var init, step := schedule[..|schedule| - 1], schedule[|schedule| - 1];
     && Timely(init)
     && (step.Tick? && Run(init).Some? && Closing(Run(init).value) ==>
           Run(init).value.clock + step.seconds <= Run(init).value.deadline))
  }

  lemma ClosingStep(s: System, step: Step)
    requires Enabled(s, step) && Closing(s) && s.clock <= s.deadline
    requires step.Tick? ==> s.clock + step.seconds <= s.deadline
    ensures var s' := Next(s, step);
            && (Closing(s') || s'.main.Clean? || s'.main.Forced?)
            && s'.deadline == s.deadline && s.clock <= s'.clock <= s'.deadline
  {
  }

  /** The signal's step, and what it leaves, in every run that goes on from it. */
  lemma {:induction false} AfterSignal(schedule: seq<Step>, n: nat)
    requires Run(schedule).Some? && Timely(schedule) && n < |schedule| && schedule[n].Signal?
    ensures Run(schedule[..n]).Some?
    ensures var s, s' := Run(schedule[..n]).value, Run(schedule).value;
            && (Closing(s') || s'.main.Clean? || s'.main.Forced?)
            && s'.deadline == s.clock + TIMEOUT && s.clock <= s'.clock <= s'.deadline
  {
    var init := schedule[..|schedule| - 1];
    if n < |init| {
      AfterSignal(init, n);
      assert init[..n] == schedule[..n];
      ClosingStep(Run(init).value, schedule[|init|]);
    } else {
      assert init == schedule[..n];
    }
  }

  /**
   The final select ends by the 25-second deadline: in every timely run, whatever else happens after
   the signal, main has left within 25 seconds of it, or it is still in there and, once the 25
   seconds are over, its next step is enabled and no time passes before that.
   */
  lemma ExitsByDeadline(schedule: seq<Step>, n: nat, step: Step)
    requires Run(schedule).Some? && Timely(schedule) && n < |schedule| && schedule[n].Signal?
    ensures Run(schedule[..n]).Some?
    ensures var signalled, s := Run(schedule[..n]).value.clock, Run(schedule).value;
            && s.clock <= signalled + 25
            && (s.main.Clean? || s.main.Forced? || Closing(s))
            && (Closing(s) && s.clock == signalled + 25 ==>
                  Own(Due(s)) && Enabled(s, Due(s))
                  && (step.Tick? && step.seconds > 0 ==> !Timely(schedule + [step])))
  {
    AfterSignal(schedule, n);
    var s := Run(schedule).value;
    if Closing(s) && s.clock >= s.deadline {
      DueIsEnabled(schedule, Due(s));
    }
    var longer := schedule + [step];
    assert longer[..|longer| - 1] == schedule && longer[|longer| - 1] == step;
  }

  // ---------------------------------------------------------------- when a clean exit can be busy

  ghost predicate EndsBusy(schedule: seq<Step>, rest: seq<Step>) {
    && Run(schedule + rest).Some? && Run(schedule + rest).value.main.Clean?
    && exists c :: Busy(Run(schedule + rest).value, c)
  }

  /** Without a listener and without a connection nothing can arrive. */
  lemma {:induction false} QuietStaysQuiet(schedule: seq<Step>, rest: seq<Step>)
    requires Run(schedule).Some? && Run(schedule + rest).Some? && !Run(schedule).value.main.Serving?
    requires !Run(schedule).value.listening && Run(schedule).value.conns == map[]
    ensures var s' := Run(schedule + rest).value; !s'.main.Serving? && !s'.listening && s'.conns == map[]
  {
    if rest == [] {
      assert schedule + rest == schedule;
    } else {
      var last, all := |rest| - 1, schedule + rest;
      assert all[..|all| - 1] == schedule + rest[..last] && all[|all| - 1] == rest[last];
      QuietStaysQuiet(schedule, rest[..last]);
    }
  }

  /** One more step behind a continuation. */
  lemma Extend(schedule: seq<Step>, rest: seq<Step>, step: Step) returns (longer: seq<Step>)
    requires Run(schedule + rest).Some? && Enabled(Run(schedule + rest).value, step)
    ensures longer == rest + [step] && Run(schedule + longer) == Some(Next(Run(schedule + rest).value, step))
  {
    longer := rest + [step];
    OneStep(schedule + rest, step);
    assert schedule + rest + [step] == schedule + longer;
  }

  /** A number no connection has. */
  lemma NewConn(conns: map<nat, Conn>) returns (c: nat)
    ensures c !in conns
  {
    c := Bound(conns.Keys);
  }

  lemma {:induction false} Bound(used: set<nat>) returns (n: nat)
    ensures forall c :: c in used ==> c < n
    decreases |used|
  {
    if used == {} {
      n := 0;
    } else {
      var c :| c in used;
      var m := Bound(used - {c});
      n := if c < m then m else c + 1;
      forall d | d in used ensures d < n {
        assert d == c || d in used - {c};
      }
    }
  }

  /** Before the listener is closed a request can still come in, and a connection can still bring one. */
  lemma BecomesBusy(schedule: seq<Step>) returns (rest: seq<Step>, c: nat)
    requires Run(schedule).Some? && Run(schedule).value.main.Receiving?
    requires Run(schedule).value.stopper.Started? || Run(schedule).value.conns != map[]
    ensures Run(schedule + rest).Some? && Busy(Run(schedule + rest).value, c)
    ensures var s, s' := Run(schedule).value, Run(schedule + rest).value;
            s'.main == s.main && s'.stopper == s.stopper && s'.clock == s.clock && s'.deadline == s.deadline
  {
    RunIsOk(schedule);
    var s := Run(schedule).value;
    rest := [];
    assert schedule + rest == schedule;
    if s.conns == map[] {
      c := NewConn(s.conns);
      rest := Extend(schedule, rest, Accept(c));
    } else {
      c :| c in s.conns;
    }
    if !Busy(Run(schedule + rest).value, c) {
      rest := Extend(schedule, rest, ReadRequest(c));
    }
  }

  /** From there the deadline passes, `Shutdown` gives up and main leaves, the handler still running. */
  lemma LeavesBusy(schedule: seq<Step>, c: nat) returns (rest: seq<Step>)
    requires Run(schedule).Some? && Run(schedule).value.main.Receiving? && Busy(Run(schedule).value, c)
    ensures EndsBusy(schedule, rest)
  {
    RunIsOk(schedule);
    rest := [];
    assert schedule + rest == schedule;
    if Run(schedule).value.stopper.Started? {
      rest := Extend(schedule, rest, CloseListener);
    }
    if Run(schedule + rest).value.stopper.Polling? {
      rest := Extend(schedule, rest, Tick(Run(schedule + rest).value.deadline));
      rest := Extend(schedule, rest, ShutdownTimesOut);
    }
    rest := Extend(schedule, rest, ReceiveError);
    assert Busy(Run(schedule + rest).value, c);
  }

  lemma CanEndBusy(schedule: seq<Step>) returns (rest: seq<Step>)
    requires Run(schedule).Some? && Run(schedule).value.main.Receiving?
    requires Run(schedule).value.stopper.Started? || Run(schedule).value.conns != map[]
    ensures EndsBusy(schedule, rest)
  {
    var first, c := BecomesBusy(schedule);
    var second := LeavesBusy(schedule + first, c);
    rest := first + second;
    assert schedule + first + second == schedule + rest;
  }

  lemma NeverEndsBusy(schedule: seq<Step>, rest: seq<Step>)
    requires Run(schedule).Some? && Run(schedule).value.main.Receiving?
    requires !Run(schedule).value.stopper.Started? && Run(schedule).value.conns == map[]
    ensures !EndsBusy(schedule, rest)
  {
    RunIsOk(schedule);
    if Run(schedule + rest).Some? {
      QuietStaysQuiet(schedule, rest);
    }
  }

  /**
   Once main is behind `waitDone`, a clean exit with a running handler can still happen exactly if
   the listener is open or a connection is left.
   */
  lemma BusyCleanExitIff(schedule: seq<Step>)
    requires Run(schedule).Some? && Run(schedule).value.main.Receiving?
    ensures (exists rest :: EndsBusy(schedule, rest))
       <==> Run(schedule).value.stopper.Started? || Run(schedule).value.conns != map[]
  {
    if Run(schedule).value.stopper.Started? || Run(schedule).value.conns != map[] {
      var rest := CanEndBusy(schedule);
    } else {
      forall rest ensures !EndsBusy(schedule, rest) {
        NeverEndsBusy(schedule, rest);
      }
    }
  }

  // ---------------------------------------------------------------- what `Wait` waits for

  /** No handler is between `Add` and `Done` after the first `i` steps. */
  ghost predicate NoneTracked(schedule: seq<Step>, i: nat)
    requires i <= |schedule|
  {
    Run(schedule[..i]).Some? && forall c :: !Is(Run(schedule[..i]).value, c, Tracked)
  }

  /** Neither undone nor postponed by any step. */
  lemma SignalStays(s: System, step: Step)
    requires Enabled(s, step) && Closing(s)
    ensures var s' := Next(s, step); (Closing(s') || s'.main.Clean? || s'.main.Forced?) && s'.deadline == s.deadline
  {
  }

  /** The signal leaves main in the final select, behind `waitDone` or out of it, with its deadline. */
  lemma {:induction false} SinceSignal(schedule: seq<Step>, n: nat)
    requires Run(schedule).Some? && n < |schedule| && schedule[n].Signal?
    ensures Run(schedule[..n]).Some?
    ensures var s := Run(schedule).value;
            && (Closing(s) || s.main.Clean? || s.main.Forced?)
            && s.deadline == Run(schedule[..n]).value.clock + 25
  {
    var init := schedule[..|schedule| - 1];
    if n < |init| {
      SinceSignal(init, n);
      assert init[..n] == schedule[..n];
      SignalStays(Run(init).value, schedule[|init|]);
    } else {
      assert init == schedule[..n];
    }
  }

  /** A main that stopped serving, other than by a failure of the server, got the signal. */
  lemma {:induction false} SignalCame(schedule: seq<Step>) returns (n: nat)
    requires Run(schedule).Some? && !Run(schedule).value.main.Serving? && !Run(schedule).value.main.Fatal?
    ensures n < |schedule| && schedule[n].Signal?
  {
    n := |schedule| - 1;
    if !schedule[n].Signal? {
      n := SignalCame(schedule[..n]);
    }
  }

  /** `Wait` returned at some step after the signal, when no handler was tracked. */
  lemma {:induction false} WaitReturned(schedule: seq<Step>, n: nat) returns (k: nat)
    requires Run(schedule).Some? && n < |schedule| && schedule[n].Signal? && Run(schedule).value.waiter.Finished?
    ensures n < k < |schedule| && schedule[k] == WaitReturns && NoneTracked(schedule, k)
  {
    var last := |schedule| - 1;
    var init := schedule[..last];
    if schedule[last] == WaitReturns {
      k := last;
      RunIsOk(init);
      assert TrackedOf(Run(init).value.conns) == {};
      assert forall c :: Is(Run(init).value, c, Tracked) ==> c in TrackedOf(Run(init).value.conns);
    } else {
      k := WaitReturned(init, n);
      assert init[..k] == schedule[..k];
    }
  }

  /**
   What `wg.Wait` is for: before main gets behind `waitDone`, and so before any clean exit, there is a
   moment after the signal at which no handler is tracked.
   */
  lemma QuietBeforeClean(schedule: seq<Step>) returns (n: nat, k: nat)
    requires Run(schedule).Some? && (Run(schedule).value.main.Receiving? || Run(schedule).value.main.Clean?)
    ensures n < k < |schedule| && schedule[n].Signal? && schedule[k] == WaitReturns && NoneTracked(schedule, k)
  {
    RunIsOk(schedule);
    n := SignalCame(schedule);
    k := WaitReturned(schedule, n);
  }

  /**
   A handler still running at the clean exit means that `Shutdown` failed, at the deadline or later,
   although no handler was tracked when `Wait` returned.
   */
  lemma BusyAtCleanExit(schedule: seq<Step>, c: nat) returns (n: nat, k: nat)
    requires Run(schedule).Some? && Run(schedule).value.main.Clean? && Busy(Run(schedule).value, c)
    ensures n < k < |schedule| && schedule[n].Signal? && schedule[k] == WaitReturns && NoneTracked(schedule, k)
    ensures Run(schedule[..n]).Some?
    ensures var s := Run(schedule).value;
            s.main == Clean(true) && s.clock >= Run(schedule[..n]).value.clock + 25
  {
    RunIsOk(schedule);
    n, k := QuietBeforeClean(schedule);
    SinceSignal(schedule, n);
  }

  /**
   If some handler is tracked at every moment from the signal on, main is in the final select or was
   forced out of it, and forced out no earlier than 25 seconds after the signal.
   */
  lemma TrackedThroughout(schedule: seq<Step>, n: nat)
    requires Run(schedule).Some? && n < |schedule| && schedule[n].Signal?
    requires forall i :: n < i <= |schedule| ==> !NoneTracked(schedule, i)
    ensures Run(schedule[..n]).Some?
    ensures var s := Run(schedule).value;
            s.main.Selecting? || (s.main.Forced? && s.clock >= Run(schedule[..n]).value.clock + 25)
  {
    RunIsOk(schedule);
    SinceSignal(schedule, n);
    if Run(schedule).value.waiter.Finished? {
      var k := WaitReturned(schedule, n);
    }
  }

  // ---------------------------------------------------------------- the graceful way out

  /** Handlers, the server and main go on; no time passes and no client gives up. */
  predicate Peaceful(rest: seq<Step>) {
    forall i :: 0 <= i < |rest| ==> !rest[i].Tick? && !rest[i].Hangup?
  }

  /** The system after some more steps. */
  function RunFrom(s: System, rest: seq<Step>): Option<System>
    decreases |rest|
  {
    if rest == [] then Some(s)
    else if Enabled(s, rest[0]) then RunFrom(Next(s, rest[0]), rest[1..])
    else None
  }

  lemma {:induction false} RunContinues(schedule: seq<Step>, s: System, rest: seq<Step>)
    requires Run(schedule) == Some(s) && RunFrom(s, rest).Some?
    ensures Run(schedule + rest) == RunFrom(s, rest)
    decreases |rest|
  {
    if rest == [] {
      assert schedule + rest == schedule;
    } else {
      OneStep(schedule, rest[0]);
      RunContinues(schedule + [rest[0]], Next(s, rest[0]), rest[1..]);
      assert schedule + rest == schedule + [rest[0]] + rest[1..];
    }
  }

  /** A peaceful way from one system to another. */
  ghost predicate Leads(s: System, rest: seq<Step>, s': System) {
    Peaceful(rest) && RunFrom(s, rest) == Some(s')
  }

  lemma LeadsNowhere(s: System)
    ensures Leads(s, [], s)
  {
  }

  lemma LeadsOn(s: System, step: Step, rest: seq<Step>, s': System)
    requires Enabled(s, step) && !step.Tick? && !step.Hangup? && Leads(Next(s, step), rest, s')
    ensures Leads(s, [step] + rest, s')
  {
    assert ([step] + rest)[1..] == rest;
  }

  lemma {:induction false} LeadsThrough(s: System, first: seq<Step>, s1: System, second: seq<Step>, s2: System)
    requires Leads(s, first, s1) && Leads(s1, second, s2)
    ensures Leads(s, first + second, s2)
    decreases |first|
  {
    if first == [] {
      assert first + second == second;
    } else {
      assert Peaceful(first[1..]);
      LeadsThrough(Next(s, first[0]), first[1..], s1, second, s2);
      LeadsOn(s, first[0], first[1..] + second, s2);
      assert first + second == [first[0]] + (first[1..] + second);
    }
  }

  /** What is next for a connection when the server polls: its handler goes on, or it is closed. */
  function ConnStep(s: System, c: nat): Step
    requires c in s.conns
  {
    match s.conns[c]
    case Entered => Add(c)
    case Tracked => Done(c)
    case Left => CloseServed(c)
    case _ => CloseIdle(c)
  }

  function ConnSteps(state: Conn): nat {
    if state.Entered? then 3 else if state.Tracked? then 2 else 1
  }

  /** A connection ends: its request is answered, if it has one, and it is closed. */
  lemma {:induction false} ConnEnds(s: System, c: nat) returns (rest: seq<Step>, s': System)
    requires SystemOk(s) && Closing(s) && s.stopper.Polling? && c in s.conns
    ensures Leads(s, rest, s') && SystemOk(s')
    ensures s'.conns == s.conns - {c} && s' == s.(conns := s'.conns, counter := s'.counter)
    decreases ConnSteps(s.conns[c])
  {
    var step := ConnStep(s, c);
    var next := Next(s, step);
    StepKeeps(s, step);
    if c in next.conns {
      rest, s' := ConnEnds(next, c);
    } else {
      rest, s' := [], next;
      LeadsNowhere(next);
    }
    LeadsOn(s, step, rest, s');
    rest := [step] + rest;
  }

  /** What is next for `Shutdown`, `Wait` and main. */
  function WayOut(s: System): Step {
    if s.stopper.Started? then CloseListener
    else if s.main.Selecting? && s.waiter.Waiting? then WaitReturns
    else if s.main.Selecting? then SelectDone
    else if s.stopper.Polling? then ShutdownReturns(false)
    else ReceiveError
  }

  function StepsOut(s: System): nat {
    Remaining(s) + (if s.waiter.Waiting? then 1 else 0)
  }

  lemma WayOutIsOpen(s: System)
    requires SystemOk(s) && Closing(s) && s.stopper != Returned(true)
    requires s.conns == map[] || s.stopper.Started?
    ensures Enabled(s, WayOut(s)) && SystemOk(Next(s, WayOut(s)))
    ensures var s' := Next(s, WayOut(s));
            if Closing(s') then s'.stopper != Returned(true) && s'.conns == s.conns && StepsOut(s') < StepsOut(s)
            else s'.main == Clean(false)
  {
    assert s.conns == map[] ==> TrackedOf(s.conns) == {};
    StepKeeps(s, WayOut(s));
  }

  lemma {:induction false} GoesOut(s: System) returns (rest: seq<Step>, s': System)
    requires SystemOk(s) && Closing(s) && s.stopper != Returned(true)
    ensures Leads(s, rest, s') && s'.main == Clean(false)
    decreases |s.conns|, StepsOut(s)
  {
    if s.conns == map[] || s.stopper.Started? {
      WayOutIsOpen(s);
      var next := Next(s, WayOut(s));
      if Closing(next) {
        rest, s' := GoesOut(next);
      } else {
        rest, s' := [], next;
        LeadsNowhere(next);
      }
      LeadsOn(s, WayOut(s), rest, s');
      rest := [WayOut(s)] + rest;
    } else {
      var c :| c in s.conns;
      var first, s1 := ConnEnds(s, c);
      rest, s' := GoesOut(s1);
      LeadsThrough(s, first, s1, rest, s');
      rest := first + rest;
    }
  }

  /**
   Unless `Shutdown` has failed already, the clean exit without an error can be reached from wherever
   the signal found the handlers, by nothing but their own ends, the server and main.
   */
  lemma CleanExitReachable(schedule: seq<Step>) returns (rest: seq<Step>)
    requires Run(schedule).Some? && Closing(Run(schedule).value) && Run(schedule).value.stopper != Returned(true)
    ensures Peaceful(rest) && Run(schedule + rest).Some? && Run(schedule + rest).value.main == Clean(false)
  {
    RunIsOk(schedule);
    var s';
    rest, s' := GoesOut(Run(schedule).value);
    RunContinues(schedule, Run(schedule).value, rest);
  }

  // ---------------------------------------------------------------- what is left after the listener is closed

  /** Steps left in a connection that gets no further request once its present one is answered. */
  function Rank(state: Conn): nat {
    match state
    case Opened => 4
    case Idle => 4
    case Entered => 3
    case Tracked => 2
    case Left => 1
  }

  function Above(conns: map<nat, Conn>, n: nat): set<nat> {
    set c | c in conns && Rank(conns[c]) > n
  }

  /** The ranks of all connections together. */
  function Work(conns: map<nat, Conn>): nat {
    |Above(conns, 0)| + |Above(conns, 1)| + |Above(conns, 2)| + |Above(conns, 3)|
  }

  lemma AboveSet(conns: map<nat, Conn>, c: nat, state: Conn, n: nat)
    requires c in conns
    ensures |Above(conns[c := state], n)|
         == |Above(conns, n)| - (if Rank(conns[c]) > n then 1 else 0) + (if Rank(state) > n then 1 else 0)
  {
    var without := Above(conns, n) - {c};
    assert Above(conns[c := state], n) == if Rank(state) > n then without + {c} else without;
  }

  lemma AboveDrop(conns: map<nat, Conn>, c: nat, n: nat)
    requires c in conns
    ensures |Above(conns - {c}, n)| == |Above(conns, n)| - (if Rank(conns[c]) > n then 1 else 0)
  {
    assert Above(conns - {c}, n) == Above(conns, n) - {c};
  }

  lemma WorkSet(conns: map<nat, Conn>, c: nat, state: Conn)
    requires c in conns
    ensures Work(conns[c := state]) == Work(conns) - Rank(conns[c]) + Rank(state)
  {
    AboveSet(conns, c, state, 0);
    AboveSet(conns, c, state, 1);
    AboveSet(conns, c, state, 2);
    AboveSet(conns, c, state, 3);
  }

  lemma WorkDrop(conns: map<nat, Conn>, c: nat)
    requires c in conns
    ensures Work(conns - {c}) == Work(conns) - Rank(conns[c])
  {
    AboveDrop(conns, c, 0);
    AboveDrop(conns, c, 1);
    AboveDrop(conns, c, 2);
    AboveDrop(conns, c, 3);
  }

  /** A bound on all steps left but the passing of time. */
  function AllLeft(s: System): nat {
    Work(s.conns) + StepsOut(s)
  }

  lemma StepUsesUp(s: System, step: Step)
    requires SystemOk(s) && !s.listening && Enabled(s, step) && !step.Tick?
    ensures !Next(s, step).listening && AllLeft(Next(s, step)) < AllLeft(s)
  {
    match step
    case ReadRequest(c) => WorkSet(s.conns, c, Entered);
    case Add(c) => WorkSet(s.conns, c, Tracked);
    case Unmatched(c) => WorkSet(s.conns, c, Left);
    case Done(c) => WorkSet(s.conns, c, Left);
    case CloseServed(c) => WorkDrop(s.conns, c);
    case Hangup(c) => WorkDrop(s.conns, c);
    case CloseIdle(c) => WorkDrop(s.conns, c);
    case _ =>
  }

  /** Steps other than the passing of time. */
  function Moves(schedule: seq<Step>): nat {
    if schedule == [] then 0
    else
      var last := |schedule| - 1;
      Moves(schedule[..last]) + if schedule[last].Tick? then 0 else 1
  }

  /**
   Clients cannot keep the server up: once the listener is closed every connection gets at most one
   more request, so that all steps left, of whatever goroutine, are bounded beforehand.
   */
  lemma {:induction false} NothingComesAfter(schedule: seq<Step>, rest: seq<Step>)
    requires Run(schedule).Some? && !Run(schedule).value.listening && Run(schedule + rest).Some?
    ensures !Run(schedule + rest).value.listening
    ensures Moves(rest) + AllLeft(Run(schedule + rest).value) <= AllLeft(Run(schedule).value)
  {
    if rest == [] {
      assert schedule + rest == schedule;
    } else {
      var last, all := |rest| - 1, schedule + rest;
      assert all[..|all| - 1] == schedule + rest[..last] && all[|all| - 1] == rest[last];
      NothingComesAfter(schedule, rest[..last]);
      RunIsOk(schedule + rest[..last]);
      if !rest[last].Tick? {
        StepUsesUp(Run(schedule + rest[..last]).value, rest[last]);
      }
    }
  }

  // ---------------------------------------------------------------- the example

  /** A request that had been read but not counted when `Wait` returned. */
  function Missed(main: Main, stopper: Stopper, conn: Conn, clock: nat): System {
    System(map[1 := conn], if conn.Tracked? then 1 else 0, false, main, stopper, Finished, clock, TIMEOUT)
  }

  /** The signal arrives while that request is between being read and being counted. */
  lemma SignalledEarly() returns (schedule: seq<Step>)
    ensures Run(schedule) == Some(Missed(Selecting, Started, Entered, 0).(listening := true, waiter := Waiting))
  {
    var s1 := INIT.(conns := map[1 := Opened]);
    var s2 := INIT.(conns := map[1 := Entered]);
    schedule := Continue([], INIT, Accept(1), s1);
    schedule := Continue(schedule, s1, ReadRequest(1), s2);
    schedule := Continue(schedule, s2, Signal,
                         Missed(Selecting, Started, Entered, 0).(listening := true, waiter := Waiting));
  }

  lemma MissedRequest() returns (schedule: seq<Step>)
    ensures Run(schedule) == Some(Missed(Receiving, Polling, Entered, 0))
  {
    schedule := SignalledEarly();
    var s3 := Missed(Selecting, Started, Entered, 0).(listening := true, waiter := Waiting);
    schedule := Continue(schedule, s3, WaitReturns, s3.(waiter := Finished));
    schedule := Continue(schedule, s3.(waiter := Finished), SelectDone, s3.(waiter := Finished, main := Receiving));
    schedule := Continue(schedule, s3.(waiter := Finished, main := Receiving), CloseListener,
                         Missed(Receiving, Polling, Entered, 0));
  }

  /** So the message "all requests done" can be logged while a counted handler is running. */
  lemma CleanExitWhileBusyExample() returns (schedule: seq<Step>)
    ensures Run(schedule).Some? && Run(schedule).value.main.Clean?
    ensures Run(schedule).value.counter == 1 && Busy(Run(schedule).value, 1)
  {
    schedule := MissedRequest();
    schedule := Continue(schedule, Missed(Receiving, Polling, Entered, 0), Add(1),
                         Missed(Receiving, Polling, Tracked, 0));
    schedule := Continue(schedule, Missed(Receiving, Polling, Tracked, 0), Tick(TIMEOUT),
                         Missed(Receiving, Polling, Tracked, TIMEOUT));
    schedule := Continue(schedule, Missed(Receiving, Polling, Tracked, TIMEOUT), ShutdownTimesOut,
                         Missed(Receiving, Returned(true), Tracked, TIMEOUT));
    schedule := Continue(schedule, Missed(Receiving, Returned(true), Tracked, TIMEOUT), ReceiveError,
                         Missed(Clean(true), Returned(true), Tracked, TIMEOUT));
  }
}
