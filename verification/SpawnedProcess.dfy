/** The life of a spawned engine: the child, the goroutine that owns cmd.Wait, Spawn itself and any
    number of callers of stop, in every interleaving. Times are in milliseconds. */
module SpawnedProcess {
  import opened Json

  const GRACE: nat := 5000

  /** What cmd.Wait can report. */
  datatype WaitErr = NoErr | ExitError(status: int) | ProcessDone | OtherErr(id: nat)

  /** ignoreExpectedExit. */
  function Ignored(e: WaitErr): WaitErr {
    match e
    case OtherErr(_) => e
    case _ => NoErr
  }

  datatype Child = Alive | Exited(err: WaitErr)

  /** The waiter goroutine: in cmd.Wait, returned from it, waitErr written, waitDone closed. */
  datatype Waiter = Waiting | Returned(err: WaitErr) | Stored | ChannelClosed

  datatype Once = NotRun | Running(runner: nat) | Finished

  /** A caller of stop. */
  datatype Caller =
    | AtOnce              // in stopOnce.Do
    | Checking            // the first select
    | Terminating         // about to send SIGTERM
    | Selecting(since: nat) // the select with the grace timer started at since
    | Killing             // the timer fired; about to kill
    | AwaitingExit        // blocked on waitDone after the kill
    | Reading             // saw waitDone closed; about to read waitErr
    | Finishing           // stopErr written; leaving stopOnce.Do
    | Back(result: WaitErr)

  /** Spawn from newProcess on: in Connect, at the top of waitReady's loop, in a probe, in its own call of
      stop (caller 0), and returned. */
  datatype Spawner = Connecting | AwaitingReady | Probing | Stopping | Failed | Owned

  datatype State = State(
    child: Child, waiter: Waiter, waits: nat, waitErr: WaitErr,
    once: Once, stopErr: WaitErr, callers: map<nat, Caller>,
    spawner: Spawner, cancelled: bool,
    now: nat, terms: nat, termAt: nat, kills: nat, killAt: nat)

  const INIT: State :=
    State(Alive, Waiting, 0, NoErr, NotRun, NoErr, map[], Connecting, false, 0, 0, 0, 0, 0)

  datatype Step =
    | Tick(ms: nat) | CancelContext
    | ChildExit(err: WaitErr) | WaitReturn | StoreErr | CloseChannel
    | Connected | ConnectFailed | SeesCancelled | SeesExited | Probe | Ready | Retry | TimedOut | SpawnFail
    | CloseRemote(c: nat)
    | EnterOnce(c: nat) | PassOnce(c: nat)
    | AlreadyGone(c: nat) | StillThere(c: nat) | SendTerm(c: nat)
    | GoneInTime(c: nat) | TimerFires(c: nat) | SendKill(c: nat) | GoneAfterKill(c: nat)
    | ReadErr(c: nat) | LeaveOnce(c: nat)

  predicate Is(s: State, c: nat, pc: Caller) { c in s.callers && s.callers[c] == pc }

  predicate Closed(s: State) { s.waiter.ChannelClosed? }

  predicate Enabled(s: State, st: Step) {
    match st
    case Tick(_) => true
    case CancelContext => true
    case ChildExit(_) => s.child.Alive?
    case WaitReturn => s.waiter.Waiting? && s.child.Exited?
    case StoreErr => s.waiter.Returned?
    case CloseChannel => s.waiter.Stored?
    case Connected => s.spawner.Connecting?
    case ConnectFailed => s.spawner.Connecting?
    case SeesCancelled => s.spawner.AwaitingReady? && s.cancelled
    case SeesExited => s.spawner.AwaitingReady? && !s.cancelled && Closed(s)
    case Probe => s.spawner.AwaitingReady? && !s.cancelled && !Closed(s)
    case Ready => s.spawner.Probing?
    case Retry => s.spawner.Probing?
    case TimedOut => s.spawner.Probing?
    case SpawnFail => s.spawner.Stopping? && 0 in s.callers && s.callers[0].Back?
    case CloseRemote(c) => s.spawner.Owned? && c > 0 && (c in s.callers ==> s.callers[c].Back?)
    case EnterOnce(c) => Is(s, c, AtOnce) && s.once.NotRun?
    case PassOnce(c) => Is(s, c, AtOnce) && s.once.Finished?
    case AlreadyGone(c) => Is(s, c, Checking) && Closed(s)
    case StillThere(c) => Is(s, c, Checking) && !Closed(s)
    case SendTerm(c) => Is(s, c, Terminating)
    case GoneInTime(c) => c in s.callers && s.callers[c].Selecting? && Closed(s)
    case TimerFires(c) => c in s.callers && s.callers[c].Selecting? && s.now >= s.callers[c].since + GRACE
    case SendKill(c) => Is(s, c, Killing)
    case GoneAfterKill(c) => Is(s, c, AwaitingExit) && Closed(s)
    case ReadErr(c) => Is(s, c, Reading)
    case LeaveOnce(c) => Is(s, c, Finishing)
  }

  function Goto(s: State, c: nat, pc: Caller): State { s.(callers := s.callers[c := pc]) }

  function Next(s: State, st: Step): State
    requires Enabled(s, st)
  {
    match st
    case Tick(ms) => s.(now := s.now + ms)
    case CancelContext => s.(cancelled := true)
    case ChildExit(err) => s.(child := Exited(err))
    case WaitReturn => s.(waiter := Returned(s.child.err), waits := s.waits + 1)
    case StoreErr => s.(waitErr := s.waiter.err, waiter := Stored)
    case CloseChannel => s.(waiter := ChannelClosed)
    case Connected => s.(spawner := AwaitingReady)
    case ConnectFailed => Goto(s, 0, AtOnce).(spawner := Stopping)
    case SeesCancelled => Goto(s, 0, AtOnce).(spawner := Stopping)
    case SeesExited => Goto(s, 0, AtOnce).(spawner := Stopping)
    case Probe => s.(spawner := Probing)
    case Ready => s.(spawner := Owned)
    case Retry => s.(spawner := AwaitingReady)
    case TimedOut => Goto(s, 0, AtOnce).(spawner := Stopping)
    case SpawnFail => s.(spawner := Failed)
    case CloseRemote(c) => Goto(s, c, AtOnce)
    case EnterOnce(c) => Goto(s, c, Checking).(once := Running(c))
    case PassOnce(c) => Goto(s, c, Back(s.stopErr))
    case AlreadyGone(c) => Goto(s, c, Reading)
    case StillThere(c) => Goto(s, c, Terminating)
    case SendTerm(c) => Goto(s, c, Selecting(s.now)).(terms := s.terms + 1, termAt := s.now)
    case GoneInTime(c) => Goto(s, c, Reading)
    case TimerFires(c) => Goto(s, c, Killing)
    case SendKill(c) => Goto(s, c, AwaitingExit).(kills := s.kills + 1, killAt := s.now)
    case GoneAfterKill(c) => Goto(s, c, Reading)
    case ReadErr(c) => Goto(s, c, Finishing).(stopErr := Ignored(s.waitErr))
    case LeaveOnce(c) => Goto(s, c, Back(s.stopErr)).(once := Finished)
  }

  function Run(steps: seq<Step>): Option<State> {
    if steps == [] then Some(INIT)
    else
      var before := Run(steps[..|steps| - 1]);
      if before.Some? && Enabled(before.value, steps[|steps| - 1]) then Some(Next(before.value, steps[|steps| - 1])) else None
  }

  // ----- invariant -----

  predicate InOnce(pc: Caller) { !pc.AtOnce? && !pc.Back? }

  /** The child is reaped once, its status stored, then announced. */
  predicate WaiterInv(s: State) {
    && s.waits == (if s.waiter.Waiting? then 0 else 1)
    && (!s.waiter.Waiting? ==> s.child.Exited?)
    && (s.waiter.Returned? ==> s.waiter.err == s.child.err)
    && (s.waiter.Stored? || Closed(s) ==> s.waitErr == s.child.err)
  }

  /** What stop should report once the child is reaped. */
  function Outcome(s: State): WaitErr { if s.child.Exited? then Ignored(s.child.err) else NoErr }

  /** What holds at the program point of a caller. */
  predicate CallerInv(s: State, c: nat, pc: Caller) {
    && (InOnce(pc) ==> s.once == Running(c))
    && (pc.Checking? || pc.Terminating? ==> s.terms == 0 && s.kills == 0)
    && (pc.Selecting? || pc.Killing? ==> s.terms == 1 && s.kills == 0)
    && (pc.Selecting? ==> pc.since == s.termAt)
    && (pc.Killing? ==> s.termAt + GRACE <= s.now)
    && (pc.AwaitingExit? ==> s.terms == 1 && s.kills == 1)
    && (pc.Reading? || pc.Finishing? ==> Closed(s))
    && (pc.Finishing? ==> s.stopErr == Outcome(s))
    && (pc.Back? ==> s.once.Finished? && pc.result == s.stopErr)
  }

  predicate OnceInv(s: State) {
    && (s.once.NotRun? ==> s.terms == 0 && s.kills == 0)
    && (s.once.Running? ==> s.once.runner in s.callers && InOnce(s.callers[s.once.runner]))
    && (s.once.Finished? ==> Closed(s) && s.stopErr == Outcome(s))
    && s.kills <= s.terms <= 1
    && (s.kills == 1 ==> s.termAt + GRACE <= s.killAt)
  }

  /** No call of stop has been made. */
  ghost predicate NobodyStops(s: State) { forall c :: c !in s.callers }

  predicate Starting(s: State) { s.spawner.Connecting? || s.spawner.AwaitingReady? || s.spawner.Probing? }

  ghost predicate SpawnInv(s: State) {
    && (Starting(s) ==> NobodyStops(s))
    && (s.spawner.Stopping? ==> s.callers.Keys == {0})
    && (s.spawner.Failed? ==> s.callers.Keys == {0} && s.callers[0].Back?)
    && (s.spawner.Owned? ==> 0 !in s.callers)
  }

  ghost predicate Inv(s: State) {
    && WaiterInv(s) && OnceInv(s) && SpawnInv(s) && (NobodyStops(s) ==> s.once.NotRun?)
    && forall c :: c in s.callers ==> CallerInv(s, c, s.callers[c])
  }

  lemma WaiterStep(s: State, st: Step)
    requires WaiterInv(s) && Enabled(s, st)
    ensures WaiterInv(Next(s, st))
    ensures Closed(s) ==> Closed(Next(s, st)) && Next(s, st).child == s.child && Next(s, st).waitErr == s.waitErr
  {
  }

  /** Spawn calls stop once, when startup fails; otherwise only Close does. */
  lemma CallersStep(s: State, st: Step)
    requires Enabled(s, st)
    ensures var fails := st.ConnectFailed? || st.SeesCancelled? || st.SeesExited? || st.TimedOut?;
            && Next(s, st).callers.Keys == s.callers.Keys + (if fails then {0} else if st.CloseRemote? then {st.c} else {})
            && (forall c :: c in s.callers && s.callers[c].Back? && c in Next(s, st).callers && !(fails && c == 0) && st != CloseRemote(c) ==>
                  Next(s, st).callers[c] == s.callers[c])
  {
  }

  lemma SpawnStep(s: State, st: Step)
    requires Inv(s) && Enabled(s, st)
    ensures SpawnInv(Next(s, st))
  {
    CallersStep(s, st);
    hide WaiterInv, OnceInv, CallerInv, Goto, Closed, Is;
  }

  lemma UntouchedStep(s: State, st: Step)
    requires (NobodyStops(s) ==> s.once.NotRun?) && Enabled(s, st)
    ensures NobodyStops(Next(s, st)) ==> Next(s, st).once.NotRun?
  {
    assert forall c :: c in s.callers ==> c in Next(s, st).callers;
    if st.EnterOnce? || st.LeaveOnce? { assert st.c in Next(s, st).callers; }
  }

  /** A step inside stop. */
  predicate StopStep(st: Step) {
    || st.EnterOnce? || st.PassOnce? || st.AlreadyGone? || st.StillThere? || st.SendTerm? || st.GoneInTime? || st.TimerFires?
    || st.SendKill? || st.GoneAfterKill? || st.ReadErr? || st.LeaveOnce?
  }

  /** Everybody else leaves what stop shares alone and can only add a call of it. */
  lemma OutsideStop(s: State, st: Step)
    requires SpawnInv(s) && Enabled(s, st) && !StopStep(st)
    ensures var n := Next(s, st);
            && n.once == s.once && n.stopErr == s.stopErr && n.terms == s.terms && n.kills == s.kills
            && n.termAt == s.termAt && n.killAt == s.killAt && s.now <= n.now
            && (forall c :: c in n.callers ==> n.callers[c] == AtOnce || (c in s.callers && n.callers[c] == s.callers[c]))
            && (forall c :: c in s.callers && !s.callers[c].Back? ==> c in n.callers && n.callers[c] == s.callers[c])
  {
    hide Outcome;
  }

  lemma OnceOutsideStop(s: State, st: Step)
    requires Inv(s) && Enabled(s, st) && !StopStep(st)
    ensures OnceInv(Next(s, st))
    ensures forall c :: c in Next(s, st).callers ==> CallerInv(Next(s, st), c, Next(s, st).callers[c])
  {
    OutsideStop(s, st);
    WaiterStep(s, st);
    hide Next, Enabled, StopStep;
  }

  /** The steps that only move the runner. */
  predicate Moves(st: Step) { st.AlreadyGone? || st.StillThere? || st.GoneInTime? || st.TimerFires? || st.GoneAfterKill? }

  lemma MoveStep(s: State, st: Step)
    requires Inv(s) && Enabled(s, st) && Moves(st)
    ensures OnceInv(Next(s, st)) && CallerInv(Next(s, st), st.c, Next(s, st).callers[st.c])
  {
    assert CallerInv(s, st.c, s.callers[st.c]);
    hide Outcome, WaiterInv, SpawnInv;
  }

  lemma SignalStep(s: State, st: Step)
    requires Inv(s) && Enabled(s, st) && (st.SendTerm? || st.SendKill?)
    ensures OnceInv(Next(s, st)) && CallerInv(Next(s, st), st.c, Next(s, st).callers[st.c])
  {
    assert CallerInv(s, st.c, s.callers[st.c]);
    hide Outcome, WaiterInv, SpawnInv;
  }

  lemma GuardStep(s: State, st: Step)
    requires Inv(s) && Enabled(s, st) && (st.EnterOnce? || st.PassOnce? || st.LeaveOnce? || st.ReadErr?)
    ensures OnceInv(Next(s, st)) && CallerInv(Next(s, st), st.c, Next(s, st).callers[st.c])
  {
    assert CallerInv(s, st.c, s.callers[st.c]);
    hide SpawnInv;
  }

  /** While one call runs the guarded body the others wait, and once it has finished nothing it wrote changes. */
  lemma OthersWait(s: State, st: Step, c: nat)
    requires Inv(s) && Enabled(s, st) && StopStep(st) && c in s.callers && c != st.c
    ensures CallerInv(Next(s, st), c, s.callers[c])
  {
    assert CallerInv(s, c, s.callers[c]) && CallerInv(s, st.c, s.callers[st.c]);
    hide Outcome, WaiterInv, SpawnInv;
  }

  lemma InsideStop(s: State, st: Step)
    requires Inv(s) && Enabled(s, st) && StopStep(st)
    ensures OnceInv(Next(s, st))
    ensures forall c :: c in Next(s, st).callers ==> CallerInv(Next(s, st), c, Next(s, st).callers[c])
  {
    if Moves(st) { MoveStep(s, st); } else if st.SendTerm? || st.SendKill? { SignalStep(s, st); } else { GuardStep(s, st); }
    OnlyActorMoves(s, st);
    hide Next, Enabled, Inv, CallerInv, OnceInv;
    forall c | c in Next(s, st).callers && c != st.c ensures CallerInv(Next(s, st), c, Next(s, st).callers[c]) {
      OthersWait(s, st, c);
    }
  }

  lemma OnlyActorMoves(s: State, st: Step)
    requires Enabled(s, st) && StopStep(st)
    ensures st.c in s.callers && Next(s, st).callers.Keys == s.callers.Keys
    ensures forall c :: c in s.callers && c != st.c ==> Next(s, st).callers[c] == s.callers[c]
  {
    hide Outcome;
  }

  lemma InvStep(s: State, st: Step)
    requires Inv(s) && Enabled(s, st)
    ensures Inv(Next(s, st))
  {
    WaiterStep(s, st);
    SpawnStep(s, st);
    UntouchedStep(s, st);
    if StopStep(st) { InsideStop(s, st); } else { OnceOutsideStop(s, st); }
    hide Next, Enabled, WaiterInv, OnceInv, SpawnInv, CallerInv, NobodyStops;
  }

  lemma {:induction false} InvRun(steps: seq<Step>)
    requires Run(steps).Some?
    ensures Inv(Run(steps).value)
  {
    if steps != [] {
      InvRun(steps[..|steps| - 1]);
      InvStep(Run(steps[..|steps| - 1]).value, steps[|steps| - 1]);
    }
  }

  // ----- main results -----

  /** Every call of stop returns the same error, and only once the child is reaped. */
  lemma StopsAgree(steps: seq<Step>, c: nat, d: nat)
    requires Run(steps).Some?
    requires c in Run(steps).value.callers && d in Run(steps).value.callers
    requires Run(steps).value.callers[c].Back? && Run(steps).value.callers[d].Back?
    ensures var s := Run(steps).value;
            && s.callers[c] == s.callers[d] == Back(Outcome(s))
            && s.child.Exited? && s.waits == 1 && Closed(s)
  {
    InvRun(steps);
    assert CallerInv(Run(steps).value, c, Run(steps).value.callers[c]) && CallerInv(Run(steps).value, d, Run(steps).value.callers[d]);
  }

  /** A returned call of stop says nothing of an exit it may expect, and reports any other error of cmd.Wait as it
      is: the child ended without error, with an exit status (a signal's included), or was found to be gone. */
  lemma StopReports(steps: seq<Step>, c: nat)
    requires Run(steps).Some? && c in Run(steps).value.callers && Run(steps).value.callers[c].Back?
    ensures var s, r := Run(steps).value, Run(steps).value.callers[c].result;
            && s.child.Exited?
            && (s.child.err.NoErr? || s.child.err.ExitError? || s.child.err.ProcessDone? ==> r == NoErr)
            && (s.child.err.OtherErr? ==> r == s.child.err)
  {
    StopsAgree(steps, c, c);
  }

  /** Whoever closes the owner of a child that then ends by its signal gets no error. */
  lemma SignalledChildClosesCleanly(steps: seq<Step>, c: nat, status: int)
    requires Run(steps).Some? && Run(steps).value.spawner.Owned? && Run(steps).value.child == Exited(ExitError(status))
    requires c in Run(steps).value.callers && Run(steps).value.callers[c].Back?
    ensures Run(steps).value.callers[c] == Back(NoErr)
  {
    StopReports(steps, c);
  }

  /** Spawn returns the Remote exactly when a probe has succeeded, and fails exactly when it could not connect,
      saw its context cancelled, saw the child gone or ran out of time. */
  lemma {:induction false} SpawnReports(steps: seq<Step>)
    requires Run(steps).Some?
    ensures var s := Run(steps).value;
            && (s.spawner.Owned? <==> Ready in steps)
            && (s.spawner.Stopping? || s.spawner.Failed? <==>
                  ConnectFailed in steps || SeesCancelled in steps || SeesExited in steps || TimedOut in steps)
  {
    if steps != [] {
      SpawnReports(steps[..|steps| - 1]);
      assert steps == steps[..|steps| - 1] + [steps[|steps| - 1]];
    }
  }

  /** cmd.Wait returns once; waitErr is read only after waitDone closes; SIGTERM is sent at most once,
      and a kill only after it and a full grace period. */
  lemma StopProtocol(steps: seq<Step>, st: Step)
    requires Run(steps).Some? && Enabled(Run(steps).value, st)
    ensures var s := Run(steps).value;
            && s.waits <= 1 && s.terms <= 1 && s.kills <= s.terms
            && (st.WaitReturn? ==> s.waits == 0)
            && (st.ReadErr? ==> Closed(s) && s.child == Exited(s.waitErr))
            && (st.SendTerm? ==> s.terms == 0)
            && (st.SendKill? ==> s.terms == 1 && s.kills == 0 && s.termAt + 5000 <= s.now)
            && (s.kills == 1 ==> s.termAt + 5000 <= s.killAt)
  {
    InvRun(steps);
    var s := Run(steps).value;
    if st.ReadErr? || st.SendTerm? || st.SendKill? { assert CallerInv(s, st.c, s.callers[st.c]); }
    hide Run;
  }

  /** A call of stop waits only for a child it has dealt with: it waits at most the grace period for one that was
      sent SIGTERM, and without limit only for one that was killed, a full grace period later. */
  lemma StopWaitsForTheDoomed(steps: seq<Step>, c: nat)
    requires Run(steps).Some? && c in Run(steps).value.callers
    ensures var s, pc := Run(steps).value, Run(steps).value.callers[c];
            && (pc.Selecting? ==> s.terms == 1 && pc.since == s.termAt && (s.now >= s.termAt + 5000 ==> Enabled(s, TimerFires(c))))
            && (pc.AwaitingExit? ==> s.terms == 1 && s.kills == 1 && s.termAt + 5000 <= s.killAt)
  {
    InvRun(steps);
    assert CallerInv(Run(steps).value, c, Run(steps).value.callers[c]);
    hide Run;
  }

  /** A Spawn that fails after starting the child leaves it reaped. One that succeeds owns it: until
      somebody closes the Remote nothing is sent to the child, cancelled context or not. */
  lemma SpawnOwnsOrReaps(steps: seq<Step>)
    requires Run(steps).Some?
    ensures var s := Run(steps).value;
            && (s.spawner.Failed? ==> s.child.Exited? && s.waits == 1 && Closed(s))
            && (s.spawner.Owned? && NobodyStops(s) ==> s.terms == 0 && s.kills == 0 && s.once.NotRun?)
            && (Starting(s) ==> s.terms == 0 && s.kills == 0)
  {
    InvRun(steps);
    var s := Run(steps).value;
    if s.spawner.Failed? { assert CallerInv(s, 0, s.callers[0]); }
  }

  /** A context cancelled before the next probe makes Spawn fail, whatever else happens. */
  lemma {:induction false} CancelledStartupFails(steps: seq<Step>, more: seq<Step>)
    requires Run(steps + more).Some?
    requires Run(steps).Some? && Run(steps).value.cancelled && Run(steps).value.spawner.AwaitingReady?
    ensures var s := Run(steps + more).value;
            s.cancelled && (s.spawner.AwaitingReady? || s.spawner.Stopping? || s.spawner.Failed?)
    decreases |more|
  {
    if more == [] {
      assert steps + more == steps;
    } else {
      assert (steps + more)[..|steps + more| - 1] == steps + more[..|more| - 1];
      CancelledStartupFails(steps, more[..|more| - 1]);
    }
  }

  /** Once Spawn has returned the Remote, nothing is sent to the child until somebody closes it, whether or not
      and however often the context is cancelled. */
  lemma {:induction false} OwnedUntilClosed(steps: seq<Step>, more: seq<Step>)
    requires Run(steps + more).Some?
    requires Run(steps).Some? && Run(steps).value.spawner.Owned? && NobodyStops(Run(steps).value)
    requires forall i :: 0 <= i < |more| ==> !more[i].CloseRemote?
    ensures var s := Run(steps + more).value;
            s.spawner.Owned? && NobodyStops(s) && s.terms == 0 && s.kills == 0
    decreases |more|
  {
    if more == [] {
      assert steps + more == steps;
      InvRun(steps);
    } else {
      assert (steps + more)[..|steps + more| - 1] == steps + more[..|more| - 1];
      OwnedUntilClosed(steps, more[..|more| - 1]);
    }
  }

  /** Closing the owner stops the child: whatever happens, a finished Close leaves it reaped. */
  lemma CloseReaps(steps: seq<Step>, c: nat)
    requires Run(steps).Some? && Run(steps).value.spawner.Owned? && c in Run(steps).value.callers && Run(steps).value.callers[c].Back?
    ensures Run(steps).value.child.Exited? && Run(steps).value.waits == 1
  {
    StopsAgree(steps, c, c);
  }

  // ----- progress of stop -----

  /** The steps of its own a call of stop still has to take. */
  function OwnSteps(pc: Caller): nat {
    match pc
    case AtOnce => 8
    case Checking => 7
    case Terminating => 6
    case Selecting(_) => 5
    case Killing => 4
    case AwaitingExit => 3
    case Reading => 2
    case Finishing => 1
    case Back(_) => 0
  }

  function WaiterSteps(w: Waiter): nat {
    match w
    case Waiting => 3
    case Returned(_) => 2
    case Stored => 1
    case ChannelClosed => 0
  }

  /** The steps of whoever runs the once-guarded body. */
  function RunnerSteps(s: State): nat {
    match s.once
    case NotRun => 8
    case Running(r) => if r in s.callers then OwnSteps(s.callers[r]) else 0
    case Finished => 0
  }

  /** What is left to do before the call of stop by c returns, once the child has exited. */
  function Remaining(s: State, c: nat): nat
    requires c in s.callers
  {
    WaiterSteps(s.waiter) + RunnerSteps(s) + OwnSteps(s.callers[c])
  }

  /** A step that brings c closer to its return: the waiter's, the runner's or c's own. */
  function Helpful(s: State, c: nat): Step
    requires c in s.callers
  {
    if s.waiter.Waiting? then WaitReturn
    else if s.waiter.Returned? then StoreErr
    else if s.waiter.Stored? then CloseChannel
    else match s.once
      case NotRun => EnterOnce(c)
      case Finished => PassOnce(c)
      case Running(r) =>
        if r !in s.callers then LeaveOnce(r)
        else match s.callers[r]
          case Checking => AlreadyGone(r)
          case Terminating => SendTerm(r)
          case Selecting(_) => GoneInTime(r)
          case Killing => SendKill(r)
          case AwaitingExit => GoneAfterKill(r)
          case Reading => ReadErr(r)
          case _ => LeaveOnce(r)
  }

  lemma OwnStepsKept(s: State, st: Step, c: nat)
    requires Inv(s) && Enabled(s, st) && c in s.callers && st != CloseRemote(c)
    ensures c in Next(s, st).callers && OwnSteps(Next(s, st).callers[c]) <= OwnSteps(s.callers[c])
    ensures Next(s, st).callers[c] != s.callers[c] ==> OwnSteps(Next(s, st).callers[c]) < OwnSteps(s.callers[c])
  {
    hide CallerInv, OnceInv, WaiterInv;
  }

  lemma RunnerStepsKept(s: State, st: Step)
    requires Inv(s) && Enabled(s, st)
    ensures RunnerSteps(Next(s, st)) <= RunnerSteps(s)
    ensures st.EnterOnce? || (s.once.Running? && Next(s, st).callers[s.once.runner] != s.callers[s.once.runner]) ==>
              RunnerSteps(Next(s, st)) < RunnerSteps(s)
  {
    hide CallerInv, WaiterInv;
    if s.once.Running? && st != CloseRemote(s.once.runner) {
      OwnStepsKept(s, st, s.once.runner);
    }
  }

  lemma WaiterStepsKept(s: State, st: Step)
    requires Enabled(s, st)
    ensures WaiterSteps(Next(s, st).waiter) <= WaiterSteps(s.waiter)
    ensures st.WaitReturn? || st.StoreErr? || st.CloseChannel? ==> WaiterSteps(Next(s, st).waiter) < WaiterSteps(s.waiter)
  {
  }

  /** The helpful step is enabled. */
  lemma HelpfulEnabled(s: State, c: nat)
    requires Inv(s) && s.child.Exited? && c in s.callers && !s.callers[c].Back?
    ensures Enabled(s, Helpful(s, c))
  {
    assert CallerInv(s, c, s.callers[c]);
  }

  lemma HelpfulMoves(s: State, c: nat)
    requires Inv(s) && s.child.Exited? && c in s.callers && !s.callers[c].Back? && Enabled(s, Helpful(s, c))
    ensures var st := Helpful(s, c);
            || st.WaitReturn? || st.StoreErr? || st.CloseChannel? || st.EnterOnce?
            || Next(s, st).callers[c] != s.callers[c]
            || (s.once.Running? && Next(s, st).callers[s.once.runner] != s.callers[s.once.runner])
  {
    hide CallerInv, WaiterInv;
  }

  /** After the child has exited a call of stop is never stuck: until it returns, some step is enabled that
      brings it closer, and it needs at most nineteen of them. */
  lemma StopProgress(steps: seq<Step>, c: nat)
    requires Run(steps).Some?
    requires var s := Run(steps).value; s.child.Exited? && c in s.callers && !s.callers[c].Back?
    ensures var s := Run(steps).value;
            && Enabled(s, Helpful(s, c))
            && c in Next(s, Helpful(s, c)).callers
            && Remaining(Next(s, Helpful(s, c)), c) < Remaining(s, c) <= 19
  {
    InvRun(steps);
    var s := Run(steps).value;
    HelpfulEnabled(s, c);
    HelpfulMoves(s, c);
    var st := Helpful(s, c);
    assert st != CloseRemote(c);
    OwnStepsKept(s, st, c);
    RunnerStepsKept(s, st);
    WaiterStepsKept(s, st);
    hide Run, Next, Enabled, Inv, Helpful;
  }

  /** No step of anybody undoes that progress, except another call of Close by c itself. */
  lemma ProgressKept(steps: seq<Step>, st: Step, c: nat)
    requires Run(steps).Some? && Enabled(Run(steps).value, st) && c in Run(steps).value.callers && st != CloseRemote(c)
    ensures var s := Run(steps).value;
            c in Next(s, st).callers && Remaining(Next(s, st), c) <= Remaining(s, c)
  {
    InvRun(steps);
    var s := Run(steps).value;
    OwnStepsKept(s, st, c);
    RunnerStepsKept(s, st);
    WaiterStepsKept(s, st);
    hide Run, Next, Enabled, Inv;
  }

  /** Left to those steps alone, a call of stop returns. */
  lemma {:induction false} StopReturns(steps: seq<Step>, c: nat) returns (more: seq<Step>)
    requires Run(steps).Some?
    requires var s := Run(steps).value; s.child.Exited? && c in s.callers
    ensures |more| <= Remaining(Run(steps).value, c)
    ensures Run(steps + more).Some? && c in Run(steps + more).value.callers && Run(steps + more).value.callers[c].Back?
    decreases Remaining(Run(steps).value, c)
  {
    var s := Run(steps).value;
    more := [];
    assert steps + more == steps;
    if !s.callers[c].Back? {
      StopProgress(steps, c);
      var st := Helpful(s, c);
      var longer := steps + [st];
      assert longer[..|longer| - 1] == steps;
      ExitedStays(s, st);
      var rest := StopReturns(longer, c);
      more := [st] + rest;
      assert steps + more == longer + rest;
    }
  }

  lemma ExitedStays(s: State, st: Step)
    requires Enabled(s, st) && s.child.Exited?
    ensures Next(s, st).child.Exited?
  {
  }
}
