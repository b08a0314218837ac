/** What an operation of the engine reports, read off the steps it has taken since it began. */
module EngineOutcomes {
  import opened Json
  import opened ServeOptions
  import opened CStrings
  import opened EngineProtocol

  type Step = EngineProtocol.Step

  /** A step that decides how its operation goes on: it looked at its context, found the engine closed, asked the
      library something, or checked its options. */
  predicate Decisive(st: Step) {
    || st.CancelAt? || st.ContextOk? || st.SeeClosed? || st.AbiCall? || st.ReadInfo? || st.CallFail? || st.CallDone? || st.CallText?
    || st.Decide? || st.SeeClosedW? || st.Unload?
  }

  /** The decisive steps of g since its last Begin. */
  function Story(steps: seq<Step>, g: Gid): seq<Step> {
    if steps == [] then []
    else
      var st, before := steps[|steps| - 1], Story(steps[..|steps| - 1], g);
      if st.g != g then before else Longer(before, st)
  }

  function Longer(story: seq<Step>, st: Step): seq<Step> {
    if st.Begin? then [] else if Decisive(st) then story + [st] else story
  }

  /** ServeAdmin first reads the build info and passes the check. */
  function Gate(gate: bool, g: Gid): seq<Step> { if gate then [ReadInfo(g), Decide(g, None)] else [] }

  /** An operation that calls the library has then found its context live. */
  function Before(calls: bool, gate: bool, g: Gid): seq<Step> { Gate(gate, g) + if calls then [ContextOk(g)] else [] }

  /** The step st ends an operation like x's with the result r. */
  ghost predicate Ends(s: State, x: Goroutine, st: Step, r: Result) {
    match st
    case CancelAt(_) => Calls(x) && r == Cancelled
    case SeeClosed(_) => s.closed && !x.op.Close? && r == if x.op.Abi? then Zero else Closed
    case AbiCall(_) => x.op.Abi? && r == Value([], None)
    case ReadInfo(_) => ReadsInfo(x) && r == Value([], None)
    case CallFail(_, wrote) => Calls(x) && r.EngineError? && r.wrote == wrote
    case CallDone(_, _) => Calls(x) && !ShapeOf(x.op).OwnedString? && r == Value([], None)
    case CallText(_, _, text) => Calls(x) && ShapeOf(x.op).OwnedString? && r.Value? && r.handed == Some(text)
    case SeeClosedW(_) => x.op.Close? && r == Value([], None)
    case Unload(_) => x.op.Close? && r == Value([], None)
    case _ => false
  }

  ghost predicate Ended(s: State, x: Goroutine, g: Gid, story: seq<Step>, r: Result) {
    && |story| > 0 && story[|story| - 1].g == g && Ends(s, x, story[|story| - 1], r)
    && story[..|story| - 1] == if story[|story| - 1].CancelAt? then Gate(x.gate, g) else Before(Calls(x), x.gate, g)
  }

  ghost predicate WasRefused(s: State, x: Goroutine, g: Gid, story: seq<Step>, r: Result) {
    r.Refused? && x.op.ServeAdmin? && !x.gate && story == [ReadInfo(g), Decide(g, Some(r.key))] && Verdict(s.info, x.op.keys, Some(r.key))
  }

  /** What g has done so far at its program point. */
  ghost predicate StoryInv(s: State, x: Goroutine, g: Gid, story: seq<Step>) {
    match x.pc
    case AtContext => story == Gate(x.gate, g) && Calls(x)
    case AtRLock => story == Before(Calls(x), x.gate, g) && !x.op.Close?
    case Locked => story == Before(Calls(x), x.gate, g) && !x.op.Close?
    case Open => story == Before(Calls(x), x.gate, g)
    case Pinned => story == Before(Calls(x), x.gate, g)
    case InCall(_) => story == Before(Calls(x), x.gate, g) && Calls(x)
    case Failed(wrote) => story == Before(Calls(x), x.gate, g) + [CallFail(g, wrote)] && Calls(x)
    case HasError(_, wrote) => story == Before(Calls(x), x.gate, g) + [CallFail(g, wrote)] && Calls(x)
    case ErrorCopied(_, _, wrote) => story == Before(Calls(x), x.gate, g) + [CallFail(g, wrote)] && Calls(x)
    case HasText(_, handed) => AfterText(x, g, story, handed)
    case TextCopied(_, _, handed) => AfterText(x, g, story, handed)
    case Leaving(r) => Ended(s, x, g, story, r)
    case Unpinned(r) => Ended(s, x, g, story, r)
    case Deciding => story == [ReadInfo(g)] && x.op.ServeAdmin? && !x.gate
    case Done(r) => WasRefused(s, x, g, story, r) || (Ended(s, x, g, story, r) && (ReadsInfo(x) && r.Value? ==> x.op.Info?))
    case WDone => (story == [SeeClosedW(g)] || story == [Unload(g)]) && x.op.Close? && !x.gate
    case _ => story == [] && x.op.Close? && !x.gate
  }

  ghost predicate AfterText(x: Goroutine, g: Gid, story: seq<Step>, handed: Mem) {
    |story| > 0 && story[..|story| - 1] == Before(Calls(x), x.gate, g) && story[|story| - 1].CallText? && story[|story| - 1].text == handed
    && story[|story| - 1].g == g && Calls(x) && ShapeOf(x.op).OwnedString?
  }

  lemma Appended(story: seq<Step>, st: Step)
    ensures var all := story + [st]; |all| > 0 && all[|all| - 1] == st && all[..|all| - 1] == story
  {
  }

  /** The steps up to a downcall, and those taken instead of one. */
  predicate Approaches(st: Step) { st.ContextOk? || st.RLock? || st.SeeOpen? || st.Pin? || st.CallBegin? }

  predicate Avoids(st: Step) { st.CancelAt? || st.SeeClosed? || st.AbiCall? || st.ReadInfo? }

  /** Its return, and the steps from there to the copy of its text. */
  predicate Returns(st: Step) { st.CallFail? || st.CallDone? || st.CallText? }

  predicate Copies(st: Step) { st.LastError? || st.Copy? || st.Free? }

  lemma ApproachStep(s: State, n: State, st: Step, x: Goroutine, story: seq<Step>)
    requires Ready(s, st, x) && StoryInv(s, x, st.g, story) && Approaches(st)
    ensures StoryInv(n, x.(pc := NextPC(s, st, x)), st.g, Longer(story, st))
  {
    hide Verdict, Text, TextAt, Slot, MessageOf, Gate;
  }

  lemma AvoidStep(s: State, n: State, st: Step, x: Goroutine, story: seq<Step>)
    requires Ready(s, st, x) && StoryInv(s, x, st.g, story) && Avoids(st) && n.closed == s.closed
    ensures StoryInv(n, x.(pc := NextPC(s, st, x)), st.g, Longer(story, st))
  {
    Appended(story, st);
    hide Verdict, Text, TextAt, Slot, MessageOf, Gate, Before;
  }

  lemma ReturnStep(s: State, n: State, st: Step, x: Goroutine, story: seq<Step>)
    requires Ready(s, st, x) && StoryInv(s, x, st.g, story) && Returns(st) && n.closed == s.closed && n.info == s.info
    ensures StoryInv(n, x.(pc := NextPC(s, st, x)), st.g, Longer(story, st))
  {
    Appended(story, st);
    hide Verdict, Text, TextAt, Slot, MessageOf, Gate, Before;
  }

  lemma ErrorStep(s: State, n: State, st: Step, x: Goroutine, story: seq<Step>)
    requires Ready(s, st, x) && StoryInv(s, x, st.g, story) && Copies(st) && !x.pc.HasText? && !x.pc.TextCopied?
    ensures StoryInv(n, x.(pc := NextPC(s, st, x)), st.g, Longer(story, st))
  {
    hide Verdict, Text, TextAt, Slot, MessageOf, Gate, Before;
    Appended(Before(Calls(x), x.gate, st.g), CallFail(st.g, x.pc.wrote));
  }

  lemma TextStep(s: State, n: State, st: Step, x: Goroutine, story: seq<Step>)
    requires Ready(s, st, x) && StoryInv(s, x, st.g, story) && Copies(st) && (x.pc.HasText? || x.pc.TextCopied?)
    ensures StoryInv(n, x.(pc := NextPC(s, st, x)), st.g, Longer(story, st))
  {
    hide Verdict, Text, TextAt, Slot, MessageOf, Gate, Before;
  }

  lemma LeaveStep(s: State, n: State, st: Step, x: Goroutine, story: seq<Step>)
    requires Ready(s, st, x) && StoryInv(s, x, st.g, story) && (st.Unpin? || (st.Decide? && st.refused.Some?))
    requires n.closed == s.closed && n.info == s.info
    ensures StoryInv(n, x.(pc := NextPC(s, st, x)), st.g, Longer(story, st))
  {
    hide Verdict, Text, TextAt, Slot, MessageOf;
    if st.Decide? { assert story + [st] == [ReadInfo(st.g), st]; }
  }

  lemma UnlockStep(s: State, n: State, st: Step, x: Goroutine, story: seq<Step>)
    requires Ready(s, st, x) && StoryInv(s, x, st.g, story) && st.RUnlock?
    requires n.closed == s.closed && n.info == s.info
    ensures StoryInv(n, x.(pc := NextPC(s, st, x)), st.g, Longer(story, st))
  {
    Unlocked(s, n, x, st.g, story, x.pc.r);
    hide StoryInv, Ended, Verdict, Text, TextAt, Slot, MessageOf;
  }

  lemma Unlocked(s: State, n: State, x: Goroutine, g: Gid, story: seq<Step>, r: Result)
    requires Ended(s, x, g, story, r) && n.closed == s.closed && n.info == s.info
    ensures StoryInv(n, x.(pc := if x.op.ServeAdmin? && !x.gate && r.Value? then Deciding else Done(r)), g, story)
  {
    if x.op.ServeAdmin? && !x.gate && r.Value? { OnlyInfoRead(s, x, g, story, r); }
    EndedKept(s, n, x, x.(pc := Done(r)), g, story, r);
    hide Ended, WasRefused, AfterText, Before, Gate, Verdict;
  }

  lemma EndedKept(s: State, n: State, x: Goroutine, y: Goroutine, g: Gid, story: seq<Step>, r: Result)
    requires Ended(s, x, g, story, r) && n.closed == s.closed && y.op == x.op && y.gate == x.gate
    ensures Ended(n, y, g, story, r)
  {
    hide Before, Gate;
  }

  lemma OnlyInfoRead(s: State, x: Goroutine, g: Gid, story: seq<Step>, r: Result)
    requires Ended(s, x, g, story, r) && x.op.ServeAdmin? && !x.gate && r.Value?
    ensures story == [ReadInfo(g)]
  {
    var st := story[|story| - 1];
    assert st == ReadInfo(g);
    assert story[..|story| - 1] == [];
    assert story == story[..|story| - 1] + [st];
  }

  lemma CloseStep(s: State, n: State, st: Step, x: Goroutine, story: seq<Step>)
    requires Ready(s, st, x) && StoryInv(s, x, st.g, story)
    requires !Approaches(st) && !Avoids(st) && !Returns(st) && !Copies(st) && !st.Unpin? && !st.RUnlock? && !st.Decide?
    ensures StoryInv(n, x.(pc := NextPC(s, st, x)), st.g, Longer(story, st))
  {
    assert [] + [st] == [st];
    hide Verdict, Text, TextAt, Slot, MessageOf;
  }

  lemma StoryMove(s: State, n: State, st: Step, x: Goroutine, story: seq<Step>)
    requires Ready(s, st, x) && StoryInv(s, x, st.g, story) && (st.Decide? ==> st.refused.Some?)
    requires (n.closed == s.closed || st.Mark?) && n.info == s.info
    ensures StoryInv(n, x.(pc := NextPC(s, st, x)), st.g, Longer(story, st))
  {
    hide NextPC, Ready, StoryInv, Longer;
    if Approaches(st) { ApproachStep(s, n, st, x, story); }
    else if Avoids(st) { AvoidStep(s, n, st, x, story); }
    else if Returns(st) { ReturnStep(s, n, st, x, story); }
    else if Copies(st) && (x.pc.HasText? || x.pc.TextCopied?) { TextStep(s, n, st, x, story); }
    else if Copies(st) { ErrorStep(s, n, st, x, story); }
    else if st.Unpin? || st.Decide? { LeaveStep(s, n, st, x, story); }
    else if st.RUnlock? { UnlockStep(s, n, st, x, story); }
    else { CloseStep(s, n, st, x, story); }
  }

  lemma StoryBegins(s: State, op: Op, g: Gid, t: Tid, late: bool)
    ensures StoryInv(s, Goroutine(op, FirstPC(op), t, late, false), g, [])
  {
    hide Verdict, Ended, WasRefused, AfterText;
  }

  lemma CheckPasses(s: State, n: State, x: Goroutine, g: Gid, story: seq<Step>)
    requires StoryInv(s, x, g, story) && x.pc.Deciding?
    ensures StoryInv(n, x.(pc := AtContext, gate := true), g, story + [Decide(g, None)])
  {
    assert [ReadInfo(g)] + [Decide(g, None)] == [ReadInfo(g), Decide(g, None)];
    hide Verdict, Ended, WasRefused, AfterText;
  }

  lemma StoryMigrates(s: State, n: State, x: Goroutine, t: Tid, g: Gid, story: seq<Step>)
    requires StoryInv(s, x, g, story) && n.closed == s.closed && n.info == s.info
    ensures StoryInv(n, x.(thread := t), g, story)
  {
    hide Verdict, Text, Gate, Before;
  }

  lemma StoryHere(s: State, st: Step, story: seq<Step>)
    requires Enabled(s, st) && (st.g in s.gs && !st.Begin? ==> StoryInv(s, s.gs[st.g], st.g, story))
    requires Next(s, st).info == s.info && (Next(s, st).closed == s.closed || st.Mark?)
    ensures StoryInv(Next(s, st), After(s, st), st.g, Longer(story, st))
  {
    var n := Next(s, st);
    hide Next, NextPC, CanRun, Unwired, StoryInv, FirstPC;
    if st.Begin? {
      StoryBegins(n, st.op, st.g, st.t, s.closed);
    } else if st.Migrate? {
      StoryMigrates(s, n, s.gs[st.g], st.t, st.g, story);
    } else if st.Decide? && st.refused.None? {
      CheckPasses(s, n, s.gs[st.g], st.g, story);
    } else {
      StoryMove(s, n, st, s.gs[st.g], story);
      hide Longer, Ready;
    }
  }

  /** Nobody else's story changes, and closed stays set. */
  lemma StoryElsewhere(s: State, n: State, x: Goroutine, g: Gid, story: seq<Step>)
    requires StoryInv(s, x, g, story) && (s.closed ==> n.closed) && n.info == s.info
    ensures StoryInv(n, x, g, story)
  {
  }

  lemma {:induction false} StoryRun(h: nat, info: BuildInfo, steps: seq<Step>, g: Gid)
    requires Run(Init(h, info), steps).Some? && g in Run(Init(h, info), steps).value.gs
    ensures var s := Run(Init(h, info), steps).value; StoryInv(s, s.gs[g], g, Story(steps, g))
    decreases |steps|
  {
    if steps != [] {
      var before, st := steps[..|steps| - 1], steps[|steps| - 1];
      var s := Run(Init(h, info), before).value;
      NextLife(s, st);
      NextLocks(s, st);
      if g in s.gs { StoryRun(h, info, before, g); }
      hide Next, After, Enabled, StoryInv, Longer;
      if st.g == g {
        StoryHere(s, st, Story(before, g));
      } else {
        StoryElsewhere(s, Next(s, st), s.gs[g], g, Story(before, g));
      }
    }
  }

  // ----- main results -----

  /** What a call has done when it looks at its context: ServeAdmin has read the build info and passed the check. */
  predicate Comes(op: Op, g: Gid, before: seq<Step>) {
    (op.Call? && before == []) || (op.ServeAdmin? && before == [ReadInfo(g), Decide(g, None)])
  }

  /** And when it asks the library: it has found its context live. */
  predicate Asks(op: Op, g: Gid, before: seq<Step>) {
    (op.Call? && before == [ContextOk(g)]) || (op.ServeAdmin? && before == [ReadInfo(g), Decide(g, None), ContextOk(g)])
  }

  /** What an operation reports when its decisive steps are those before, and then st. */
  ghost predicate Reports(s: State, op: Op, g: Gid, before: seq<Step>, st: Step, r: Result) {
    match st
    case CancelAt(_) => Comes(op, g, before) && r == Cancelled
    case SeeClosed(_) => s.closed && !op.Close? && ((!op.Call? && before == []) || Asks(op, g, before)) && r == if op.Abi? then Zero else Closed
    case AbiCall(_) => op.Abi? && before == [] && r == Value([], None)
    case ReadInfo(_) => op.Info? && before == [] && r == Value([], None)
    case CallFail(_, wrote) => Asks(op, g, before) && r == EngineError(MessageOf(wrote), wrote)
    case CallDone(_, _) => Asks(op, g, before) && op.Call? && !op.shape.OwnedString? && r == Value([], None)
    case CallText(_, _, text) => Asks(op, g, before) && (op.Call? ==> op.shape.OwnedString?) && r == Value(Text(text), Some(text))
    case Decide(_, refused) =>
      op.ServeAdmin? && before == [ReadInfo(g)] && refused.Some? && Verdict(s.info, op.keys, refused) && r == Refused(refused.value)
    case SeeClosedW(_) => op.Close? && before == [] && r == Value([], None)
    case Unload(_) => op.Close? && before == [] && r == Value([], None)
    case _ => false
  }

  /** In every run a finished operation has taken exactly one step that ends it, after passing its check if it is
      ServeAdmin, and its result is the one that step calls for: a failing downcall ends in the message it wrote. */
  lemma OutcomesAreReported(h: nat, info: BuildInfo, steps: seq<Step>, g: Gid)
    requires h != 0 && Run(Init(h, info), steps).Some?
    requires var s := Run(Init(h, info), steps).value; g in s.gs && s.gs[g].pc.Done?
    ensures var s, story := Run(Init(h, info), steps).value, Story(steps, g);
            && s.info == info && |story| > 0
            && Reports(s, s.gs[g].op, g, story[..|story| - 1], story[|story| - 1], s.gs[g].pc.r)
  {
    InvRun(h, info, steps);
    LiveIsStarted(h, info, steps);
    StoryRun(h, info, steps, g);
    var s := Run(Init(h, info), steps).value;
    assert PointInv(s, s.gs[g]);
    ReportedHere(s, s.gs[g], g, Story(steps, g));
    hide *;
  }

  lemma ReportedHere(s: State, x: Goroutine, g: Gid, story: seq<Step>)
    requires StoryInv(s, x, g, story) && PointInv(s, x) && x.pc.Done?
    ensures |story| > 0 && Reports(s, x.op, g, story[..|story| - 1], story[|story| - 1], x.pc.r)
  {
    hide LateInv, Text, MessageOf, Verdict;
    if WasRefused(s, x, g, story, x.pc.r) { assert story[..1] == [ReadInfo(g)]; }
  }

  /** What a call reports. */
  ghost predicate CallReports(closed: bool, g: Gid, story: seq<Step>, r: Result) {
    && (forall st :: st in story && st.CallFail? ==> r == EngineError(MessageOf(st.wrote), st.wrote))
    && (forall st :: st in story && st.CallDone? ==> r == Value([], None))
    && (forall st :: st in story && st.CallText? ==> r == Value(Text(st.text), Some(st.text)))
    && ((forall st :: st in story ==> !st.CallFail? && !st.CallDone? && !st.CallText?) ==>
          (story == [CancelAt(g)] && r == Cancelled) || (story == [ContextOk(g), SeeClosed(g)] && r == Closed && closed))
  }

  /** A call whose downcall failed never reports success: its result is the message that very downcall wrote. One
      whose downcall succeeded reports a value, and one that made none was cancelled or found the engine closed. */
  lemma CallsReport(h: nat, info: BuildInfo, steps: seq<Step>, g: Gid)
    requires h != 0 && Run(Init(h, info), steps).Some?
    requires var s := Run(Init(h, info), steps).value; g in s.gs && s.gs[g].pc.Done? && s.gs[g].op.Call?
    ensures var s := Run(Init(h, info), steps).value;
            CallReports(s.closed, g, Story(steps, g), s.gs[g].pc.r)
  {
    hide *;
    OutcomesAreReported(h, info, steps, g);
    StoriesAreOwn(steps, g);
    var s := Run(Init(h, info), steps).value;
    CallReported(s, s.gs[g].op, g, Story(steps, g), s.gs[g].pc.r);
  }

  lemma CallReported(s: State, op: Op, g: Gid, story: seq<Step>, r: Result)
    requires op.Call? && |story| > 0 && Reports(s, op, g, story[..|story| - 1], story[|story| - 1], r) && forall st :: st in story ==> st.g == g
    ensures CallReports(s.closed, g, story, r)
  {
    CallStory(s, op, g, story, r);
    var st := story[|story| - 1];
    assert st in story;
    hide Text, MessageOf, Verdict, Asks, Comes;
    forall x | x in story ensures x == st || x == ContextOk(g) {
    }
  }

  lemma CallStory(s: State, op: Op, g: Gid, story: seq<Step>, r: Result)
    requires op.Call? && |story| > 0 && Reports(s, op, g, story[..|story| - 1], story[|story| - 1], r)
    ensures var st := story[|story| - 1]; story == if st.CancelAt? then [st] else [ContextOk(g), st]
  {
    hide Text, MessageOf, Verdict;
    assert story == story[..|story| - 1] + [story[|story| - 1]];
  }

  lemma {:induction false} StoriesAreOwn(steps: seq<Step>, g: Gid)
    ensures forall st :: st in Story(steps, g) ==> st.g == g
  {
    if steps != [] { StoriesAreOwn(steps[..|steps| - 1], g); }
  }

  /** A returned Close leaves the engine closed, stopped once and unloaded, whoever did it. */
  lemma CloseFinishes(h: nat, info: BuildInfo, steps: seq<Step>, g: Gid)
    requires h != 0 && Run(Init(h, info), steps).Some?
    requires var s := Run(Init(h, info), steps).value; g in s.gs && s.gs[g].op.Close? && s.gs[g].pc.Done?
    ensures var s := Run(Init(h, info), steps).value;
            s.closed && !s.running && !s.mapped && s.stops == 1 && s.unloads == 1
  {
    InvRun(h, info, steps);
    UnloadedBy(h, info, steps, g);
    hide Run, HeapInv, LockInv, ThreadInv, PointInv;
  }

  lemma {:induction false} UnloadedBy(h: nat, info: BuildInfo, steps: seq<Step>, g: Gid)
    requires h != 0 && Run(Init(h, info), steps).Some? && g in Run(Init(h, info), steps).value.gs
    ensures var s := Run(Init(h, info), steps).value;
            s.gs[g].op.Close? && (s.gs[g].pc.Done? || s.gs[g].pc.WDone?) ==> s.unloads == 1
    decreases |steps|
  {
    if steps != [] {
      var before, st := steps[..|steps| - 1], steps[|steps| - 1];
      var s := Run(Init(h, info), before).value;
      InvRun(h, info, before);
      InvRun(h, info, steps);
      NextLife(s, st);
      NextLocks(s, st);
      if g in s.gs { UnloadedBy(h, info, before, g); }
      if st.g == g { UnloadedHere(s, st); }
      hide Next, After, Enabled, HeapInv, LockInv, ThreadInv, PointInv, Run;
    }
  }

  /** Close gets to its end by unloading, or by finding the engine closed while it holds the lock. */
  lemma UnloadedHere(s: State, st: Step)
    requires Inv(s) && Enabled(s, st)
    ensures var was, now := if st.g in s.gs then s.gs[st.g].pc else AtContext, After(s, st).pc;
            After(s, st).op.Close? && (now.Done? || now.WDone?) ==>
              was.WDone? || (was.Done? && !st.Begin?) || st.Unload? || s.unloads == 1
    ensures !st.Begin? ==> st.g in s.gs && After(s, st).op == s.gs[st.g].op
  {
    assert st.g in s.gs ==> LockAt(s, st.g) && PointInv(s, s.gs[st.g]);
    hide HeapInv, ThreadInv, LateInv, Text, Slot, TextAt, Verdict, CanRun, Unwired, CallInv;
  }
}
