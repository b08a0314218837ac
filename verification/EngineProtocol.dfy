/** The embedded engine's call protocol as a transition system: any number of goroutines calling
    and closing one Engine, migrating between OS threads whenever they are not pinned, over a
    native library with a thread-local error slot per thread and a heap of owned C strings. */
module EngineProtocol {
  import opened Json
  import opened ServeOptions
  import opened CStrings

  type Gid = nat
  type Tid = nat

  /** What a failing call reports. An empty text becomes the "no detail" message. */
  datatype Message = NoDetail | Said(text: seq<Byte>)

  function MessageOf(slot: Option<Mem>): Message {
    if slot.None? || Text(slot.value) == [] then NoDetail else Said(Text(slot.value))
  }

  /** The shapes of downcall: an integer code, an owned string, a port or zero. */
  datatype Shape = Code | OwnedString | PortOrZero

  datatype Op =
    | Call(shape: Shape)             // an operation that is one withHandle region
    | ServeAdmin(keys: set<string>)  // BuildInfo, the option check, then a withHandle region
    | Info                           // BuildInfo
    | Abi                            // ABIVersion
    | Close

  /** wrote is what the failing downcall itself left in its thread's slot, handed the owned string a successful
      one returned. */
  datatype Result =
    | Value(text: seq<Byte>, handed: Option<Mem>)
    | EngineError(msg: Message, wrote: Option<Mem>)
    | Refused(key: string)
    | Cancelled
    | Closed
    | Zero

  datatype PC =
    // a withHandle region
    | AtContext | AtRLock | Locked | Open | Pinned | InCall(h: nat) | Failed(wrote: Option<Mem>)
    | HasError(p: Ptr, wrote: Option<Mem>) | ErrorCopied(p: Ptr, text: seq<Byte>, wrote: Option<Mem>)
    | HasText(p: Ptr, handed: Mem) | TextCopied(p: Ptr, text: seq<Byte>, handed: Mem)
    | Leaving(r: Result) | Unpinned(r: Result)
    // between ServeAdmin's two regions
    | Deciding
    // Close
    | AtLock | WLocked | Marked(h: nat) | StopReady(h: nat) | Stopping(h: nat) | StopReturned | Unloading | WDone
    | Done(r: Result)

  /** late: the operation began when closed was already set. gate: ServeAdmin's check has passed. */
  datatype Goroutine = Goroutine(op: Op, pc: PC, thread: Tid, late: bool, gate: bool)

  datatype State = State(
    gs: map<Gid, Goroutine>,
    readers: set<Gid>, writer: Option<Gid>,
    closed: bool, handle: nat,
    live: nat,             // the handle start returned; nonzero
    running: bool, mapped: bool, stops: nat, unloads: nat,
    slots: map<Tid, Mem>,  // a thread missing here has an empty slot
    heap: map<Ptr, Mem>,   // owned strings not yet freed
    handed: nat,           // pointers handed over so far are 0 .. handed - 1
    frees: map<Ptr, nat>,  // how often each was freed
    info: BuildInfo)

  // ----- program points -----

  predicate HoldsRead(pc: PC) {
    pc.Locked? || pc.Open? || IsPinnedReader(pc) || pc.Unpinned?
  }

  predicate IsPinnedReader(pc: PC) {
    pc.Pinned? || pc.InCall? || pc.Failed? || pc.HasError? || pc.ErrorCopied? || pc.HasText? || pc.TextCopied? || pc.Leaving?
  }

  predicate HoldsWrite(pc: PC) {
    pc.WLocked? || pc.Marked? || pc.StopReady? || pc.Stopping? || pc.StopReturned? || pc.Unloading? || pc.WDone?
  }

  predicate IsPinned(pc: PC) { IsPinnedReader(pc) || pc.StopReady? || pc.Stopping? || pc.StopReturned? }

  /** Past the closed check and not yet out of the native library's reach. */
  predicate Trusted(pc: PC) { pc.Open? || IsPinnedReader(pc) }

  /** The owned pointer a goroutine has yet to free. */
  function Held(pc: PC): Option<Ptr> {
    if pc.HasError? || pc.ErrorCopied? || pc.HasText? || pc.TextCopied? then Some(pc.p) else None
  }

  // ----- steps -----

  datatype Step =
    | Begin(g: Gid, op: Op, t: Tid)
    | Migrate(g: Gid, t: Tid)
    | CancelAt(g: Gid) | ContextOk(g: Gid)
    | RLock(g: Gid) | SeeClosed(g: Gid) | SeeOpen(g: Gid) | AbiCall(g: Gid)
    | Pin(g: Gid) | ReadInfo(g: Gid)
    | CallBegin(g: Gid)
    | CallFail(g: Gid, wrote: Option<Mem>)
    | CallDone(g: Gid, slot: Option<Mem>)
    | CallText(g: Gid, slot: Option<Mem>, text: Mem)
    | LastError(g: Gid, keep: bool)
    | Copy(g: Gid) | Free(g: Gid)
    | Unpin(g: Gid) | RUnlock(g: Gid)
    | Decide(g: Gid, refused: Option<string>)
    | WLock(g: Gid) | SeeClosedW(g: Gid) | Mark(g: Gid) | PinW(g: Gid) | StopBegin(g: Gid) | StopEnd(g: Gid)
    | UnpinW(g: Gid) | Unload(g: Gid) | WUnlock(g: Gid)

  function At(s: State, g: Gid): PC
    requires g in s.gs
  {
    s.gs[g].pc
  }

  /** No other goroutine is wired to g's thread, so g can execute there. */
  predicate CanRun(s: State, g: Gid)
    requires g in s.gs
  {
    forall h :: h in s.gs && h != g && IsPinned(s.gs[h].pc) ==> s.gs[h].thread != s.gs[g].thread
  }

  predicate Unwired(s: State, t: Tid) {
    forall h :: h in s.gs && IsPinned(s.gs[h].pc) ==> s.gs[h].thread != t
  }

  function SetSlot(slots: map<Tid, Mem>, t: Tid, m: Option<Mem>): map<Tid, Mem> {
    if m.Some? then slots[t := m.value] else slots - {t}
  }

  function Slot(s: State, t: Tid): Option<Mem> { if t in s.slots then Some(s.slots[t]) else None }

  /** A withHandle region runs the call; ServeAdmin's first region and Info only read the build info. */
  predicate Calls(g: Goroutine) { g.op.Call? || (g.op.ServeAdmin? && g.gate) }

  predicate ReadsInfo(g: Goroutine) { g.op.Info? || (g.op.ServeAdmin? && !g.gate) }

  function ShapeOf(op: Op): Shape { if op.Call? then op.shape else OwnedString }

  function FirstPC(op: Op): PC {
    match op
    case Call(_) => AtContext
    case Close => AtLock
    case _ => AtRLock
  }

  ghost predicate Enabled(s: State, st: Step) {
    if st.Begin? then (st.g in s.gs ==> s.gs[st.g].pc.Done?) && Unwired(s, st.t)
    else if st.Migrate? then st.g in s.gs && !IsPinned(At(s, st.g)) && Unwired(s, st.t)
    else st.g in s.gs && CanRun(s, st.g) && Ready(s, st, s.gs[st.g])
  }

  /** The goroutine's program point and the lock allow the step. */
  ghost predicate Ready(s: State, st: Step, g: Goroutine) {
    match st
    case Begin(_, _, _) => false
    case Migrate(_, _) => false
    case CancelAt(_) => g.pc.AtContext?
    case ContextOk(_) => g.pc.AtContext?
    case RLock(_) => g.pc.AtRLock? && s.writer.None?
    case SeeClosed(_) => g.pc.Locked? && s.closed
    case SeeOpen(_) => g.pc.Locked? && !s.closed && !g.op.Abi?
    case AbiCall(_) => g.pc.Locked? && !s.closed && g.op.Abi?
    case Pin(_) => g.pc.Open?
    case ReadInfo(_) => g.pc.Pinned? && ReadsInfo(g)
    case CallBegin(_) => g.pc.Pinned? && Calls(g)
    case CallFail(_, _) => g.pc.InCall?
    case CallDone(_, _) => g.pc.InCall? && !ShapeOf(g.op).OwnedString?
    case CallText(_, _, _) => g.pc.InCall? && ShapeOf(g.op).OwnedString?
    case LastError(_, _) => g.pc.Failed?
    case Copy(_) => g.pc.HasError? || g.pc.HasText?
    case Free(_) => g.pc.ErrorCopied? || g.pc.TextCopied?
    case Unpin(_) => g.pc.Leaving?
    case RUnlock(_) => g.pc.Unpinned?
    case Decide(_, refused) => g.pc.Deciding? && g.op.ServeAdmin? && Verdict(s.info, g.op.keys, refused)
    case WLock(_) => g.pc.AtLock? && s.writer.None? && s.readers == {}
    case SeeClosedW(_) => g.pc.WLocked? && s.closed
    case Mark(_) => g.pc.WLocked? && !s.closed
    case PinW(_) => g.pc.Marked?
    case StopBegin(_) => g.pc.StopReady?
    case StopEnd(_) => g.pc.Stopping?
    case UnpinW(_) => g.pc.StopReturned?
    case Unload(_) => g.pc.Unloading?
    case WUnlock(_) => g.pc.WDone?
  }

  /** The text behind a held pointer. */
  function TextAt(s: State, p: Ptr): seq<Byte> { if p in s.heap then Text(s.heap[p]) else [] }

  /** The stepping goroutine after the step. */
  ghost function After(s: State, st: Step): Goroutine
    requires Enabled(s, st)
  {
    if st.Begin? then Goroutine(st.op, FirstPC(st.op), st.t, s.closed, false)
    else if st.Migrate? then s.gs[st.g].(thread := st.t)
    else if st.Decide? && st.refused.None? then s.gs[st.g].(pc := AtContext, gate := true)
    else s.gs[st.g].(pc := NextPC(s, st, s.gs[st.g]))
  }

  ghost function NextPC(s: State, st: Step, g: Goroutine): PC
    requires Ready(s, st, g)
  {
    match st
    case CancelAt(_) => Done(Cancelled)
    case ContextOk(_) => AtRLock
    case RLock(_) => Locked
    case SeeClosed(_) => Unpinned(if g.op.Abi? then Zero else Closed)
    case SeeOpen(_) => Open
    case AbiCall(_) => Unpinned(Value([], None))
    case Pin(_) => Pinned
    case ReadInfo(_) => Leaving(Value([], None))
    case CallBegin(_) => InCall(s.handle)
    case CallFail(_, wrote) => Failed(wrote)
    case CallDone(_, _) => Leaving(Value([], None))
    case CallText(_, _, text) => HasText(s.handed, text)
    case LastError(_, _) => if Slot(s, g.thread).None? then Leaving(EngineError(NoDetail, g.pc.wrote)) else HasError(s.handed, g.pc.wrote)
    case Copy(_) =>
      if g.pc.HasError? then ErrorCopied(g.pc.p, TextAt(s, g.pc.p), g.pc.wrote) else TextCopied(g.pc.p, TextAt(s, g.pc.p), g.pc.handed)
    case Free(_) =>
      Leaving(if g.pc.ErrorCopied? then EngineError(if g.pc.text == [] then NoDetail else Said(g.pc.text), g.pc.wrote)
              else Value(g.pc.text, Some(g.pc.handed)))
    case Unpin(_) => Unpinned(g.pc.r)
    case RUnlock(_) => if g.op.ServeAdmin? && !g.gate && g.pc.r.Value? then Deciding else Done(g.pc.r)
    case Decide(_, refused) => if refused.Some? then Done(Refused(refused.value)) else AtContext
    case WLock(_) => WLocked
    case SeeClosedW(_) => WDone
    case Mark(_) => Marked(s.handle)
    case PinW(_) => StopReady(g.pc.h)
    case StopBegin(_) => Stopping(g.pc.h)
    case StopEnd(_) => StopReturned
    case UnpinW(_) => Unloading
    case Unload(_) => WDone
    case WUnlock(_) => Done(Value([], None))
  }

  /** The slots after the step. The engine may overwrite or clear the calling thread's slot in a
      call that succeeds, writes its message there (or nothing) in one that fails, may clear it when
      it is read, and touches no other thread's slot. */
  ghost function NextSlots(s: State, st: Step): map<Tid, Mem>
    requires Enabled(s, st)
  {
    match st
    case CallFail(g, wrote) => SetSlot(s.slots, s.gs[g].thread, wrote)
    case CallDone(g, slot) => SetSlot(s.slots, s.gs[g].thread, slot)
    case CallText(g, slot, _) => SetSlot(s.slots, s.gs[g].thread, slot)
    case LastError(g, keep) => if keep then s.slots else SetSlot(s.slots, s.gs[g].thread, None)
    case _ => s.slots
  }

  /** The owned string a step hands over, if it does: a result, or a copy of the slot. */
  ghost function HandsOver(s: State, st: Step): Option<Mem>
    requires Enabled(s, st)
  {
    match st
    case CallText(_, _, text) => Some(text)
    case LastError(g, _) => Slot(s, s.gs[g].thread)
    case _ => None
  }

  ghost function Next(s: State, st: Step): State
    requires Enabled(s, st)
  {
    var hands := HandsOver(s, st);
    State(s.gs[st.g := After(s, st)],
          if st.RLock? then s.readers + {st.g} else if st.RUnlock? then s.readers - {st.g} else s.readers,
          if st.WLock? then Some(st.g) else if st.WUnlock? then None else s.writer,
          s.closed || st.Mark?, if st.Mark? then 0 else s.handle, s.live,
          s.running && !st.StopEnd?, s.mapped && !st.Unload?,
          s.stops + if st.StopBegin? then 1 else 0, s.unloads + if st.Unload? then 1 else 0,
          NextSlots(s, st),
          if hands.Some? then s.heap[s.handed := hands.value] else if st.Free? then s.heap - {s.gs[st.g].pc.p} else s.heap,
          s.handed + if hands.Some? then 1 else 0,
          if hands.Some? then s.frees[s.handed := 0] else if st.Free? then Freed(s.frees, s.gs[st.g].pc.p) else s.frees,
          s.info)
  }

  function Freed(frees: map<Ptr, nat>, p: Ptr): map<Ptr, nat> {
    frees[p := if p in frees then frees[p] + 1 else 1]
  }

  /** A started engine that nothing has called yet. */
  function Init(h: nat, info: BuildInfo): State {
    State(map[], {}, None, false, h, h, true, true, 0, 0, map[], map[], 0, map[], info)
  }

  /** The state after a run, if every step of it was enabled. */
  ghost function Run(s: State, steps: seq<Step>): Option<State>
    decreases |steps|
  {
    if steps == [] then Some(s)
    else
      var before := Run(s, steps[..|steps| - 1]);
      if before.Some? && Enabled(before.value, steps[|steps| - 1]) then Some(Next(before.value, steps[|steps| - 1])) else None
  }

  // ----- invariant -----

  ghost predicate LockInv(s: State) {
    && s.readers <= s.gs.Keys
    && (s.writer.Some? ==> s.writer.value in s.gs && s.readers == {})
    && forall g :: g in s.gs ==> LockAt(s, g)
  }

  ghost predicate LockAt(s: State, g: Gid)
    requires g in s.gs
  {
    (HoldsRead(At(s, g)) <==> g in s.readers) && (HoldsWrite(At(s, g)) <==> s.writer == Some(g))
  }

  ghost predicate ThreadInv(s: State) {
    forall g, h :: g in s.gs && h in s.gs && g != h && IsPinned(At(s, g)) && IsPinned(At(s, h)) ==> s.gs[g].thread != s.gs[h].thread
  }

  /** How far Close has got: 0 open, 1 marked closed, 2 in stop, 3 stopped, 4 unloaded. */
  function Phase(closed: bool, pc: PC): nat {
    if pc.Marked? || pc.StopReady? then 1
    else if pc.Stopping? then 2
    else if pc.StopReturned? || pc.Unloading? then 3
    else if closed then 4 else 0
  }

  function WriterPC(s: State): PC {
    if s.writer.Some? && s.writer.value in s.gs then At(s, s.writer.value) else Done(Zero)
  }

  /** The engine's lifetime, by how far the holder of the write lock has got. */
  ghost predicate LifeInv(s: State) {
    var w := WriterPC(s);
    var phase := Phase(s.closed, w);
    && s.live != 0 && s.handle == (if s.closed then 0 else s.live)
    && s.closed == (phase > 0) && s.running == (phase <= 2) && s.mapped == (phase <= 3)
    && s.stops == (if phase >= 2 then 1 else 0) && s.unloads == (if phase == 4 then 1 else 0)
    && (w.Marked? || w.StopReady? || w.Stopping? ==> w.h == s.live)
  }

  /** What a goroutine may rely on at its program point. */
  ghost predicate PointInv(s: State, g: Goroutine) {
    && CallInv(s, g)
    && (g.op.Close? ==> g.pc.AtLock? || HoldsWrite(g.pc) || g.pc.Done?)
    && (g.pc.AtLock? || HoldsWrite(g.pc) ==> g.op.Close?)
    && (g.pc.Deciding? ==> g.op.ServeAdmin? && !g.gate)
    && (g.gate ==> g.op.ServeAdmin? && forall k :: k in g.op.keys ==> Supports(s.info, k))
    && (g.late ==> s.closed && LateInv(g))
  }

  /** Inside the native library the engine is open, the handle is the live one, and the thread's slot
      is what this goroutine's own failing call wrote. */
  ghost predicate CallInv(s: State, g: Goroutine) {
    && (Trusted(g.pc) ==> !s.closed)
    && (g.pc.InCall? ==> g.pc.h == s.live && Calls(g))
    && (g.pc.Failed? ==> Slot(s, g.thread) == g.pc.wrote)
    && (g.pc.Leaving? || g.pc.Unpinned? || g.pc.Done? ==> ResultInv(g, g.pc.r))
  }

  /** The operation ends, if it succeeds, with a string the engine handed over. */
  predicate GivesText(g: Goroutine) { Calls(g) && ShapeOf(g.op).OwnedString? }

  ghost predicate ResultInv(g: Goroutine, r: Result) {
    && (r.EngineError? ==> r.msg == MessageOf(r.wrote))
    && (r.Value? && r.handed.Some? ==> r.text == Text(r.handed.value))
    && (r.Value? && GivesText(g) ==> r.handed.Some?)
  }

  /** An operation that began after closing can only wait, be cancelled or be told so. */
  ghost predicate LateInv(g: Goroutine) {
    if g.op.Close? then g.pc.AtLock? || g.pc.WLocked? || g.pc.WDone? || g.pc.Done?
    else
      || g.pc.AtContext? || g.pc.AtRLock? || g.pc.Locked?
      || ((g.pc.Unpinned? || g.pc.Done?) && (g.pc.r.Closed? || (g.pc.r.Zero? && g.op.Abi?) || g.pc.r.Cancelled?))
  }

  ghost predicate HeldInv(s: State, pc: PC) {
    Held(pc).Some? ==>
      && pc.p in s.heap
      && (pc.HasError? || pc.ErrorCopied? ==> pc.wrote == Some(s.heap[pc.p]))
      && (pc.HasText? || pc.TextCopied? ==> pc.handed == s.heap[pc.p])
      && (pc.ErrorCopied? || pc.TextCopied? ==> pc.text == Text(s.heap[pc.p]))
  }

  /** The ledger: every pointer handed over is live and not yet freed, or was freed exactly once. */
  ghost predicate LedgerInv(s: State) {
    && (forall p :: p in s.frees <==> 0 <= p < s.handed)
    && (forall p :: p in s.heap ==> p in s.frees)
    && (forall p :: p in s.frees ==> s.frees[p] == if p in s.heap then 0 else 1)
  }

  /** Every live pointer is held by exactly one goroutine. */
  ghost predicate HolderInv(s: State) {
    && (forall g, h :: g in s.gs && h in s.gs && g != h && Held(At(s, g)).Some? ==> Held(At(s, g)) != Held(At(s, h)))
    && (forall p :: p in s.heap ==> exists g :: g in s.gs && Held(At(s, g)) == Some(p))
  }

  ghost predicate HeapInv(s: State) {
    LedgerInv(s) && HolderInv(s) && forall g :: g in s.gs ==> HeldInv(s, At(s, g))
  }

  ghost predicate Inv(s: State) {
    && LockInv(s) && ThreadInv(s) && LifeInv(s) && HeapInv(s)
    && forall g :: g in s.gs ==> PointInv(s, s.gs[g])
  }

  // ----- one step keeps the invariant -----

  /** How a step moves its goroutine with respect to the locks and the thread pin. */
  lemma Moves(s: State, st: Step, g: Goroutine)
    requires Ready(s, st, g)
    ensures HoldsRead(NextPC(s, st, g)) == (st.RLock? || (HoldsRead(g.pc) && !st.RUnlock?))
    ensures HoldsWrite(NextPC(s, st, g)) == (st.WLock? || (HoldsWrite(g.pc) && !st.WUnlock?))
    ensures IsPinned(NextPC(s, st, g)) == (st.Pin? || st.PinW? || (IsPinned(g.pc) && !st.Unpin? && !st.UnpinW?))
    ensures st.RLock? ==> s.writer.None?
    ensures st.RUnlock? ==> HoldsRead(g.pc)
    ensures st.WLock? ==> s.writer.None? && s.readers == {}
    ensures st.WUnlock? ==> HoldsWrite(g.pc)
  {
    hide Text, TextAt, Slot, Verdict;
  }

  lemma Steps(s: State, st: Step)
    requires Enabled(s, st)
    ensures var was, now := if st.g in s.gs then At(s, st.g) else Done(Zero), After(s, st).pc;
            && HoldsRead(now) == (st.RLock? || (HoldsRead(was) && !st.RUnlock?))
            && HoldsWrite(now) == (st.WLock? || (HoldsWrite(was) && !st.WUnlock?))
            && IsPinned(now) == (st.Pin? || st.PinW? || (IsPinned(was) && !st.Unpin? && !st.UnpinW?))
            && (st.RUnlock? ==> HoldsRead(was)) && (st.WUnlock? ==> HoldsWrite(was))
            && (IsPinned(now) && !st.Pin? && !st.PinW? ==> IsPinned(was) && After(s, st).thread == s.gs[st.g].thread)
    ensures st.RLock? || st.WLock? ==> s.writer.None?
    ensures st.WLock? ==> s.readers == {}
    ensures st.Pin? || st.PinW? ==> st.g in s.gs && CanRun(s, st.g) && After(s, st).thread == s.gs[st.g].thread
  {
    if !st.Begin? && !st.Migrate? { Moves(s, st, s.gs[st.g]); }
    hide NextPC, Ready, CanRun, Unwired;
  }

  lemma NextLocks(s: State, st: Step)
    requires Enabled(s, st)
    ensures Next(s, st).gs == s.gs[st.g := After(s, st)]
    ensures Next(s, st).readers == if st.RLock? then s.readers + {st.g} else if st.RUnlock? then s.readers - {st.g} else s.readers
    ensures Next(s, st).writer == if st.WLock? then Some(st.g) else if st.WUnlock? then None else s.writer
  {
    hide After, Enabled, HandsOver, NextSlots;
  }

  lemma LockStepAt(s: State, st: Step, g: Gid)
    requires LockInv(s) && Enabled(s, st) && g in Next(s, st).gs
    ensures LockAt(Next(s, st), g)
  {
    Steps(s, st);
    NextLocks(s, st);
    hide Next, HoldsRead, HoldsWrite, IsPinned, Enabled, After, CanRun;
    assert g in s.gs ==> LockAt(s, g);
  }

  lemma LockStep(s: State, st: Step)
    requires LockInv(s) && Enabled(s, st)
    ensures LockInv(Next(s, st))
  {
    forall g | g in Next(s, st).gs ensures LockAt(Next(s, st), g) { LockStepAt(s, st, g); }
    Steps(s, st);
    NextLocks(s, st);
    hide Next, HoldsRead, HoldsWrite, IsPinned, Enabled, After, CanRun, LockAt;
  }

  lemma ThreadStep(s: State, st: Step)
    requires ThreadInv(s) && Enabled(s, st)
    ensures ThreadInv(Next(s, st))
  {
    Steps(s, st);
    NextLocks(s, st);
    hide Next, HoldsRead, HoldsWrite, IsPinned, Enabled, After;
  }

  lemma NextLife(s: State, st: Step)
    requires Enabled(s, st)
    ensures var n := Next(s, st);
            && n.closed == (s.closed || st.Mark?) && n.handle == (if st.Mark? then 0 else s.handle) && n.live == s.live
            && n.running == (s.running && !st.StopEnd?) && n.mapped == (s.mapped && !st.Unload?)
            && n.stops == s.stops + (if st.StopBegin? then 1 else 0) && n.unloads == s.unloads + (if st.Unload? then 1 else 0)
            && n.slots == NextSlots(s, st) && n.info == s.info
  {
    hide After, Enabled, HandsOver, NextSlots;
  }

  /** Close goes through its phases one at a time. */
  lemma CloseMoves(s: State, st: Step, g: Goroutine)
    requires Ready(s, st, g)
    ensures var was, now := g.pc, NextPC(s, st, g);
            && (st.Mark? ==> was.WLocked? && !s.closed && now == Marked(s.handle))
            && (st.StopBegin? ==> Phase(s.closed, was) == 1 && Phase(s.closed, now) == 2)
            && (st.StopEnd? ==> Phase(s.closed, was) == 2 && Phase(s.closed, now) == 3)
            && (st.Unload? ==> Phase(s.closed, was) == 3 && now == WDone)
            && (HoldsWrite(g.pc) && !st.Mark? && !st.StopBegin? && !st.StopEnd? && !st.Unload? ==> Phase(s.closed, now) == Phase(s.closed, was))
            && (now.Marked? || now.StopReady? || now.Stopping? ==> now.h == s.handle || ((was.Marked? || was.StopReady?) && now.h == was.h))
            && (st.WLock? || st.WUnlock? ==> Phase(s.closed, now) == Phase(s.closed, was) == Phase(s.closed, Done(Zero)))
    ensures st.Mark? || st.StopBegin? || st.StopEnd? || st.Unload? ==> HoldsWrite(g.pc)
  {
    hide Verdict, Text, TextAt, Slot;
  }

  lemma WriterMoves(s: State, st: Step)
    requires LockInv(s) && Enabled(s, st)
    ensures Next(s, st).writer == s.writer && s.writer != Some(st.g) ==> WriterPC(Next(s, st)) == WriterPC(s)
    ensures s.writer == Some(st.g) && !st.WUnlock? ==> WriterPC(s) == At(s, st.g) && WriterPC(Next(s, st)) == After(s, st).pc
    ensures st.WLock? ==> WriterPC(s) == Done(Zero) && WriterPC(Next(s, st)).WLocked?
    ensures st.WUnlock? ==> WriterPC(s) == WDone && WriterPC(Next(s, st)) == Done(Zero)
  {
    NextLocks(s, st);
    Steps(s, st);
    hide Next, HoldsRead, HoldsWrite, IsPinned, CanRun, Unwired, Verdict, Text, Slot;
    assert st.g in s.gs ==> LockAt(s, st.g);
  }

  lemma LifeStep(s: State, st: Step)
    requires LockInv(s) && LifeInv(s) && Enabled(s, st)
    ensures LifeInv(Next(s, st))
  {
    NextLife(s, st);
    WriterMoves(s, st);
    if !st.Begin? && !st.Migrate? { CloseMoves(s, st, s.gs[st.g]); }
    hide Next, NextPC, Ready, HoldsRead, HoldsWrite, NextSlots, WriterPC, CanRun, Unwired;
    assert st.g in s.gs ==> LockAt(s, st.g);
  }

  lemma FreedText(m: Mem)
    ensures MessageOf(Some(m)) == if Text(m) == [] then NoDetail else Said(Text(m))
  {
  }

  /** How a step moves its goroutine with respect to the native library. */
  lemma CallMoves(s: State, st: Step, g: Goroutine)
    requires Ready(s, st, g)
    ensures var was, now := g.pc, NextPC(s, st, g);
            && (Trusted(now) ==> (Trusted(was) || (st.SeeOpen? && !s.closed)) && !st.Mark?)
            && (now.InCall? ==> now.h == s.handle && Calls(g) && Trusted(was))
            && (now.Failed? ==> st.CallFail? && now.wrote == st.wrote)
  {
    hide Verdict, Text, TextAt, Slot;
  }

  /** A result that reports an engine error reports what the call wrote. */
  lemma ResultHere(s: State, st: Step, g: Goroutine)
    requires Ready(s, st, g) && CallInv(s, g) && HeldInv(s, g.pc) && (HoldsWrite(g.pc) ==> g.op.Close?)
    ensures var now := NextPC(s, st, g);
            now.Leaving? || now.Unpinned? || now.Done? ==> ResultInv(g, now.r)
  {
    hide Verdict, Text, TextAt;
    if st.Free? && g.pc.ErrorCopied? { FreedText(g.pc.wrote.value); }
  }

  lemma CallHere(s: State, st: Step, g: Goroutine)
    requires Enabled(s, st) && !st.Begin? && !st.Migrate? && g == s.gs[st.g]
    requires s.handle == (if s.closed then 0 else s.live) && CallInv(s, g) && HeldInv(s, g.pc) && (HoldsWrite(g.pc) ==> g.op.Close?)
    ensures CallInv(Next(s, st), After(s, st))
  {
    NextLife(s, st);
    CallMoves(s, st, g);
    ResultHere(s, st, g);
    hide Next, NextPC, Ready, CanRun, ResultInv, HeldInv;
  }

  /** The parts of the point invariant about operations. */
  lemma OpHere(s: State, st: Step, g: Goroutine)
    requires Ready(s, st, g) && PointInv(s, g)
    ensures var now := NextPC(s, st, g);
            && (g.op.Close? ==> now.AtLock? || HoldsWrite(now) || now.Done?)
            && (now.AtLock? || HoldsWrite(now) ==> g.op.Close?)
            && (now.Deciding? ==> g.op.ServeAdmin? && !g.gate)
            && (g.late ==> LateInv(g.(pc := now)))
  {
    hide CallInv, Text, TextAt, Slot, Verdict;
  }

  lemma PointHere(s: State, st: Step)
    requires Enabled(s, st)
    requires s.handle == if s.closed then 0 else s.live
    requires st.g in s.gs ==> PointInv(s, s.gs[st.g]) && HeldInv(s, At(s, st.g))
    ensures PointInv(Next(s, st), After(s, st))
  {
    NextLife(s, st);
    if !st.Begin? && !st.Migrate? {
      CallHere(s, st, s.gs[st.g]);
      OpHere(s, st, s.gs[st.g]);
      hide Next, NextPC, CanRun, CallInv, HeldInv, LateInv;
      assert st.Decide? ==> Verdict(s.info, s.gs[st.g].op.keys, st.refused);
    } else {
      hide Next, NextPC, Ready, CanRun, Unwired;
    }
  }

  /** Everyone else's: nobody is inside the native library when closed is set, and no other thread's
      slot is touched. */
  lemma PointElsewhere(s: State, st: Step, h: Gid)
    requires LockInv(s) && ThreadInv(s) && Enabled(s, st) && h in s.gs && h != st.g && PointInv(s, s.gs[h])
    ensures PointInv(Next(s, st), s.gs[h])
  {
    NextLife(s, st);
    Steps(s, st);
    assert LockAt(s, h);
    if !st.Begin? && !st.Migrate? {
      Moves(s, st, s.gs[st.g]);
      CloseMoves(s, st, s.gs[st.g]);
      assert LockAt(s, st.g);
    }
    hide Next, NextPC, After, CanRun, Unwired, Text, MessageOf;
  }

  // ----- the ledger -----

  lemma NextHeap(s: State, st: Step)
    requires Enabled(s, st)
    ensures var n, hands := Next(s, st), HandsOver(s, st);
            && n.heap == (if hands.Some? then s.heap[s.handed := hands.value] else if st.Free? then s.heap - {s.gs[st.g].pc.p} else s.heap)
            && n.handed == s.handed + (if hands.Some? then 1 else 0)
            && n.frees == if hands.Some? then s.frees[s.handed := 0] else if st.Free? then Freed(s.frees, s.gs[st.g].pc.p) else s.frees
  {
    hide After, NextSlots, HandsOver, Freed;
  }

  lemma HeldPC(s: State, st: Step, g: Goroutine)
    requires Ready(s, st, g) && HeldInv(s, g.pc) && (g.pc.Failed? ==> Slot(s, g.thread) == g.pc.wrote)
    ensures var was, now := Held(g.pc), Held(NextPC(s, st, g));
            if st.CallText? || (st.LastError? && Slot(s, g.thread).Some?) then was.None? && now == Some(s.handed)
            else if st.Free? then was == Some(g.pc.p) && now.None?
            else now == was
    ensures st.Decide? ==> Held(g.pc).None?
  {
    hide Verdict, Text, TextAt, Slot, Calls, ReadsInfo, ShapeOf;
  }

  /** A goroutine takes on exactly the pointer handed to it and lets go of it by freeing it. */
  lemma HeldMoves(s: State, st: Step)
    requires Enabled(s, st)
    requires st.g in s.gs ==> HeldInv(s, At(s, st.g)) && (At(s, st.g).Failed? ==> Slot(s, s.gs[st.g].thread) == At(s, st.g).wrote)
    ensures var was, now, hands := if st.g in s.gs then Held(At(s, st.g)) else None, Held(After(s, st).pc), HandsOver(s, st);
            && (hands.Some? ==> was.None? && now == Some(s.handed) && st.g in s.gs)
            && (st.Free? ==> was == Some(s.gs[st.g].pc.p) && now.None? && hands.None?)
            && (hands.None? && !st.Free? ==> now == was)
  {
    hide CanRun, Unwired, HeldInv, Slot;
    if !st.Begin? && !st.Migrate? { HeldPC(s, st, s.gs[st.g]); }
    hide NextPC, Ready;
  }

  lemma HeldHere(s: State, st: Step)
    requires Enabled(s, st)
    requires st.g in s.gs ==> HeldInv(s, At(s, st.g)) && (At(s, st.g).Failed? ==> Slot(s, s.gs[st.g].thread) == At(s, st.g).wrote)
    ensures HeldInv(Next(s, st), After(s, st).pc)
  {
    NextHeap(s, st);
    hide Next, CanRun, Unwired, Verdict, Text, Freed;
  }

  lemma LedgerStep(s: State, st: Step)
    requires LedgerInv(s) && Enabled(s, st)
    requires st.g in s.gs ==> HeldInv(s, At(s, st.g)) && CallInv(s, s.gs[st.g])
    ensures LedgerInv(Next(s, st))
  {
    NextHeap(s, st);
    HeldMoves(s, st);
    hide Next, After, Enabled, CallInv, HandsOver, Text;
  }

  lemma HeldElsewhere(s: State, st: Step, h: Gid)
    requires HeapInv(s) && Enabled(s, st) && h in s.gs && h != st.g && (st.g in s.gs ==> CallInv(s, s.gs[st.g]))
    ensures HeldInv(Next(s, st), At(s, h))
  {
    NextHeap(s, st);
    HeldMoves(s, st);
    hide Next, After, Enabled, CallInv, HandsOver, Text;
    assert HeldInv(s, At(s, h));
  }

  lemma HeldBelow(s: State, h: Gid)
    requires HeapInv(s) && h in s.gs && Held(At(s, h)).Some?
    ensures Held(At(s, h)).value < s.handed
  {
    assert HeldInv(s, At(s, h));
  }

  lemma HeldOnce(s: State, st: Step, g: Gid, h: Gid)
    requires HeapInv(s) && Enabled(s, st) && (st.g in s.gs ==> CallInv(s, s.gs[st.g]))
    requires g in Next(s, st).gs && h in s.gs && g != h && h != st.g && Held(At(Next(s, st), g)).Some?
    ensures Held(At(Next(s, st), g)) != Held(At(Next(s, st), h))
  {
    NextLocks(s, st);
    HeldMoves(s, st);
    if Held(At(s, h)).Some? { HeldBelow(s, h); }
    hide Next, After, Enabled, CallInv, HandsOver, Held, HeldInv, LedgerInv;
  }

  lemma HeldSomewhere(s: State, st: Step, p: Ptr)
    requires HeapInv(s) && Enabled(s, st) && (st.g in s.gs ==> CallInv(s, s.gs[st.g])) && p in Next(s, st).heap
    ensures exists g :: g in Next(s, st).gs && Held(At(Next(s, st), g)) == Some(p)
  {
    NextLocks(s, st);
    NextHeap(s, st);
    HeldMoves(s, st);
    hide Next, After, Enabled, CallInv, HandsOver, Held, HeldInv, LedgerInv, Freed;
    var n := Next(s, st);
    if p in s.heap && p != s.handed {
      var g :| g in s.gs && Held(At(s, g)) == Some(p);
      assert g in n.gs && Held(At(n, g)) == Some(p);
    } else {
      assert Held(At(n, st.g)) == Some(p);
    }
  }

  lemma HeapStep(s: State, st: Step)
    requires HeapInv(s) && Enabled(s, st) && (st.g in s.gs ==> CallInv(s, s.gs[st.g]))
    ensures HeapInv(Next(s, st))
  {
    NextLocks(s, st);
    HeldHere(s, st);
    LedgerStep(s, st);
    var n := Next(s, st);
    forall p | p in n.heap ensures exists g :: g in n.gs && Held(At(n, g)) == Some(p) { HeldSomewhere(s, st, p); }
    forall g, h | g in n.gs && h in n.gs && g != h && Held(At(n, g)).Some? ensures Held(At(n, g)) != Held(At(n, h)) {
      if h != st.g { HeldOnce(s, st, g, h); } else if Held(At(n, h)).Some? { HeldOnce(s, st, h, g); }
    }
    hide Next, After, Enabled, CallInv, LedgerInv, HeldInv, Held;
    forall h | h in n.gs ensures HeldInv(n, At(n, h)) {
      if h != st.g { HeldElsewhere(s, st, h); }
    }
  }

  // ----- every run -----

  lemma InvStep(s: State, st: Step)
    requires Inv(s) && Enabled(s, st)
    ensures Inv(Next(s, st))
  {
    LockStep(s, st);
    ThreadStep(s, st);
    LifeStep(s, st);
    HeapStep(s, st);
    PointHere(s, st);
    NextLocks(s, st);
    var n := Next(s, st);
    hide Next, After, Enabled, LockInv, ThreadInv, LifeInv, HeapInv, PointInv;
    forall h | h in n.gs ensures PointInv(n, n.gs[h]) {
      if h != st.g { PointElsewhere(s, st, h); }
    }
  }

  lemma {:induction false} InvRun(h: nat, info: BuildInfo, steps: seq<Step>)
    requires h != 0 && Run(Init(h, info), steps).Some?
    ensures Inv(Run(Init(h, info), steps).value)
    decreases |steps|
  {
    if steps != [] {
      var before := steps[..|steps| - 1];
      InvRun(h, info, before);
      InvStep(Run(Init(h, info), before).value, steps[|steps| - 1]);
    }
  }

  // ----- main results -----

  /** The step runs code of the native library on behalf of an operation, or reads its memory. */
  predicate TouchesLibrary(st: Step) {
    st.AbiCall? || st.ReadInfo? || st.CallBegin? || st.CallFail? || st.CallDone? || st.CallText? || st.LastError? || st.Copy? || st.Free?
  }

  /** In every run, an operation touches the library only while the engine runs and the library is
      mapped, and a downcall is made on the handle start returned; stop runs at most once, on that
      handle and with no operation inside the library; the library is unmapped at most once, after
      stop has returned, and again with no operation inside. */
  lemma LifetimeSafe(h: nat, info: BuildInfo, steps: seq<Step>, st: Step)
    requires h != 0 && Run(Init(h, info), steps).Some? && Enabled(Run(Init(h, info), steps).value, st)
    ensures var s := Run(Init(h, info), steps).value;
            && (TouchesLibrary(st) ==> s.running && s.mapped && !s.closed && s.stops == 0)
            && (st.CallBegin? ==> s.handle == h)
            && (st.StopBegin? ==> s.stops == 0 && s.running && s.mapped && At(s, st.g).h == h)
            && (st.StopBegin? || st.StopEnd? || st.Unload? ==> forall g :: g in s.gs ==> !Trusted(At(s, g)))
            && (st.Unload? ==> s.unloads == 0 && s.stops == 1 && !s.running && s.mapped)
            && s.unloads <= s.stops <= 1
  {
    InvRun(h, info, steps);
    LiveIsStarted(h, info, steps);
    var s := Run(Init(h, info), steps).value;
    TouchesTrusted(s, st);
    assert st.g in s.gs ==> LockAt(s, st.g) && PointInv(s, s.gs[st.g]);
    forall g | g in s.gs ensures Trusted(At(s, g)) ==> !s.closed && s.writer.None? {
      assert PointInv(s, s.gs[g]) && LockAt(s, g);
    }
    hide Run, Enabled, HeapInv, ThreadInv, PointInv, LateInv;
  }

  lemma TouchesTrusted(s: State, st: Step)
    requires Enabled(s, st)
    ensures TouchesLibrary(st) ==> st.g in s.gs && (Trusted(At(s, st.g)) || (At(s, st.g).Locked? && !s.closed))
    ensures st.CallBegin? ==> Trusted(At(s, st.g))
    ensures st.StopBegin? ==> st.g in s.gs && At(s, st.g).StopReady?
    ensures st.StopEnd? ==> st.g in s.gs && At(s, st.g).Stopping?
    ensures st.Unload? ==> st.g in s.gs && At(s, st.g).Unloading?
  {
  }

  lemma {:induction false} LiveIsStarted(h: nat, info: BuildInfo, steps: seq<Step>)
    requires Run(Init(h, info), steps).Some?
    ensures Run(Init(h, info), steps).value.live == h && Run(Init(h, info), steps).value.info == info
    decreases |steps|
  {
    if steps != [] { LiveIsStarted(h, info, steps[..|steps| - 1]); }
  }

  /** What g's most recent failing downcall left in the slot of the thread it ran on. */
  function LastWrote(steps: seq<Step>, g: Gid): Option<Mem> {
    if steps == [] then None
    else
      var st := steps[|steps| - 1];
      if st.CallFail? && st.g == g then st.wrote else LastWrote(steps[..|steps| - 1], g)
  }

  /** The record of a failed call a program point carries. */
  function Record(pc: PC): Option<Option<Mem>> {
    if pc.Failed? || pc.HasError? || pc.ErrorCopied? then Some(pc.wrote)
    else if (pc.Leaving? || pc.Unpinned? || pc.Done?) && pc.r.EngineError? then Some(pc.r.wrote)
    else None
  }

  lemma RecordPC(s: State, st: Step, g: Goroutine)
    requires Ready(s, st, g)
    ensures var was, now := Record(g.pc), Record(NextPC(s, st, g));
            now.Some? ==> if st.CallFail? then now == Some(st.wrote) else now == was
  {
    hide Verdict, Text, TextAt, Slot, Calls, ReadsInfo, ShapeOf;
  }

  lemma RecordKept(s: State, st: Step)
    requires Enabled(s, st)
    ensures var was, now := if st.g in s.gs then Record(At(s, st.g)) else None, Record(After(s, st).pc);
            now.Some? ==> if st.CallFail? then now == Some(st.wrote) else now == was
  {
    hide CanRun, Unwired;
    if !st.Begin? && !st.Migrate? { RecordPC(s, st, s.gs[st.g]); }
    hide NextPC, Ready;
  }

  lemma {:induction false} RecordIsLastWrote(h: nat, info: BuildInfo, steps: seq<Step>, g: Gid)
    requires Run(Init(h, info), steps).Some? && g in Run(Init(h, info), steps).value.gs
    ensures var pc := At(Run(Init(h, info), steps).value, g);
            Record(pc).Some? ==> Record(pc).value == LastWrote(steps, g)
    decreases |steps|
  {
    if steps != [] {
      var before, st := steps[..|steps| - 1], steps[|steps| - 1];
      var s := Run(Init(h, info), before).value;
      NextLocks(s, st);
      RecordKept(s, st);
      if g in s.gs { RecordIsLastWrote(h, info, before, g); }
      hide Next, After, Enabled, Record;
    }
  }

  /** In every run, with goroutines migrating between threads at any unpinned point, a call that
      fails returns exactly the message its own downcall wrote: the text of that message, or "no
      detail" if it wrote none or an empty one. */
  lemma MessagesAreOwn(h: nat, info: BuildInfo, steps: seq<Step>, g: Gid)
    requires h != 0 && Run(Init(h, info), steps).Some?
    requires var s := Run(Init(h, info), steps).value;
             g in s.gs && At(s, g).Done? && At(s, g).r.EngineError?
    ensures At(Run(Init(h, info), steps).value, g).r.msg == MessageOf(LastWrote(steps, g))
  {
    InvRun(h, info, steps);
    RecordIsLastWrote(h, info, steps, g);
    hide Run, HeapInv, LifeInv, LockInv, ThreadInv, LateInv;
    assert PointInv(Run(Init(h, info), steps).value, Run(Init(h, info), steps).value.gs[g]);
  }

  /** The owned string g's most recent successful downcall handed over. */
  function LastHanded(steps: seq<Step>, g: Gid): Option<Mem> {
    if steps == [] then None
    else
      var st := steps[|steps| - 1];
      if st.CallText? && st.g == g then Some(st.text) else LastHanded(steps[..|steps| - 1], g)
  }

  /** The handed-over string a program point carries. */
  function Taken(pc: PC): Option<Mem> {
    if pc.HasText? || pc.TextCopied? then Some(pc.handed)
    else if (pc.Leaving? || pc.Unpinned? || pc.Done?) && pc.r.Value? then pc.r.handed
    else None
  }

  lemma TakenPC(s: State, st: Step, g: Goroutine)
    requires Ready(s, st, g)
    ensures var was, now := Taken(g.pc), Taken(NextPC(s, st, g));
            now.Some? ==> if st.CallText? then now == Some(st.text) else now == was
  {
    hide Verdict, Text, TextAt, Slot, Calls, ReadsInfo, ShapeOf;
  }

  lemma TakenKept(s: State, st: Step)
    requires Enabled(s, st)
    ensures var was, now := if st.g in s.gs then Taken(At(s, st.g)) else None, Taken(After(s, st).pc);
            now.Some? ==> if st.CallText? then now == Some(st.text) else now == was
  {
    hide CanRun, Unwired;
    if !st.Begin? && !st.Migrate? { TakenPC(s, st, s.gs[st.g]); }
    hide NextPC, Ready;
  }

  lemma {:induction false} TakenIsLastHanded(h: nat, info: BuildInfo, steps: seq<Step>, g: Gid)
    requires Run(Init(h, info), steps).Some? && g in Run(Init(h, info), steps).value.gs
    ensures var pc := At(Run(Init(h, info), steps).value, g);
            Taken(pc).Some? ==> Taken(pc) == LastHanded(steps, g)
    decreases |steps|
  {
    if steps != [] {
      var before, st := steps[..|steps| - 1], steps[|steps| - 1];
      var s := Run(Init(h, info), before).value;
      NextLocks(s, st);
      TakenKept(s, st);
      if g in s.gs { TakenIsLastHanded(h, info, before, g); }
      hide Next, After, Enabled, Taken;
    }
  }

  /** In every run a call that succeeds with a string returns the text of the one its own downcall handed
      over, never another call's. */
  lemma TextsAreOwn(h: nat, info: BuildInfo, steps: seq<Step>, g: Gid)
    requires h != 0 && Run(Init(h, info), steps).Some?
    requires var s := Run(Init(h, info), steps).value;
             g in s.gs && At(s, g).Done? && At(s, g).r.Value? && GivesText(s.gs[g])
    ensures LastHanded(steps, g).Some? && At(Run(Init(h, info), steps).value, g).r.text == Text(LastHanded(steps, g).value)
  {
    InvRun(h, info, steps);
    TakenIsLastHanded(h, info, steps, g);
    hide Run, HeapInv, LifeInv, LockInv, ThreadInv, LateInv, GivesText;
    assert PointInv(Run(Init(h, info), steps).value, Run(Init(h, info), steps).value.gs[g]);
  }

  /** In every run each owned pointer is copied as the text before its first NUL and freed at most
      once, by its one holder; when no operation holds one, all have been freed exactly once. */
  lemma StringsBalanced(h: nat, info: BuildInfo, steps: seq<Step>)
    requires h != 0 && Run(Init(h, info), steps).Some?
    ensures var s := Run(Init(h, info), steps).value;
            && (forall p :: 0 <= p < s.handed ==> p in s.frees && s.frees[p] == if p in s.heap then 0 else 1)
            && (forall g :: g in s.gs && Held(At(s, g)).Some? ==> At(s, g).p in s.heap)
            && (forall g :: g in s.gs && (At(s, g).ErrorCopied? || At(s, g).TextCopied?) ==> At(s, g).text == Text(s.heap[At(s, g).p]))
            && ((forall g :: g in s.gs ==> Held(At(s, g)).None?) ==>
                  s.heap == map[] && forall p :: 0 <= p < s.handed ==> s.frees[p] == 1)
  {
    InvRun(h, info, steps);
    hide Run, LifeInv, LockInv, ThreadInv, PointInv;
    var s := Run(Init(h, info), steps).value;
    forall g | g in s.gs ensures HeldInv(s, At(s, g)) {}
    if forall g :: g in s.gs ==> Held(At(s, g)).None? {
      if p :| p in s.heap {
        assert false;
      }
    }
  }

  /** In every run an operation that began when closed was set never gets inside the library, and if
      it finishes it was cancelled or found the engine closed; Close itself returns without stopping
      anything again. */
  lemma ClosedStaysClosed(h: nat, info: BuildInfo, steps: seq<Step>, g: Gid)
    requires h != 0 && Run(Init(h, info), steps).Some?
    requires g in Run(Init(h, info), steps).value.gs && Run(Init(h, info), steps).value.gs[g].late
    ensures var s := Run(Init(h, info), steps).value;
            && s.closed && !Trusted(At(s, g))
            && !At(s, g).Marked? && !At(s, g).StopReady? && !At(s, g).Stopping? && !At(s, g).Unloading?
            && (At(s, g).Done? && !s.gs[g].op.Close? ==>
                  At(s, g).r.Closed? || (At(s, g).r.Zero? && s.gs[g].op.Abi?) || At(s, g).r.Cancelled?)
  {
    InvRun(h, info, steps);
    hide Run, HeapInv, LifeInv, LockInv, ThreadInv;
    assert PointInv(Run(Init(h, info), steps).value, Run(Init(h, info), steps).value.gs[g]);
  }

  /** In every run, even with a Close between ServeAdmin's two lock regions, the serve downcall is
      made only with options the loaded engine advertises. */
  lemma ServeIsGated(h: nat, info: BuildInfo, steps: seq<Step>, g: Gid)
    requires h != 0 && Run(Init(h, info), steps).Some? && Enabled(Run(Init(h, info), steps).value, CallBegin(g))
    ensures var s := Run(Init(h, info), steps).value;
            s.gs[g].op.ServeAdmin? ==>
              && (info.serveOptions.Some? ==> forall k :: k in s.gs[g].op.keys ==> k in info.serveOptions.value)
              && (info.serveOptions.None? ==> s.gs[g].op.keys <= {"host", "port", "apiKey", "metricsPort", "configFile", "config", "allowInjection"})
  {
    InvRun(h, info, steps);
    LiveIsStarted(h, info, steps);
    hide Run, HeapInv, LifeInv, LockInv, ThreadInv, LateInv;
    assert PointInv(Run(Init(h, info), steps).value, Run(Init(h, info), steps).value.gs[g]);
  }
}
