/** The verified install of riftfetch: any number of fetches to one destination, readers of it, read
    and write errors and crashes, as steps on a small file system. Rename is atomic, temporary names
    are never reused and removing one's own temporary file works. */
module Install {
  import opened Json

  type Byte = b: nat | b < 256
  type Bytes = seq<Byte>
  type Ino = nat

  /** Whether the hex SHA-256 digest of the bytes is the given one, ignoring letter case. */
  type Digest = (Bytes, string) -> bool

  datatype Name = Dest | Temp(id: nat)

  datatype Result = Cached(content: Bytes) | Installed(ino: Ino) | Failed

  datatype PC =
    | Deciding                                        // opening the existing file, unless forced
    | HashingOld(ino: Ino, hashed: Bytes)             // sha256File
    | Requesting                                      // up to the temporary file
    | Copying(tmp: nat, ino: Ino, hashed: Bytes, pending: Bytes) // pending is written but not hashed
    | Closed(tmp: nat, ino: Ino, hashed: Bytes)       // file closed, digest not yet compared
    | Verified(tmp: nat, ino: Ino)                    // compared; chmod and rename are next
    | Cleaning(tmp: nat, result: Result)              // the deferred close and remove
    | Done(result: Result)
    | Crashed

  /** One call of Fetch: the digest its manifest asks for and the body its server would send. */
  datatype Fetcher = Fetcher(want: string, force: bool, body: Bytes, pc: PC)

  /** One rename onto the destination: the fetch that did it, and the body and digest it was given. */
  datatype Install = Install(fetch: nat, body: Bytes, want: string)

  datatype State = State(
    inodes: map<Ino, Bytes>,     // file contents; an open file outlives its name
    dir: map<Name, Ino>,
    owner: map<nat, nat>,        // the fetch that created each temporary name
    made: nat, temps: nat,       // inodes and temporary names created so far
    fetchers: map<nat, Fetcher>,
    readers: map<nat, Ino>,      // the file each reader of the destination has open
    installs: map<Ino, Install>)
  {
    function Content(i: Ino): Bytes { if i in inodes then inodes[i] else [] }
  }

  /** Before any fetch: the destination is missing or holds anything, half-written libraries included. */
  function Init(old': Option<Bytes>): State {
    if old'.None? then State(map[], map[], map[], 1, 0, map[], map[], map[])
    else State(map[0 := old'.value], map[Dest := 0], map[], 1, 0, map[], map[], map[])
  }

  datatype Step =
    | Begin(f: nat, want: string, force: bool, body: Bytes)
    | Skip(f: nat)                     // forced, or the existing file cannot be opened
    | OpenOld(f: nat) | HashOld(f: nat, n: nat) | OldUnreadable(f: nat) | OldHashed(f: nat)
    | NoDownload(f: nat)               // mkdir, request, status or temp file failed
    | CreateTemp(f: nat)
    | WriteChunk(f: nat, n: nat) | HashChunk(f: nat)
    | BreakOff(f: nat, partial: Bytes) // a read or write error, with whatever the last write left
    | CloseFile(f: nat) | CloseFails(f: nat)
    | Compare(f: nat) | InstallFails(f: nat) | Rename(f: nat)
    | Remove(f: nat)
    | Crash(f: nat)
    | OpenDest(r: nat)

  predicate Enabled(s: State, st: Step) {
    if st.OpenDest? then Dest in s.dir
    else if st.Begin? then st.f !in s.fetchers
    else st.f in s.fetchers && Ready(s, st, s.fetchers[st.f])
  }

  predicate Ready(s: State, st: Step, f: Fetcher) {
    match st
    case Skip(_) => f.pc.Deciding?
    case OpenOld(_) => f.pc.Deciding? && !f.force && Dest in s.dir
    case HashOld(_, n) => f.pc.HashingOld? && f.pc.ino in s.inodes && |f.pc.hashed| + n <= |s.inodes[f.pc.ino]|
    case OldUnreadable(_) => f.pc.HashingOld?
    case OldHashed(_) => f.pc.HashingOld? && f.pc.ino in s.inodes && |f.pc.hashed| == |s.inodes[f.pc.ino]|
    case NoDownload(_) => f.pc.Requesting?
    case CreateTemp(_) => f.pc.Requesting?
    case WriteChunk(_, n) => f.pc.Copying? && f.pc.pending == [] && 0 < n && |f.pc.hashed| + n <= |f.body|
    case HashChunk(_) => f.pc.Copying? && f.pc.pending != []
    case BreakOff(_, _) => f.pc.Copying?
    case CloseFile(_) => f.pc.Copying? && f.pc.pending == [] && |f.pc.hashed| == |f.body|
    case CloseFails(_) => f.pc.Copying? && f.pc.pending == [] && |f.pc.hashed| == |f.body|
    case Compare(_) => f.pc.Closed?
    case InstallFails(_) => f.pc.Verified?
    case Rename(_) => f.pc.Verified?
    case Remove(_) => f.pc.Cleaning?
    case Crash(_) => !f.pc.Done? && !f.pc.Crashed?
    case Begin(_, _, _, _) => false
    case OpenDest(_) => false
  }

  /** The next n bytes of the body. */
  function Chunk(f: Fetcher, n: nat): Bytes
    requires f.pc.Copying? && |f.pc.hashed| + n <= |f.body|
  {
    f.body[|f.pc.hashed|..|f.pc.hashed| + n]
  }

  function NextPC(digest: Digest, s: State, st: Step, f: Fetcher): PC
    requires Ready(s, st, f)
  {
    match st
    case Skip(_) => Requesting
    case OpenOld(_) => HashingOld(s.dir[Dest], [])
    case HashOld(_, n) => 
      HashingOld(f.pc.ino, f.pc.hashed + s.inodes[f.pc.ino][|f.pc.hashed|..|f.pc.hashed| + n])
    case OldUnreadable(_) => Requesting
    case OldHashed(_) => if digest(f.pc.hashed, f.want) then Done(Cached(f.pc.hashed)) else Requesting
    case NoDownload(_) => Done(Failed)
    case CreateTemp(_) => Copying(s.temps, s.made, [], [])
    case WriteChunk(_, n) => Copying(f.pc.tmp, f.pc.ino, f.pc.hashed, Chunk(f, n))
    case HashChunk(_) => Copying(f.pc.tmp, f.pc.ino, f.pc.hashed + f.pc.pending, [])
    case BreakOff(_, _) => Cleaning(f.pc.tmp, Failed)
    case CloseFile(_) => Closed(f.pc.tmp, f.pc.ino, f.pc.hashed)
    case CloseFails(_) => Cleaning(f.pc.tmp, Failed)
    case Compare(_) => if digest(f.pc.hashed, f.want) then Verified(f.pc.tmp, f.pc.ino) else Cleaning(f.pc.tmp, Failed)
    case InstallFails(_) => Cleaning(f.pc.tmp, Failed)
    case Rename(_) => Cleaning(f.pc.tmp, Installed(f.pc.ino))
    case Remove(_) => Done(f.pc.result)
    case Crash(_) => Crashed
  }

  function NextInodes(s: State, st: Step): map<Ino, Bytes>
    requires Enabled(s, st)
  {
    match st
    case CreateTemp(_) => s.inodes[s.made := []]
    case WriteChunk(f, n) =>
      var pc := s.fetchers[f].pc;
      s.inodes[pc.ino := s.Content(pc.ino) + Chunk(s.fetchers[f], n)]
    case BreakOff(f, partial) =>
      var pc := s.fetchers[f].pc;
      s.inodes[pc.ino := s.Content(pc.ino) + partial]
    case _ => s.inodes
  }

  function NextDir(s: State, st: Step): map<Name, Ino>
    requires Enabled(s, st)
  {
    match st
    case CreateTemp(_) => s.dir[Temp(s.temps) := s.made]
    case Rename(f) =>
      var pc := s.fetchers[f].pc;
      (s.dir - {Temp(pc.tmp)})[Dest := pc.ino]
    case Remove(f) => s.dir - {Temp(s.fetchers[f].pc.tmp)}
    case _ => s.dir
  }

  function NextFetchers(digest: Digest, s: State, st: Step): map<nat, Fetcher>
    requires Enabled(s, st)
  {
    match st
    case OpenDest(_) => s.fetchers
    case Begin(f, want, force, body) => s.fetchers[f := Fetcher(want, force, body, Deciding)]
    case _ => s.fetchers[st.f := s.fetchers[st.f].(pc := NextPC(digest, s, st, s.fetchers[st.f]))]
  }

  function Next(digest: Digest, s: State, st: Step): State
    requires Enabled(s, st)
  {
    State(
      NextInodes(s, st),
      NextDir(s, st),
      if st.CreateTemp? then s.owner[s.temps := st.f] else s.owner,
      if st.CreateTemp? then s.made + 1 else s.made,
      if st.CreateTemp? then s.temps + 1 else s.temps,
      NextFetchers(digest, s, st),
      if st.OpenDest? then s.readers[st.r := s.dir[Dest]] else s.readers,
      if st.Rename? then s.installs[s.fetchers[st.f].pc.ino := Install(st.f, s.fetchers[st.f].body, s.fetchers[st.f].want)]
      else s.installs)
  }

  function Run(digest: Digest, old': Option<Bytes>, steps: seq<Step>): Option<State> {
    if steps == [] then Some(Init(old'))
    else
      var before := Run(digest, old', steps[..|steps| - 1]);
      if before.Some? && Enabled(before.value, steps[|steps| - 1])
      then Some(Next(digest, before.value, steps[|steps| - 1]))
      else None
  }

  function RunFrom(digest: Digest, s: State, steps: seq<Step>): Option<State>
    decreases |steps|
  {
    if steps == [] then Some(s)
    else if Enabled(s, steps[0]) then RunFrom(digest, Next(digest, s, steps[0]), steps[1..])
    else None
  }

  // ----- invariant -----

  /** A file that is or has been at the destination. */
  predicate Published(s: State, old': Option<Bytes>, i: Ino) {
    i in s.inodes && ((i == 0 && old'.Some?) || i in s.installs)
  }

  /** Fetch f did this install, of its whole body, and the digest of that body is the one its manifest asks for. */
  predicate Verifies(digest: Digest, s: State, i: Ino) {
    i in s.inodes && i in s.installs &&
    var f := s.installs[i].fetch;
    && f in s.fetchers
    && s.installs[i].body == s.fetchers[f].body == s.inodes[i]
    && s.installs[i].want == s.fetchers[f].want
    && digest(s.inodes[i], s.installs[i].want)
  }

  predicate PublishedInv(digest: Digest, old': Option<Bytes>, s: State) {
    && (old'.Some? ==> 0 in s.inodes && s.inodes[0] == old'.value)
    && 0 !in s.installs
    && (forall i <- s.installs :: Verifies(digest, s, i))
    && (Dest in s.dir ==> Published(s, old', s.dir[Dest]))
    && (forall r <- s.readers :: Published(s, old', s.readers[r]))
  }

  predicate NameInv(s: State) {
    && 0 < s.made
    && (forall i <- s.inodes :: i < s.made)
    && (forall n <- s.dir :: s.dir[n] in s.inodes && (n.Temp? ==> n.id in s.owner))
    && (forall t <- s.owner :: t < s.temps)
    && (forall m, n | m in s.dir && n in s.dir && s.dir[m] == s.dir[n] :: m == n)
    && (forall t, u | t in s.owner && u in s.owner && s.owner[t] == s.owner[u] :: t == u)
  }

  predicate Owns(s: State, f: nat, t: nat) { t in s.owner && s.owner[t] == f }

  predicate OwnsNone(s: State, f: nat) { forall t <- s.owner :: s.owner[t] != f }

  predicate InstalledNone(s: State, f: nat) { forall i <- s.installs :: s.installs[i].fetch != f }

  /** f is filling its own unpublished file. */
  predicate Holds(s: State, f: nat, t: nat, i: Ino) {
    && Owns(s, f, t)
    && Temp(t) in s.dir && s.dir[Temp(t)] == i
    && i in s.inodes && i != 0 && i !in s.installs
    && InstalledNone(s, f)
  }

  /** What a result promises. */
  predicate ResultInv(digest: Digest, old': Option<Bytes>, s: State, f: nat, want: string, r: Result) {
    match r
    case Cached(c) => OwnsNone(s, f) && InstalledNone(s, f) && digest(c, want) && exists i <- s.inodes :: Published(s, old', i) && s.inodes[i] == c
    case Installed(i) => i in s.installs && s.installs[i].fetch == f && Dest in s.dir
    case Failed => InstalledNone(s, f)
  }

  predicate FetcherInv(digest: Digest, old': Option<Bytes>, s: State, f: nat, x: Fetcher) {
    match x.pc
    case Deciding => OwnsNone(s, f) && InstalledNone(s, f)
    case HashingOld(i, h) => OwnsNone(s, f) && InstalledNone(s, f) && Published(s, old', i) && h <= s.inodes[i]
    case Requesting => OwnsNone(s, f) && InstalledNone(s, f)
    case Copying(t, i, h, p) => Holds(s, f, t, i) && s.inodes[i] == h + p && h + p <= x.body
    case Closed(t, i, h) => Holds(s, f, t, i) && s.inodes[i] == h == x.body
    case Verified(t, i) => Holds(s, f, t, i) && s.inodes[i] == x.body && digest(x.body, x.want)
    case Cleaning(t, r) => Owns(s, f, t) && !r.Cached? && ResultInv(digest, old', s, f, x.want, r)
    case Done(r) => NoTempOf(s, f) && ResultInv(digest, old', s, f, x.want, r)
    case Crashed => true
  }

  predicate NoTempOf(s: State, f: nat) {
    forall n <- s.dir :: n.Temp? && n.id in s.owner ==> s.owner[n.id] != f
  }

  predicate Inv(digest: Digest, old': Option<Bytes>, s: State) {
    && NameInv(s)
    && PublishedInv(digest, old', s)
    && (forall f <- s.owner.Values :: f in s.fetchers)
    && (forall f <- s.fetchers :: FetcherInv(digest, old', s, f, s.fetchers[f]))
  }

  predicate ActorInv(digest: Digest, old': Option<Bytes>, s: State, st: Step)
    requires Enabled(s, st)
  {
    st.OpenDest? || st.Begin? || FetcherInv(digest, old', s, st.f, s.fetchers[st.f])
  }

  // ----- preservation -----

  /** Whatever step is next, a published file stays published and keeps its bytes. */
  lemma PublishedStays(digest: Digest, old': Option<Bytes>, s: State, st: Step, i: Ino)
    requires Enabled(s, st) && ActorInv(digest, old', s, st) && NameInv(s)
    requires Published(s, old', i)
    ensures Published(Next(digest, s, st), old', i)
    ensures i in Next(digest, s, st).inodes && Next(digest, s, st).inodes[i] == s.inodes[i]
  {
    hide NextPC, NextDir, NextFetchers;
  }

  lemma InodesStep(digest: Digest, old': Option<Bytes>, s: State, st: Step)
    requires Enabled(s, st) && ActorInv(digest, old', s, st)
    ensures NextInodes(s, st).Keys == s.inodes.Keys + if st.CreateTemp? then {s.made} else {}
  {
    hide OwnsNone, InstalledNone, Published, ResultInv, NoTempOf;
  }

  lemma CreatedNames(digest: Digest, old': Option<Bytes>, s: State, st: Step)
    requires Enabled(s, st) && ActorInv(digest, old', s, st) && NameInv(s) && st.CreateTemp?
    ensures NameInv(Next(digest, s, st))
  {
    hide NextPC, NextFetchers, Published, ResultInv, NoTempOf, InstalledNone;
  }

  lemma RenamedNames(digest: Digest, old': Option<Bytes>, s: State, st: Step)
    requires Enabled(s, st) && ActorInv(digest, old', s, st) && NameInv(s) && (st.Rename? || st.Remove?)
    ensures NameInv(Next(digest, s, st))
  {
    hide NextPC, NextFetchers, Published, ResultInv, NoTempOf, InstalledNone;
  }

  /** Names change hands only by creating one's own, renaming it away or removing it. */
  lemma NameStep(digest: Digest, old': Option<Bytes>, s: State, st: Step)
    requires Enabled(s, st) && ActorInv(digest, old', s, st) && NameInv(s)
    ensures NameInv(Next(digest, s, st))
  {
    if st.CreateTemp? {
      CreatedNames(digest, old', s, st);
    } else if st.Rename? || st.Remove? {
      RenamedNames(digest, old', s, st);
    } else {
      InodesStep(digest, old', s, st);
      hide NextPC, NextFetchers, NextInodes, ActorInv;
    }
  }

  lemma VerifiesStays(digest: Digest, old': Option<Bytes>, s: State, st: Step, i: Ino)
    requires Enabled(s, st) && ActorInv(digest, old', s, st) && NameInv(s) && Verifies(digest, s, i)
    ensures st.Rename? || Verifies(digest, Next(digest, s, st), i)
    ensures st.Rename? ==> i == s.fetchers[st.f].pc.ino || Verifies(digest, Next(digest, s, st), i)
  {
    hide NextPC, NextDir;
  }

  lemma RenameVerifies(digest: Digest, old': Option<Bytes>, s: State, st: Step)
    requires Enabled(s, st) && ActorInv(digest, old', s, st) && st.Rename?
    ensures Verifies(digest, Next(digest, s, st), s.fetchers[st.f].pc.ino)
    ensures s.fetchers[st.f].pc.ino in Next(digest, s, st).inodes
  {
    hide NextDir;
  }

  lemma InstallsStep(digest: Digest, old': Option<Bytes>, s: State, st: Step)
    requires Enabled(s, st) && ActorInv(digest, old', s, st) && NameInv(s) && PublishedInv(digest, old', s)
    ensures forall i <- Next(digest, s, st).installs :: Verifies(digest, Next(digest, s, st), i)
  {
    var s' := Next(digest, s, st);
    forall i | i in s'.installs ensures Verifies(digest, s', i) {
      hide NextPC, NextDir, NextInodes, NextFetchers, Verifies;
      if st.Rename? && i == s.fetchers[st.f].pc.ino {
        RenameVerifies(digest, old', s, st);
      } else {
        VerifiesStays(digest, old', s, st, i);
      }
    }
  }

  /** The destination can only come to hold what is published, and readers only open the destination. */
  lemma OpenFilesStep(digest: Digest, old': Option<Bytes>, s: State, st: Step)
    requires Enabled(s, st) && ActorInv(digest, old', s, st) && NameInv(s) && PublishedInv(digest, old', s)
    ensures var s' := Next(digest, s, st);
      && (Dest in s'.dir ==> Published(s', old', s'.dir[Dest]))
      && (forall r <- s'.readers :: Published(s', old', s'.readers[r]))
  {
    hide NextPC, NextFetchers, NextInodes, Verifies;
    var s' := Next(digest, s, st);
    if Dest in s.dir {
      PublishedStays(digest, old', s, st, s.dir[Dest]);
    }
    if st.Rename? {
      assert s'.dir[Dest] in s'.inodes by { RenameVerifies(digest, old', s, st); }
    }
    forall r | r in s'.readers ensures Published(s', old', s'.readers[r]) {
      hide Published, NextDir, FetcherInv, ActorInv;
      if r in s.readers {
        PublishedStays(digest, old', s, st, s.readers[r]);
      }
    }
  }

  lemma PublishedStep(digest: Digest, old': Option<Bytes>, s: State, st: Step)
    requires Enabled(s, st) && ActorInv(digest, old', s, st) && NameInv(s) && PublishedInv(digest, old', s)
    ensures PublishedInv(digest, old', Next(digest, s, st))
  {
    hide NextPC, NextFetchers, NextInodes, NextDir, Verifies;
    InstallsStep(digest, old', s, st);
    OpenFilesStep(digest, old', s, st);
    if old'.Some? {
      PublishedStays(digest, old', s, st, 0);
    }
  }

  /** Only a fetch's own steps touch its temporary file, its record of names and its installs. */
  lemma HoldsStays(digest: Digest, old': Option<Bytes>, s: State, st: Step, g: nat, t: nat, i: Ino)
    requires Enabled(s, st) && ActorInv(digest, old', s, st) && NameInv(s) && (st.OpenDest? || st.f != g)
    requires Holds(s, g, t, i)
    ensures Holds(Next(digest, s, st), g, t, i)
    ensures Next(digest, s, st).inodes[i] == s.inodes[i]
  {
    hide NextPC, NextFetchers, ResultInv;
  }

  lemma RecordStays(digest: Digest, old': Option<Bytes>, s: State, st: Step, g: nat)
    requires Enabled(s, st) && NameInv(s) && (st.OpenDest? || st.f != g)
    ensures OwnsNone(s, g) ==> OwnsNone(Next(digest, s, st), g)
    ensures InstalledNone(s, g) ==> InstalledNone(Next(digest, s, st), g)
    ensures NoTempOf(s, g) ==> NoTempOf(Next(digest, s, st), g)
    ensures forall t :: Owns(s, g, t) ==> Owns(Next(digest, s, st), g, t)
  {
    hide NextPC, NextFetchers, NextInodes;
  }

  lemma ResultStays(digest: Digest, old': Option<Bytes>, s: State, st: Step, g: nat, want: string, r: Result)
    requires Enabled(s, st) && ActorInv(digest, old', s, st) && NameInv(s) && (st.OpenDest? || st.f != g)
    requires ResultInv(digest, old', s, g, want, r)
    ensures ResultInv(digest, old', Next(digest, s, st), g, want, r)
  {
    hide NextPC, NextFetchers, NextInodes, Published, OwnsNone, InstalledNone;
    RecordStays(digest, old', s, st, g);
    if r.Cached? {
      var i :| i in s.inodes && Published(s, old', i) && s.inodes[i] == r.content;
      PublishedStays(digest, old', s, st, i);
    }
  }

  lemma BystanderStep(digest: Digest, old': Option<Bytes>, s: State, st: Step, g: nat)
    requires Enabled(s, st) && ActorInv(digest, old', s, st) && NameInv(s)
    requires g in s.fetchers && FetcherInv(digest, old', s, g, s.fetchers[g])
    requires st.OpenDest? || st.f != g
    ensures FetcherInv(digest, old', Next(digest, s, st), g, s.fetchers[g])
  {
    hide Next, Enabled, ActorInv, NameInv, Holds, OwnsNone, InstalledNone, NoTempOf, Published, ResultInv;
    RecordStays(digest, old', s, st, g);
    match s.fetchers[g].pc
    case HashingOld(i, _) => PublishedStays(digest, old', s, st, i);
    case Copying(t, i, _, _) => HoldsStays(digest, old', s, st, g, t, i);
    case Closed(t, i, _) => HoldsStays(digest, old', s, st, g, t, i);
    case Verified(t, i) => HoldsStays(digest, old', s, st, g, t, i);
    case Cleaning(_, r) => ResultStays(digest, old', s, st, g, s.fetchers[g].want, r);
    case Done(r) => ResultStays(digest, old', s, st, g, s.fetchers[g].want, r);
    case _ =>
  }

  predicate BeforeDownload(s: State, st: Step)
    requires Enabled(s, st)
  {
    st.Begin? || st.Skip? || st.OpenOld? || st.HashOld? || st.OldUnreadable? || st.OldHashed? || st.NoDownload?
  }

  /** Up to the temporary file nothing is written. */
  lemma NothingWritten(digest: Digest, s: State, st: Step)
    requires Enabled(s, st) && BeforeDownload(s, st)
    ensures var s' := Next(digest, s, st);
      s'.inodes == s.inodes && s'.dir == s.dir && s'.owner == s.owner && s'.installs == s.installs
    ensures Next(digest, s, st).fetchers == NextFetchers(digest, s, st)
  {
    hide NextFetchers;
  }

  lemma DecidingStep(digest: Digest, old': Option<Bytes>, s: State, st: Step)
    requires Enabled(s, st) && ActorInv(digest, old', s, st) && PublishedInv(digest, old', s) && BeforeDownload(s, st)
    requires st.Begin? ==> OwnsNone(s, st.f) && InstalledNone(s, st.f)
    ensures var s' := Next(digest, s, st); st.f in s'.fetchers && FetcherInv(digest, old', s', st.f, s'.fetchers[st.f])
  {
    NothingWritten(digest, s, st);
    hide NameInv, Verifies, NextInodes, NextDir, Next;
    if st.OldHashed? {
      var pc := s.fetchers[st.f].pc;
      assert pc.hashed == s.inodes[pc.ino];
    }
    if st.NoDownload? || st.OldHashed? {
      forall n | n in s.dir && n.Temp? && n.id in s.owner ensures s.owner[n.id] != st.f {
        assert OwnsNone(s, st.f);
      }
    }
  }

  lemma CreateStep(digest: Digest, old': Option<Bytes>, s: State, st: Step)
    requires Enabled(s, st) && ActorInv(digest, old', s, st) && NameInv(s) && PublishedInv(digest, old', s) && st.CreateTemp?
    ensures var s' := Next(digest, s, st); FetcherInv(digest, old', s', st.f, s'.fetchers[st.f])
  {
    forall i | i in s.installs ensures i < s.made {
      assert Verifies(digest, s, i);
    }
  }

  /** File and hasher are fed the same chunks, so they agree whenever a chunk is complete. */
  lemma CopyStep(digest: Digest, old': Option<Bytes>, s: State, st: Step)
    requires Enabled(s, st) && ActorInv(digest, old', s, st) && (st.WriteChunk? || st.HashChunk?)
    ensures var s' := Next(digest, s, st); FetcherInv(digest, old', s', st.f, s'.fetchers[st.f])
  {
    var x := s.fetchers[st.f];
    if st.WriteChunk? {
      assert x.pc.hashed + Chunk(x, st.n) == x.body[..|x.pc.hashed| + st.n];
      assert s.inodes[x.pc.ino] == x.pc.hashed;
    } else {
      assert x.pc.hashed + x.pc.pending + [] == x.pc.hashed + x.pc.pending;
    }
  }

  lemma CheckStep(digest: Digest, old': Option<Bytes>, s: State, st: Step)
    requires Enabled(s, st) && ActorInv(digest, old', s, st)
    requires st.CloseFile? || st.Compare? || st.CloseFails? || st.InstallFails? || st.BreakOff? || st.Crash?
    ensures var s' := Next(digest, s, st); FetcherInv(digest, old', s', st.f, s'.fetchers[st.f])
  {
    if st.CloseFile? {
      var pc := s.fetchers[st.f].pc;
      assert pc.hashed + pc.pending == pc.hashed;
    }
  }

  lemma RenameStep(digest: Digest, old': Option<Bytes>, s: State, st: Step)
    requires Enabled(s, st) && ActorInv(digest, old', s, st) && st.Rename?
    ensures var s' := Next(digest, s, st); FetcherInv(digest, old', s', st.f, s'.fetchers[st.f])
  {
  }

  /** The deferred remove takes away the one temporary name the fetch can still have. */
  lemma RemoveStep(digest: Digest, old': Option<Bytes>, s: State, st: Step)
    requires Enabled(s, st) && ActorInv(digest, old', s, st) && NameInv(s) && st.Remove?
    ensures var s' := Next(digest, s, st); FetcherInv(digest, old', s', st.f, s'.fetchers[st.f])
  {
    hide Published;
  }

  lemma ActorStep(digest: Digest, old': Option<Bytes>, s: State, st: Step)
    requires Enabled(s, st) && Inv(digest, old', s)
    requires !st.OpenDest?
    ensures var s' := Next(digest, s, st); FetcherInv(digest, old', s', st.f, s'.fetchers[st.f])
  {
    hide Next, NextPC;
    if st.CreateTemp? {
      CreateStep(digest, old', s, st);
    } else if st.WriteChunk? || st.HashChunk? {
      CopyStep(digest, old', s, st);
    } else if st.CloseFile? || st.Compare? || st.CloseFails? || st.InstallFails? || st.BreakOff? || st.Crash? {
      CheckStep(digest, old', s, st);
    } else if st.Rename? {
      RenameStep(digest, old', s, st);
    } else if st.Remove? {
      RemoveStep(digest, old', s, st);
    } else {
      if st.Begin? {
        forall i | i in s.installs ensures s.installs[i].fetch != st.f {
          assert Verifies(digest, s, i);
        }
      }
      DecidingStep(digest, old', s, st);
    }
  }

  lemma InvStep(digest: Digest, old': Option<Bytes>, s: State, st: Step)
    requires Enabled(s, st) && Inv(digest, old', s)
    ensures Inv(digest, old', Next(digest, s, st))
  {
    hide NextPC, NextInodes, NextDir, NameInv, PublishedInv, FetcherInv;
    NameStep(digest, old', s, st);
    PublishedStep(digest, old', s, st);
    var s' := Next(digest, s, st);
    forall f | f in s'.fetchers ensures FetcherInv(digest, old', s', f, s'.fetchers[f]) {
      if st.OpenDest? || st.f != f {
        BystanderStep(digest, old', s, st, f);
      } else {
        ActorStep(digest, old', s, st);
      }
    }
    forall t | t in s'.owner ensures s'.owner[t] in s'.fetchers {
      if t in s.owner {
        assert s.owner[t] in s.owner.Values;
      }
    }
  }

  lemma {:induction false} InvRun(digest: Digest, old': Option<Bytes>, steps: seq<Step>)
    requires Run(digest, old', steps).Some?
    ensures Inv(digest, old', Run(digest, old', steps).value)
  {
    if steps != [] {
      InvRun(digest, old', steps[..|steps| - 1]);
      InvStep(digest, old', Run(digest, old', steps[..|steps| - 1]).value, steps[|steps| - 1]);
    }
  }

  // ----- what readers and callers can rely on -----

  /** The file under the destination name, or one a reader opened there, possibly before a later rename. */
  predicate Visible(s: State, i: Ino) {
    (Dest in s.dir && s.dir[Dest] == i) || exists r <- s.readers :: s.readers[r] == i
  }

  /** The bytes are all of what some fetch was sent, and they have the digest its manifest asked for. */
  predicate WholeVerifiedBody(digest: Digest, s: State, bytes: Bytes) {
    exists f <- s.fetchers :: bytes == s.fetchers[f].body && digest(bytes, s.fetchers[f].want)
  }

  lemma PublishedMeans(digest: Digest, old': Option<Bytes>, s: State, i: Ino)
    requires PublishedInv(digest, old', s) && Published(s, old', i)
    ensures old' == Some(s.inodes[i]) || WholeVerifiedBody(digest, s, s.inodes[i])
  {
    if i in s.installs {
      assert Verifies(digest, s, i);
    }
  }

  /** Whatever the fetches, failures and crashes, the destination and every reader of it have the initial
      content or one complete body that matched its digest. */
  lemma ReadersSeeWholeFiles(digest: Digest, old': Option<Bytes>, steps: seq<Step>, i: Ino)
    requires Run(digest, old', steps).Some? && Visible(Run(digest, old', steps).value, i)
    ensures var s := Run(digest, old', steps).value;
      i in s.inodes && (old' == Some(s.inodes[i]) || WholeVerifiedBody(digest, s, s.inodes[i]))
  {
    hide Run;
    InvRun(digest, old', steps);
    PublishedMeans(digest, old', Run(digest, old', steps).value, i);
  }

  lemma {:induction false} PublishedForGood(digest: Digest, old': Option<Bytes>, steps: seq<Step>, more: seq<Step>, i: Ino)
    requires Run(digest, old', steps + more).Some?
    ensures Run(digest, old', steps).Some?
    ensures var s, s' := Run(digest, old', steps).value, Run(digest, old', steps + more).value;
      Published(s, old', i) ==> Published(s', old', i) && s'.inodes[i] == s.inodes[i]
    decreases |more|
  {
    if more == [] {
      assert steps + more == steps;
    } else {
      var all := steps + more;
      assert all[..|all| - 1] == steps + more[..|more| - 1];
      PublishedForGood(digest, old', steps, more[..|more| - 1], i);
      var s := Run(digest, old', all[..|all| - 1]).value;
      InvRun(digest, old', all[..|all| - 1]);
      if Published(s, old', i) {
        hide Next, Published, NameInv, PublishedInv, FetcherInv;
        PublishedStays(digest, old', s, all[|all| - 1], i);
      }
    }
  }

  /** A file once visible never changes afterwards, so no reader ever sees a library half written. */
  lemma VisibleBytesNeverChange(digest: Digest, old': Option<Bytes>, steps: seq<Step>, more: seq<Step>, i: Ino)
    requires Run(digest, old', steps + more).Some?
    ensures Run(digest, old', steps).Some?
    ensures var s, s' := Run(digest, old', steps).value, Run(digest, old', steps + more).value;
      Visible(s, i) ==> i in s.inodes && i in s'.inodes && s'.inodes[i] == s.inodes[i]
  {
    hide Run, NameInv, FetcherInv, Verifies;
    PublishedForGood(digest, old', steps, more, i);
    InvRun(digest, old', steps);
  }

  /** The rename puts the whole verified body of its own fetch under the destination name, and no other step
      changes what is there. */
  lemma OnlyRenameInstalls(digest: Digest, old': Option<Bytes>, steps: seq<Step>, st: Step)
    requires Run(digest, old', steps).Some? && Enabled(Run(digest, old', steps).value, st)
    ensures var s := Run(digest, old', steps).value; var s' := Next(digest, s, st);
      if st.Rename? then
        && Dest in s'.dir && s'.dir[Dest] in s'.inodes
        && s'.inodes[s'.dir[Dest]] == s'.fetchers[st.f].body
        && digest(s'.fetchers[st.f].body, s'.fetchers[st.f].want)
      else
        && (Dest in s.dir <==> Dest in s'.dir)
        && (Dest in s.dir ==> s'.dir[Dest] == s.dir[Dest])
  {
    hide Run;
    InvRun(digest, old', steps);
  }

  lemma {:induction false} RunFromConcat(digest: Digest, s: State, a: seq<Step>, b: seq<Step>)
    requires RunFrom(digest, s, a).Some?
    ensures RunFrom(digest, s, a + b) == RunFrom(digest, RunFrom(digest, s, a).value, b)
    decreases |a|
  {
    if a == [] {
      assert a + b == b;
    } else {
      assert (a + b)[1..] == a[1..] + b;
      RunFromConcat(digest, Next(digest, s, a[0]), a[1..], b);
    }
  }

  function Sum(sizes: seq<nat>): nat { if sizes == [] then 0 else sizes[0] + Sum(sizes[1..]) }

  /** io.Copy into the file and the hasher, one pair of writes a chunk. */
  function Copies(f: nat, sizes: seq<nat>): seq<Step> {
    if sizes == [] then [] else [WriteChunk(f, sizes[0]), HashChunk(f)] + Copies(f, sizes[1..])
  }

  predicate BetweenChunks(s: State, f: nat) {
    f in s.fetchers && s.fetchers[f].pc.Copying? &&
    var pc := s.fetchers[f].pc;
    pc.pending == [] && pc.hashed <= s.fetchers[f].body && pc.ino in s.inodes && s.inodes[pc.ino] == pc.hashed
  }

  /** The state once file and hasher have the first n bytes. */
  function CopiedTo(s: State, f: nat, n: nat): (s': State)
    requires BetweenChunks(s, f) && n <= |s.fetchers[f].body|
    ensures BetweenChunks(s', f) && s'.fetchers[f].body == s.fetchers[f].body && |s'.fetchers[f].pc.hashed| == n
  {
    var x := s.fetchers[f];
    var h := x.body[..n];
    s.(inodes := s.inodes[x.pc.ino := h], fetchers := s.fetchers[f := x.(pc := Copying(x.pc.tmp, x.pc.ino, h, []))])
  }

  lemma CopiedToTwice(s: State, f: nat, m: nat, n: nat)
    requires BetweenChunks(s, f) && m <= |s.fetchers[f].body| && n <= |s.fetchers[f].body|
    ensures CopiedTo(CopiedTo(s, f, m), f, n) == CopiedTo(s, f, n)
    ensures CopiedTo(s, f, |s.fetchers[f].pc.hashed|) == s
  {
    var x := s.fetchers[f];
    assert x.body[..|x.pc.hashed|] == x.pc.hashed;
    assert s.inodes[x.pc.ino := x.pc.hashed] == s.inodes;
    assert s.fetchers[f := x] == s.fetchers;
  }

  /** Both writers of io.Copy have been given the chunk. */
  lemma ChunkWritten(digest: Digest, s: State, f: nat, n: nat)
    requires BetweenChunks(s, f) && 0 < n && |s.fetchers[f].pc.hashed| + n <= |s.fetchers[f].body|
    ensures Enabled(s, WriteChunk(f, n))
    ensures var x, h := s.fetchers[f], s.fetchers[f].body[..|s.fetchers[f].pc.hashed| + n];
            var s1 := Next(digest, s, WriteChunk(f, n));
            && Enabled(s1, HashChunk(f))
            && Next(digest, s1, HashChunk(f)).inodes == s.inodes[x.pc.ino := h]
            && Next(digest, s1, HashChunk(f)).fetchers == s.fetchers[f := x.(pc := Copying(x.pc.tmp, x.pc.ino, h, []))]
  {
    var x := s.fetchers[f];
    assert x.pc.hashed + Chunk(x, n) == x.body[..|x.pc.hashed| + n];
  }

  lemma ChunkCopied(digest: Digest, s: State, f: nat, n: nat)
    requires BetweenChunks(s, f) && 0 < n && |s.fetchers[f].pc.hashed| + n <= |s.fetchers[f].body|
    ensures RunFrom(digest, s, [WriteChunk(f, n), HashChunk(f)]) == Some(CopiedTo(s, f, |s.fetchers[f].pc.hashed| + n))
  {
    ChunkWritten(digest, s, f, n);
    var s1 := Next(digest, s, WriteChunk(f, n));
    hide NextPC, NextInodes, NextFetchers, Ready;
    assert [WriteChunk(f, n), HashChunk(f)][1..] == [HashChunk(f)];
    assert RunFrom(digest, s1, [HashChunk(f)]) == Some(Next(digest, s1, HashChunk(f)));
  }

  /** However the body is cut into chunks, file and hasher end up with all of it. */
  lemma {:induction false} BodyCopied(digest: Digest, s: State, f: nat, sizes: seq<nat>)
    requires BetweenChunks(s, f) && |s.fetchers[f].pc.hashed| + Sum(sizes) == |s.fetchers[f].body|
    requires forall k | 0 <= k < |sizes| :: 0 < sizes[k]
    ensures RunFrom(digest, s, Copies(f, sizes)) == Some(CopiedTo(s, f, |s.fetchers[f].body|))
    decreases |sizes|
  {
    hide Next, Enabled, CopiedTo;
    var h, n := |s.fetchers[f].pc.hashed|, |s.fetchers[f].body|;
    if sizes == [] {
      CopiedToTwice(s, f, h, n);
    } else {
      hide RunFrom;
      ChunkCopied(digest, s, f, sizes[0]);
      BodyCopied(digest, CopiedTo(s, f, h + sizes[0]), f, sizes[1..]);
      RunFromConcat(digest, s, [WriteChunk(f, sizes[0]), HashChunk(f)], Copies(f, sizes[1..]));
      CopiedToTwice(s, f, h + sizes[0], n);
    }
  }

  /** The steps of a download from the temporary file on. */
  function Download(f: nat, sizes: seq<nat>): seq<Step> {
    [CreateTemp(f)] + (Copies(f, sizes) + [CloseFile(f), Compare(f), Rename(f), Remove(f)])
  }

  /** Left alone, a fetch whose body matches installs it and reports so, however the body is cut into chunks. */
  lemma UndisturbedFetchInstalls(digest: Digest, s: State, f: nat, sizes: seq<nat>)
    requires f in s.fetchers && s.fetchers[f].pc.Requesting? && digest(s.fetchers[f].body, s.fetchers[f].want)
    requires Sum(sizes) == |s.fetchers[f].body| && forall k | 0 <= k < |sizes| :: 0 < sizes[k]
    ensures var s' := RunFrom(digest, s, Download(f, sizes));
      && s'.Some? && Dest in s'.value.dir && s'.value.dir[Dest] == s.made
      && s.made in s'.value.inodes && s'.value.inodes[s.made] == s.fetchers[f].body
      && f in s'.value.fetchers && s'.value.fetchers[f].pc == Done(Installed(s.made))
  {
    var s1 := Next(digest, s, CreateTemp(f));
    BodyCopied(digest, s1, f, sizes);
    var s2 := CopiedTo(s1, f, |s.fetchers[f].body|);
    Finish(digest, s2, f);
    hide Next, Enabled;
    var last := [CloseFile(f), Compare(f), Rename(f), Remove(f)];
    RunFromConcat(digest, s1, Copies(f, sizes), last);
    assert Download(f, sizes)[1..] == Copies(f, sizes) + last;
  }

  lemma Finish(digest: Digest, s: State, f: nat)
    requires f in s.fetchers && s.fetchers[f].pc.Copying? && digest(s.fetchers[f].body, s.fetchers[f].want)
    requires s.fetchers[f].pc.hashed == s.fetchers[f].body && s.fetchers[f].pc.pending == []
    ensures var i := s.fetchers[f].pc.ino;
      var s' := RunFrom(digest, s, [CloseFile(f), Compare(f), Rename(f), Remove(f)]);
      && s'.Some? && Dest in s'.value.dir && s'.value.dir[Dest] == i && s'.value.inodes == s.inodes
      && f in s'.value.fetchers && s'.value.fetchers[f].pc == Done(Installed(i))
  {
    var s1 := Next(digest, s, CloseFile(f));
    var s2 := Next(digest, s1, Compare(f));
    var s3 := Next(digest, s2, Rename(f));
    var s4 := Next(digest, s3, Remove(f));
    assert RunFrom(digest, s3, [Remove(f)]) == Some(s4);
    assert [Rename(f), Remove(f)][1..] == [Remove(f)];
    assert RunFrom(digest, s2, [Rename(f), Remove(f)]) == Some(s4);
    assert [Compare(f), Rename(f), Remove(f)][1..] == [Rename(f), Remove(f)];
    assert RunFrom(digest, s1, [Compare(f), Rename(f), Remove(f)]) == Some(s4);
    assert [CloseFile(f), Compare(f), Rename(f), Remove(f)][1..] == [Compare(f), Rename(f), Remove(f)];
  }

  // ----- before the download -----

  /** s with fetch f added or moved to this point. */
  function Moved(s: State, f: nat, x: Fetcher): State { s.(fetchers := s.fetchers[f := x]) }

  /** sha256File reading in pieces of the given sizes. */
  function Hashes(f: nat, sizes: seq<nat>): seq<Step> {
    if sizes == [] then [] else [HashOld(f, sizes[0])] + Hashes(f, sizes[1..])
  }

  lemma MovedTwice(s: State, f: nat, x: Fetcher, y: Fetcher)
    ensures Moved(Moved(s, f, x), f, y) == Moved(s, f, y)
    ensures f in s.fetchers && s.fetchers[f] == x ==> Moved(s, f, x) == s
  {
    assert s.fetchers[f := x][f := y] == s.fetchers[f := y];
    assert f in s.fetchers && s.fetchers[f] == x ==> s.fetchers[f := x] == s.fetchers;
  }

  /** A step before the download moves its fetch and does nothing else. */
  lemma OnlyMoves(digest: Digest, s: State, st: Step)
    requires Enabled(s, st) && BeforeDownload(s, st)
    ensures Next(digest, s, st) ==
            Moved(s, st.f, if st.Begin? then Fetcher(st.want, st.force, st.body, Deciding)
                           else s.fetchers[st.f].(pc := NextPC(digest, s, st, s.fetchers[st.f])))
  {
    hide NextPC, Ready;
  }

  lemma PieceHashed(digest: Digest, s: State, f: nat, n: nat)
    requires f in s.fetchers && s.fetchers[f].pc.HashingOld?
    requires var pc := s.fetchers[f].pc; pc.ino in s.inodes && pc.hashed <= s.inodes[pc.ino] && |pc.hashed| + n <= |s.inodes[pc.ino]|
    ensures Enabled(s, HashOld(f, n))
    ensures var x := s.fetchers[f];
            Next(digest, s, HashOld(f, n)) == Moved(s, f, x.(pc := HashingOld(x.pc.ino, s.inodes[x.pc.ino][..|x.pc.hashed| + n])))
  {
    var pc := s.fetchers[f].pc;
    OnlyMoves(digest, s, HashOld(f, n));
    assert pc.hashed + s.inodes[pc.ino][|pc.hashed|..|pc.hashed| + n] == s.inodes[pc.ino][..|pc.hashed| + n];
  }

  /** However the existing file is cut into pieces, its bytes are hashed in order. */
  lemma {:induction false} OldHashedInOrder(digest: Digest, s: State, f: nat, sizes: seq<nat>)
    requires f in s.fetchers && s.fetchers[f].pc.HashingOld?
    requires var pc := s.fetchers[f].pc; pc.ino in s.inodes && pc.hashed <= s.inodes[pc.ino] && |pc.hashed| + Sum(sizes) <= |s.inodes[pc.ino]|
    ensures var x := s.fetchers[f];
            RunFrom(digest, s, Hashes(f, sizes)) ==
            Some(Moved(s, f, x.(pc := HashingOld(x.pc.ino, s.inodes[x.pc.ino][..|x.pc.hashed| + Sum(sizes)]))))
    decreases |sizes|
  {
    hide Next, Enabled;
    var x := s.fetchers[f];
    var i, h := x.pc.ino, |x.pc.hashed|;
    if sizes == [] {
      assert s.inodes[i][..h] == x.pc.hashed;
      MovedTwice(s, f, x, x);
    } else {
      PieceHashed(digest, s, f, sizes[0]);
      var next := Moved(s, f, x.(pc := HashingOld(i, s.inodes[i][..h + sizes[0]])));
      OldHashedInOrder(digest, next, f, sizes[1..]);
      MovedTwice(s, f, next.fetchers[f], x.(pc := HashingOld(i, s.inodes[i][..h + Sum(sizes)])));
      hide Moved;
      assert Hashes(f, sizes)[1..] == Hashes(f, sizes[1..]);
    }
  }

  /** A call that opens the existing file and reads it in the given pieces. */
  function OpensOld(f: nat, want: string, body: Bytes, sizes: seq<nat>): seq<Step> {
    [Begin(f, want, false, body), OpenOld(f)] + Hashes(f, sizes)
  }

  lemma OldOpened(digest: Digest, s: State, f: nat, want: string, body: Bytes)
    requires f !in s.fetchers && Dest in s.dir
    ensures RunFrom(digest, s, [Begin(f, want, false, body), OpenOld(f)]) ==
            Some(Moved(s, f, Fetcher(want, false, body, HashingOld(s.dir[Dest], []))))
  {
    var begin, open := Begin(f, want, false, body), OpenOld(f);
    OnlyMoves(digest, s, begin);
    var s1 := Moved(s, f, Fetcher(want, false, body, Deciding));
    OnlyMoves(digest, s1, open);
    MovedTwice(s, f, s1.fetchers[f], Fetcher(want, false, body, HashingOld(s.dir[Dest], [])));
    assert RunFrom(digest, s1, [open]) == RunFrom(digest, Next(digest, s1, open), []);
    assert [begin, open][1..] == [open];
  }

  lemma OldRead(digest: Digest, s: State, f: nat, want: string, body: Bytes, sizes: seq<nat>)
    requires f !in s.fetchers && Dest in s.dir && s.dir[Dest] in s.inodes && Sum(sizes) <= |s.inodes[s.dir[Dest]]|
    ensures RunFrom(digest, s, OpensOld(f, want, body, sizes)) ==
            Some(Moved(s, f, Fetcher(want, false, body, HashingOld(s.dir[Dest], s.inodes[s.dir[Dest]][..Sum(sizes)]))))
  {
    var i := s.dir[Dest];
    OldOpened(digest, s, f, want, body);
    var s2 := Moved(s, f, Fetcher(want, false, body, HashingOld(i, [])));
    OldHashedInOrder(digest, s2, f, sizes);
    MovedTwice(s, f, s2.fetchers[f], Fetcher(want, false, body, HashingOld(i, s.inodes[i][..Sum(sizes)])));
    RunFromConcat(digest, s, [Begin(f, want, false, body), OpenOld(f)], Hashes(f, sizes));
    hide Next, RunFrom, Hashes;
  }

  lemma RunOne(digest: Digest, s: State, before: seq<Step>, st: Step)
    requires RunFrom(digest, s, before).Some? && Enabled(RunFrom(digest, s, before).value, st)
    ensures RunFrom(digest, s, before + [st]) == Some(Next(digest, RunFrom(digest, s, before).value, st))
  {
    RunFromConcat(digest, s, before, [st]);
    hide Next, Enabled;
    var mid := RunFrom(digest, s, before).value;
    assert RunFrom(digest, mid, [st]) == RunFrom(digest, Next(digest, mid, st), []);
  }

  /** Left alone, an unforced fetch of what is already there reports exactly that, and writes nothing. */
  lemma UndisturbedFetchFindsCached(digest: Digest, s: State, f: nat, want: string, body: Bytes, sizes: seq<nat>)
    requires f !in s.fetchers && Dest in s.dir && s.dir[Dest] in s.inodes
    requires var bytes := s.inodes[s.dir[Dest]]; Sum(sizes) == |bytes| && digest(bytes, want)
    ensures RunFrom(digest, s, OpensOld(f, want, body, sizes) + [OldHashed(f)]) ==
            Some(Moved(s, f, Fetcher(want, false, body, Done(Cached(s.inodes[s.dir[Dest]])))))
  {
    var i := s.dir[Dest];
    OldRead(digest, s, f, want, body, sizes);
    assert s.inodes[i][..Sum(sizes)] == s.inodes[i];
    var s1 := Moved(s, f, Fetcher(want, false, body, HashingOld(i, s.inodes[i])));
    OnlyMoves(digest, s1, OldHashed(f));
    RunOne(digest, s, OpensOld(f, want, body, sizes), OldHashed(f));
    MovedTwice(s, f, s1.fetchers[f], Fetcher(want, false, body, Done(Cached(s.inodes[i]))));
    hide Next, Moved, RunFrom;
  }

  /** A call of Fetch up to the download: forced or without a file to open; with a file that does not match;
      or with one that cannot be read to its end. */
  function Prelude(s: State, f: nat, want: string, force: bool, body: Bytes, sizes: seq<nat>): seq<Step> {
    if force || Dest !in s.dir then [Begin(f, want, force, body), Skip(f)]
    else OpensOld(f, want, body, sizes) + [if Sum(sizes) == |s.Content(s.dir[Dest])| then OldHashed(f) else OldUnreadable(f)]
  }

  lemma SkipsOld(digest: Digest, s: State, f: nat, want: string, force: bool, body: Bytes)
    requires f !in s.fetchers
    ensures RunFrom(digest, s, [Begin(f, want, force, body), Skip(f)]) == Some(Moved(s, f, Fetcher(want, force, body, Requesting)))
  {
    var begin := Begin(f, want, force, body);
    OnlyMoves(digest, s, begin);
    var s1 := Moved(s, f, Fetcher(want, force, body, Deciding));
    OnlyMoves(digest, s1, Skip(f));
    MovedTwice(s, f, s1.fetchers[f], Fetcher(want, force, body, Requesting));
    assert RunFrom(digest, s1, [Skip(f)]) == RunFrom(digest, Next(digest, s1, Skip(f)), []);
    assert [begin, Skip(f)][1..] == [Skip(f)];
  }

  /** In all of these the download is reached with nothing else changed. */
  lemma ReachesDownload(digest: Digest, s: State, f: nat, want: string, force: bool, body: Bytes, sizes: seq<nat>)
    requires f !in s.fetchers && (Dest in s.dir ==> s.dir[Dest] in s.inodes && Sum(sizes) <= |s.inodes[s.dir[Dest]]|)
    requires force || Dest !in s.dir || !digest(s.inodes[s.dir[Dest]], want) || Sum(sizes) < |s.inodes[s.dir[Dest]]|
    ensures RunFrom(digest, s, Prelude(s, f, want, force, body, sizes)) == Some(Moved(s, f, Fetcher(want, force, body, Requesting)))
  {
    if force || Dest !in s.dir {
      SkipsOld(digest, s, f, want, force, body);
    } else {
      var i, n := s.dir[Dest], Sum(sizes);
      OldRead(digest, s, f, want, body, sizes);
      var s1 := Moved(s, f, Fetcher(want, false, body, HashingOld(i, s.inodes[i][..n])));
      var st := if n == |s.inodes[i]| then OldHashed(f) else OldUnreadable(f);
      assert n == |s.inodes[i]| ==> s.inodes[i][..n] == s.inodes[i];
      OnlyMoves(digest, s1, st);
      RunOne(digest, s, OpensOld(f, want, body, sizes), st);
      MovedTwice(s, f, s1.fetchers[f], Fetcher(want, false, body, Requesting));
      hide Next, Moved, RunFrom, OpensOld;
    }
  }

  /** From the call on: a forced fetch, or one that finds no file, a wrong one or one it cannot read, installs a
      matching body when left alone. */
  lemma UndisturbedCallInstalls(digest: Digest, s: State, f: nat, want: string, force: bool, body: Bytes, old': seq<nat>, sizes: seq<nat>)
    requires f !in s.fetchers && (Dest in s.dir ==> s.dir[Dest] in s.inodes && Sum(old') <= |s.inodes[s.dir[Dest]]|)
    requires force || Dest !in s.dir || !digest(s.inodes[s.dir[Dest]], want) || Sum(old') < |s.inodes[s.dir[Dest]]|
    requires digest(body, want) && Sum(sizes) == |body| && forall k | 0 <= k < |sizes| :: 0 < sizes[k]
    ensures var s' := RunFrom(digest, s, Prelude(s, f, want, force, body, old') + Download(f, sizes));
      && s'.Some? && Dest in s'.value.dir && s'.value.dir[Dest] == s.made
      && s.made in s'.value.inodes && s'.value.inodes[s.made] == body
      && f in s'.value.fetchers && s'.value.fetchers[f].pc == Done(Installed(s.made))
  {
    hide RunFrom, Prelude, Download;
    ReachesDownload(digest, s, f, want, force, body, old');
    UndisturbedFetchInstalls(digest, Moved(s, f, Fetcher(want, force, body, Requesting)), f, sizes);
    RunFromConcat(digest, s, Prelude(s, f, want, force, body, old'), Download(f, sizes));
  }

  /** A forced fetch never looks at the existing file, so it never reports it, in any run. */
  lemma {:induction false} ForceIsNeverCached(digest: Digest, old': Option<Bytes>, steps: seq<Step>, f: nat)
    requires Run(digest, old', steps).Some? && f in Run(digest, old', steps).value.fetchers
    ensures Unforced(Run(digest, old', steps).value.fetchers[f])
  {
    if steps != [] {
      var s, st := Run(digest, old', steps[..|steps| - 1]).value, steps[|steps| - 1];
      if f in s.fetchers { ForceIsNeverCached(digest, old', steps[..|steps| - 1], f); }
      MovesActor(digest, s, st, f);
      hide Next, NextFetchers, Enabled;
      if !st.OpenDest? && !st.Begin? && st.f == f { ForceStep(digest, s, st, s.fetchers[f]); }
    }
  }

  predicate Unforced(x: Fetcher) {
    x.pc.HashingOld? || ((x.pc.Cleaning? || x.pc.Done?) && x.pc.result.Cached?) ==> !x.force
  }

  lemma ForceStep(digest: Digest, s: State, st: Step, x: Fetcher)
    requires Ready(s, st, x) && Unforced(x)
    ensures Unforced(x.(pc := NextPC(digest, s, st, x)))
  {
  }

  /** Only a fetch's own step moves it. */
  lemma MovesActor(digest: Digest, s: State, st: Step, f: nat)
    requires Enabled(s, st) && f in Next(digest, s, st).fetchers
    ensures var x := Next(digest, s, st).fetchers[f];
            if st.OpenDest? || st.f != f then f in s.fetchers && x == s.fetchers[f]
            else if st.Begin? then x == Fetcher(st.want, st.force, st.body, Deciding)
            else f in s.fetchers && Ready(s, st, s.fetchers[f]) && x == s.fetchers[f].(pc := NextPC(digest, s, st, s.fetchers[f]))
  {
    hide NextPC, Ready, NextInodes, NextDir;
  }

  /** A fetch fails only for a cause: no download, a broken one, a failing close, chmod or rename, or a body that
      does not match. */
  lemma {:induction false} FailsForCause(digest: Digest, old': Option<Bytes>, steps: seq<Step>, f: nat)
    requires Run(digest, old', steps).Some? && f in Run(digest, old', steps).value.fetchers
    ensures var x := Run(digest, old', steps).value.fetchers[f];
            (x.pc.Cleaning? || x.pc.Done?) && x.pc.result.Failed? ==>
              || NoDownload(f) in steps || CloseFails(f) in steps || InstallFails(f) in steps
              || (exists partial :: BreakOff(f, partial) in steps) || !digest(x.body, x.want)
  {
    if steps != [] {
      var before, st := steps[..|steps| - 1], steps[|steps| - 1];
      var s := Run(digest, old', before).value;
      assert steps == before + [st];
      if f in s.fetchers { FailsForCause(digest, old', before, f); }
      InvRun(digest, old', before);
      MovesActor(digest, s, st, f);
      assert f in s.fetchers ==> FetcherInv(digest, old', s, f, s.fetchers[f]);
      assert forall x :: x in before ==> x in steps;
      hide Next, NextFetchers, Enabled, Inv, FetcherInv, Run;
      if !st.OpenDest? && !st.Begin? && st.f == f { FailStep(digest, old', s, st, s.fetchers[f]); }
    }
  }

  lemma FailStep(digest: Digest, old': Option<Bytes>, s: State, st: Step, x: Fetcher)
    requires Ready(s, st, x) && FetcherInv(digest, old', s, st.f, x)
    ensures var now := NextPC(digest, s, st, x);
            (now.Cleaning? || now.Done?) && now.result.Failed? ==>
              || ((x.pc.Cleaning? || x.pc.Done?) && x.pc.result.Failed?)
              || st.NoDownload? || st.CloseFails? || st.InstallFails? || st.BreakOff? || !digest(x.body, x.want)
  {
  }

  /** What one finished fetch has done. */
  predicate Outcome(digest: Digest, old': Option<Bytes>, s: State, f: nat, r: Result)
    requires f in s.fetchers
  {
    match r
    case Cached(bytes) =>
      && digest(bytes, s.fetchers[f].want) && !s.fetchers[f].force
      && (old' == Some(bytes) || WholeVerifiedBody(digest, s, bytes))
      && OwnsNone(s, f) && InstalledNone(s, f)
    case Installed(i) =>
      && Dest in s.dir
      && i in s.inodes && s.inodes[i] == s.fetchers[f].body && digest(s.inodes[i], s.fetchers[f].want)
      && i in s.installs && s.installs[i].fetch == f
    case Failed => InstalledNone(s, f)
  }

  /** A fetch that returned left no temporary file of its own. If it reports a cached file, existing bytes
      had the right digest and it wrote nothing; if it installed, its whole body matched and was renamed;
      if it failed, it never touched the destination. */
  lemma ReturnedFetch(digest: Digest, old': Option<Bytes>, steps: seq<Step>, f: nat)
    requires Run(digest, old', steps).Some?
    requires var s := Run(digest, old', steps).value; f in s.fetchers && s.fetchers[f].pc.Done?
    ensures var s := Run(digest, old', steps).value;
      NoTempOf(s, f) && Outcome(digest, old', s, f, s.fetchers[f].pc.result)
  {
    hide Run, NameInv;
    InvRun(digest, old', steps);
    ForceIsNeverCached(digest, old', steps, f);
    var s := Run(digest, old', steps).value;
    assert FetcherInv(digest, old', s, f, s.fetchers[f]);
    match s.fetchers[f].pc.result
    case Cached(c) =>
      var i :| i in s.inodes && Published(s, old', i) && s.inodes[i] == c;
      PublishedMeans(digest, old', s, i);
    case Installed(i) => assert Verifies(digest, s, i);
    case Failed =>
  }

  /** A body that does not match its manifest's digest is never installed, not even by a fetch that crashes. */
  lemma MismatchNeverInstalled(digest: Digest, old': Option<Bytes>, steps: seq<Step>, f: nat)
    requires Run(digest, old', steps).Some? && f in Run(digest, old', steps).value.fetchers
    requires var x := Run(digest, old', steps).value.fetchers[f]; !digest(x.body, x.want)
    ensures InstalledNone(Run(digest, old', steps).value, f)
  {
    hide Run, NameInv, FetcherInv;
    InvRun(digest, old', steps);
    var s := Run(digest, old', steps).value;
    forall i | i in s.installs ensures s.installs[i].fetch != f {
      assert Verifies(digest, s, i);
    }
  }

  // ----- Manifest.Find -----

  datatype Artifact = Artifact(platform: string, file: string, sha256: string, url: string)

  /** The first artifact for the platform, or the platforms the manifest does have. */
  method Find(artifacts: seq<Artifact>, platform: string) returns (found: Option<Artifact>, available: seq<string>)
    ensures found.Some? <==> exists i | 0 <= i < |artifacts| :: artifacts[i].platform == platform
    ensures found.Some? ==> exists i | 0 <= i < |artifacts| ::
      && artifacts[i] == found.value && found.value.platform == platform
      && forall k | 0 <= k < i :: artifacts[k].platform != platform
    ensures found.None? ==> |available| == |artifacts| && forall i | 0 <= i < |artifacts| :: available[i] == artifacts[i].platform
  {
    available := [];
    for i := 0 to |artifacts|
      invariant forall k | 0 <= k < i :: artifacts[k].platform != platform
    {
      if artifacts[i].platform == platform {
        return Some(artifacts[i]), [];
      }
    }
    found := None;
    for i := 0 to |artifacts|
      invariant |available| == i && forall k | 0 <= k < i :: available[k] == artifacts[k].platform
    {
      available := available + [artifacts[i].platform];
    }
  }
}
