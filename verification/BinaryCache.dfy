module BinaryCache {
  /** The cache of linked test binaries as a protocol between processes.

      Runs lock, link, copy and unlock a cached binary; sweeps in other processes
      scan, try the lock, compare the binary's time, remove it and then remove the
      lock file they still hold. Every system call is one step, any process may be
      killed between two steps, and any number of processes take part.

      A lock file is opened by name but locked by inode, and only the run side
      checks that the inode it locked is still the one at the path. The invariant
      below says why the sweep may leave that check out: a sweep holding a stale
      inode never finds the binary it scanned.
   */

  import opened Options

  type Inode = nat
  type Bytes = seq<char>

  /** One cached binary: the key directory it lives in and its name there. Its
      lock file lives in the same directory. */
  datatype Key = Key(dir: nat, name: nat)

  datatype Binary = Binary(data: Bytes, mtime: nat)

  /** Where a process stands between two system calls. */
  datatype Phase =
    | Idle
    // a run, in compilePackage and lockFile
    | RunOpened(key: Key, lock: Inode)
    | RunLocked(key: Key, lock: Inode)
    | RunHolds(key: Key, lock: Inode)
    | RunLinked(key: Key, lock: Inode, out: Bytes, copied: Bytes)
    | RunCopied(key: Key, lock: Inode, out: Bytes, copied: Bytes)
    // an eviction, in evictBinary and tryLockFile
    | Scanned(key: Key, seen: nat)
    | SweepOpened(key: Key, seen: nat, lock: Inode)
    | SweepLocked(key: Key, seen: nat, lock: Inode)
    | SweepMatched(key: Key, lock: Inode)
    | SweepRemoved(key: Key, lock: Inode)
    // an eviction of a lock file without a binary, in evictLock
    | OrphanScanned(key: Key)
    | OrphanOpened(key: Key, lock: Inode)
    | OrphanLocked(key: Key, lock: Inode)
    | OrphanChecked(key: Key, lock: Inode)
    // any of them giving its lock back
    | Releasing(lock: Inode)
    | Unlocked(lock: Inode)
  {
    /** The process has the inode open. */
    predicate Opens(i: Inode) {
      !Idle? && !Scanned? && !OrphanScanned? && lock == i
    }

    /** The process has been granted the advisory lock on the inode. */
    predicate Locks(i: Inode) {
      Opens(i) && !RunOpened? && !SweepOpened? && !OrphanOpened? && !Unlocked?
    }

    /** A run between its validated lock and its unlock. */
    predicate RunOwns(k: Key) {
      (RunHolds? || RunLinked? || RunCopied?) && key == k
    }

    /** A run, or an eviction past the comparison of times. */
    predicate Owns(k: Key) {
      RunOwns(k) || ((SweepMatched? || SweepRemoved?) && key == k)
    }
  }

  /** The shared directory tree and every process. `names` says which inode the
      lock path of a key names, `bins` what lies at the binary's own path. */
  datatype State = State(
    procs: seq<Phase>,
    names: map<Key, Inode>,
    bins: map<Key, Binary>,
    dirs: set<nat>,
    clock: nat)
  {
    /** The lock path of k names i. */
    predicate Names(k: Key, i: Inode) {
      k in names && names[k] == i
    }

    /** No name and no open file refers to i, so a new file may be given it. */
    ghost predicate Unused(i: Inode) {
      (forall k <- names :: names[k] != i) && (forall p <- procs :: !p.Opens(i))
    }

    /** Nobody holds the advisory lock on i. */
    ghost predicate Free(i: Inode) {
      forall p <- procs :: !p.Locks(i)
    }
  }

  /** The inode whose lock a process has been granted. */
  ghost function Grant(me: Phase): (g: Option<Inode>)
    ensures forall i: Inode :: me.Locks(i) <==> g == Some(i)
  {
    if me.Idle? || me.Scanned? || me.OrphanScanned? then None
    else if me.Locks(me.lock) then Some(me.lock)
    else None
  }

  // ------------------------------------------------------------------ steps

  datatype Event =
    | MakeKeyDir(d: nat)
    | RemoveKeyDir(d: nat)
    | RunOpen(p: nat, k: Key, i: Inode)
    | RunLock(p: nat)
    | RunValidate(p: nat)
    | RunLink(p: nat, data: Bytes, now: nat)
    | RunLinkFails(p: nat, removed: bool)
    | RunCopySome(p: nat)
    | RunCopyEnds(p: nat)
    | RunGivesUp(p: nat)
    | Scan(p: nat, k: Key)
    | SweepSkips(p: nat)
    | SweepOpen(p: nat, i: Inode)
    | SweepTryLock(p: nat)
    | SweepCompare(p: nat)
    | SweepRemove(p: nat, ok: bool)
    | SweepUnlink(p: nat, ok: bool)
    | ScanOrphan(p: nat, k: Key)
    | OrphanOpen(p: nat, i: Inode)
    | OrphanTryLock(p: nat)
    | OrphanCheck(p: nat)
    | OrphanUnlink(p: nat)
    | Unlock(p: nat)
    | Close(p: nat)
    | Killed(p: nat)
  {
    /** A step on a key directory, by a process that holds nothing. */
    predicate OfDir() {
      MakeKeyDir? || RemoveKeyDir?
    }

    predicate OfRun() {
      || RunOpen? || RunLock? || RunValidate? || RunLink? || RunLinkFails? || RunCopySome? || RunCopyEnds?
      || RunGivesUp?
    }

    predicate OfSweep() {
      Scan? || SweepSkips? || SweepOpen? || SweepTryLock? || SweepCompare? || SweepRemove? || SweepUnlink?
    }
  }

  /** What opening the lock file of k with O_CREATE may return. */
  ghost predicate MayOpen(s: State, k: Key, i: Inode) {
    k.dir in s.dirs && if k in s.names then i == s.names[k] else s.Unused(i)
  }

  ghost predicate Enabled(s: State, e: Event) {
    if e.MakeKeyDir? then true
    else if e.RemoveKeyDir? then forall k <- s.names.Keys + s.bins.Keys :: k.dir != e.d
    else e.p < |s.procs| && EnabledFor(s, s.procs[e.p], e)
  }

  ghost predicate EnabledFor(s: State, me: Phase, e: Event)
    requires !e.OfDir()
  {
    match e
    case RunOpen(_, k, i) => me.Idle? && MayOpen(s, k, i)
    case RunLock(_) => me.RunOpened? && s.Free(me.lock)
    case RunValidate(_) => me.RunLocked?
    case RunLink(_, _, now) => me.RunHolds? && s.clock < now
    case RunLinkFails(_, _) => me.RunHolds?
    case RunCopySome(_) => me.RunLinked? && me.key in s.bins && |me.copied| < |s.bins[me.key].data|
    case RunCopyEnds(_) => me.RunLinked? && me.key in s.bins && |s.bins[me.key].data| <= |me.copied|
    case RunGivesUp(_) => me.RunLinked? || me.RunCopied?
    case Scan(_, k) => me.Idle? && k in s.bins
    case SweepSkips(_) => me.Scanned?
    case SweepOpen(_, i) => me.Scanned? && MayOpen(s, me.key, i)
    case SweepTryLock(_) => me.SweepOpened?
    case SweepCompare(_) => me.SweepLocked?
    case SweepRemove(_, ok) => me.SweepMatched? && (ok ==> me.key in s.bins)
    case SweepUnlink(_, _) => me.SweepRemoved?
    case ScanOrphan(_, k) => me.Idle? && k in s.names && k !in s.bins
    case OrphanOpen(_, i) => me.OrphanScanned? && MayOpen(s, me.key, i)
    case OrphanTryLock(_) => me.OrphanOpened?
    case OrphanCheck(_) => me.OrphanLocked?
    case OrphanUnlink(_) => me.OrphanChecked?
    case Unlock(_) => me.Releasing?
    case Close(_) => me.Unlocked?
    case Killed(_) => true
  }

  ghost function Apply(s: State, e: Event): State
    requires Enabled(s, e)
  {
    if e.MakeKeyDir? then s.(dirs := s.dirs + {e.d})
    else if e.RemoveKeyDir? then s.(dirs := s.dirs - {e.d})
    else Update(s, ChangeBy(s, s.procs[e.p], e)).(procs := s.procs[e.p := Became(s, s.procs[e.p], e)])
  }

  /** The acting process's next phase. */
  ghost function Became(s: State, me: Phase, e: Event): Phase
    requires !e.OfDir()
    requires EnabledFor(s, me, e)
  {
    match e
    case RunOpen(_, k, i) => Phase.RunOpened(k, i)
    case RunLock(_) => RunLocked(me.key, me.lock)
    case RunValidate(_) => if s.Names(me.key, me.lock) then RunHolds(me.key, me.lock) else Releasing(me.lock)
    case RunLink(_, data, _) => RunLinked(me.key, me.lock, data, [])
    case RunLinkFails(_, _) => Releasing(me.lock)
    case RunCopySome(_) => RunLinked(me.key, me.lock, me.out, me.copied + [s.bins[me.key].data[|me.copied|]])
    case RunCopyEnds(_) => RunCopied(me.key, me.lock, me.out, me.copied)
    case RunGivesUp(_) => Releasing(me.lock)
    case Scan(_, k) => Scanned(k, s.bins[k].mtime)
    case SweepSkips(_) => Idle
    case SweepOpen(_, i) => SweepOpened(me.key, me.seen, i)
    case SweepTryLock(_) => if s.Free(me.lock) then SweepLocked(me.key, me.seen, me.lock) else Unlocked(me.lock)
    case SweepCompare(_) =>
      if me.key in s.bins && s.bins[me.key].mtime == me.seen then SweepMatched(me.key, me.lock) else Releasing(me.lock)
    case SweepRemove(_, ok) => if ok then SweepRemoved(me.key, me.lock) else Releasing(me.lock)
    case SweepUnlink(_, _) => Releasing(me.lock)
    case ScanOrphan(_, k) => OrphanScanned(k)
    case OrphanOpen(_, i) => OrphanOpened(me.key, i)
    case OrphanTryLock(_) => if s.Free(me.lock) then OrphanLocked(me.key, me.lock) else Unlocked(me.lock)
    case OrphanCheck(_) => if me.key in s.bins then Releasing(me.lock) else OrphanChecked(me.key, me.lock)
    case OrphanUnlink(_) => Releasing(me.lock)
    case Unlock(_) => Unlocked(me.lock)
    case Close(_) => Idle
    case Killed(_) => Idle
  }

  /** What a step does to the shared tree. */
  datatype Change =
    | NoChange
    | LockNamed(k: Key, i: Inode)
    | LockUnnamed(k: Key)
    | BinaryLinked(k: Key, data: Bytes, now: nat)
    | BinaryRemoved(k: Key)

  ghost function ChangeBy(s: State, me: Phase, e: Event): Change
    requires !e.OfDir()
    requires EnabledFor(s, me, e)
  {
    match e
    case RunOpen(_, k, i) => LockNamed(k, i)
    case SweepOpen(_, i) => LockNamed(me.key, i)
    case OrphanOpen(_, i) => LockNamed(me.key, i)
    case RunLink(_, data, now) => BinaryLinked(me.key, data, now)
    case RunLinkFails(_, removed) => if removed then BinaryRemoved(me.key) else NoChange
    case SweepRemove(_, ok) => if ok then BinaryRemoved(me.key) else NoChange
    case SweepUnlink(_, ok) => if ok then LockUnnamed(me.key) else NoChange
    case OrphanUnlink(_) => LockUnnamed(me.key)
    case _ => NoChange
  }

  ghost function Update(s: State, c: Change): State {
    match c
    case NoChange => s
    case LockNamed(k, i) => s.(names := s.names[k := i])
    case LockUnnamed(k) => s.(names := s.names - {k})
    case BinaryLinked(k, data, now) => s.(bins := s.bins[k := Binary(data, now)], clock := now)
    case BinaryRemoved(k) => s.(bins := s.bins - {k})
  }

  /** States that follow one another by the events, from a cache nobody uses. */
  ghost predicate IsRun(ss: seq<State>, es: seq<Event>) {
    && |ss| == |es| + 1
    && Init(ss[0])
    && forall n {:trigger es[n]} :: 0 <= n < |es| ==> Enabled(ss[n], es[n]) && ss[n + 1] == Apply(ss[n], es[n])
  }

  /** evictLock removes whatever its lock path names. The step is true when that
      is the file it holds. */
  ghost predicate UnlinksOwn(s: State, e: Event) {
    e.OrphanUnlink? && e.p < |s.procs| && s.procs[e.p].OrphanChecked? ==> s.Names(s.procs[e.p].key, s.procs[e.p].lock)
  }

  /** Every evictLock of the run removed the file it held; a run without any
      evictLock is one of these. */
  ghost predicate OrphansValidated(ss: seq<State>, es: seq<Event>)
    requires |ss| == |es| + 1
  {
    forall n {:trigger es[n]} :: 0 <= n < |es| ==> UnlinksOwn(ss[n], es[n])
  }

  /** Any cache on disk, left by earlier processes, and nobody using it. */
  ghost predicate Init(s: State) {
    && (forall p <- s.procs :: p.Idle?)
    && (forall k <- s.names.Keys + s.bins.Keys :: k.dir in s.dirs)
    && (forall k <- s.bins :: s.bins[k].mtime <= s.clock)
  }

  // -------------------------------------------------------------- invariant

  /** What holds of one process's phase in the shared tree. The third case is
      the one about stale locks: a sweep whose open file is no longer the lock
      file finds no binary carrying the time it scanned. */
  ghost predicate PhaseOk(s: State, me: Phase) {
    match me
    case RunHolds(k, i) => s.Names(k, i)
    case RunLinked(k, i, out, copied) => s.Names(k, i) && k in s.bins && s.bins[k].data == out && copied <= out
    case RunCopied(k, i, out, copied) => s.Names(k, i) && k in s.bins && s.bins[k].data == out && copied == out
    case Scanned(k, seen) => seen <= s.clock
    case SweepOpened(k, seen, i) => seen <= s.clock && StaleMisses(s, k, seen, i)
    case SweepLocked(k, seen, i) => seen <= s.clock && StaleMisses(s, k, seen, i)
    case SweepMatched(k, i) => s.Names(k, i)
    case SweepRemoved(k, i) => s.Names(k, i) && k !in s.bins
    case OrphanChecked(k, i) => s.Names(k, i) ==> k !in s.bins
    case _ => true
  }

  ghost predicate StaleMisses(s: State, k: Key, seen: nat, i: Inode) {
    !s.Names(k, i) ==> k !in s.bins || s.bins[k].mtime != seen
  }

  ghost predicate LocksExclude(s: State) {
    forall p, q, i {:trigger s.procs[p].Locks(i), s.procs[q].Locks(i)} ::
      0 <= p < |s.procs| && 0 <= q < |s.procs| && s.procs[p].Locks(i) && s.procs[q].Locks(i) ==> p == q
  }

  ghost predicate TreeOk(s: State) {
    && (forall k <- s.names.Keys + s.bins.Keys :: k.dir in s.dirs)
    && (forall k <- s.bins :: s.bins[k].mtime <= s.clock)
  }

  ghost predicate Inv(s: State) {
    && TreeOk(s)
    && LocksExclude(s)
    && forall p :: 0 <= p < |s.procs| ==> PhaseOk(s, s.procs[p])
  }

  /** Two processes that own one key are one process: both hold the lock on the
      inode its lock path names. */
  lemma OwnersCoincide(s: State, p: nat, q: nat, k: Key)
    requires Inv(s) && p < |s.procs| && q < |s.procs|
    requires s.procs[p].Owns(k) && s.procs[q].Owns(k)
    ensures p == q
  {
    assert PhaseOk(s, s.procs[p]) && PhaseOk(s, s.procs[q]);
    assert s.procs[p].Locks(s.names[k]) && s.procs[q].Locks(s.names[k]);
  }

  lemma ActorStaysOk(s: State, e: Event)
    requires Inv(s) && Enabled(s, e) && !e.OfDir()
    ensures PhaseOk(Update(s, ChangeBy(s, s.procs[e.p], e)), Became(s, s.procs[e.p], e))
  {
    hide Inv, PhaseOk, EnabledFor, Became, ChangeBy, Update, Event.OfRun, Event.OfSweep;
    if e.OfRun() {
      RunStaysOk(s, e);
    } else if e.OfSweep() {
      SweepStaysOk(s, e);
    } else {
      OrphanStaysOk(s, e);
    }
  }

  lemma RunStaysOk(s: State, e: Event)
    requires Inv(s) && Enabled(s, e) && !e.OfDir() && e.OfRun()
    ensures PhaseOk(Update(s, ChangeBy(s, s.procs[e.p], e)), Became(s, s.procs[e.p], e))
  {
    hide LocksExclude, TreeOk, State.Free, MayOpen, StaleMisses;
    assert PhaseOk(s, s.procs[e.p]);
  }

  lemma SweepStaysOk(s: State, e: Event)
    requires Inv(s) && Enabled(s, e) && !e.OfDir() && e.OfSweep()
    ensures PhaseOk(Update(s, ChangeBy(s, s.procs[e.p], e)), Became(s, s.procs[e.p], e))
  {
    hide LocksExclude, State.Free, MayOpen;
    assert PhaseOk(s, s.procs[e.p]);
  }

  lemma OrphanStaysOk(s: State, e: Event)
    requires Inv(s) && Enabled(s, e) && !e.OfDir() && !e.OfRun() && !e.OfSweep()
    ensures PhaseOk(Update(s, ChangeBy(s, s.procs[e.p], e)), Became(s, s.procs[e.p], e))
  {
    hide LocksExclude, TreeOk, State.Free, MayOpen, StaleMisses;
    assert PhaseOk(s, s.procs[e.p]);
  }

  /** When a process holding `me` may make a change: a lock path is given only
      the inode it has or an unused one, and everything else is done under the
      lock the path names. */
  ghost predicate MayChange(s: State, me: Phase, c: Change) {
    match c
    case NoChange => true
    case LockNamed(k, i) => MayOpen(s, k, i)
    case LockUnnamed(k) => k in s.names && me.Locks(s.names[k]) && k !in s.bins
    case BinaryLinked(k, _, now) => k in s.names && me.Locks(s.names[k]) && s.clock < now
    case BinaryRemoved(k) => k in s.names && me.Locks(s.names[k])
  }

  lemma StepsMayChange(s: State, e: Event)
    requires Inv(s) && Enabled(s, e) && UnlinksOwn(s, e) && !e.OfDir()
    ensures MayChange(s, s.procs[e.p], ChangeBy(s, s.procs[e.p], e))
  {
    assert PhaseOk(s, s.procs[e.p]);
  }

  /** Such a change leaves every other process's phase in order. */
  lemma ChangeKeepsOthers(s: State, p: nat, q: nat, c: Change)
    requires Inv(s) && p < |s.procs| && q < |s.procs| && p != q && MayChange(s, s.procs[p], c)
    ensures PhaseOk(Update(s, c), s.procs[q])
  {
    var him := s.procs[q];
    assert him in s.procs && PhaseOk(s, him);
    if Grant(him).Some? {
      assert !s.procs[p].Locks(Grant(him).value);
    }
  }

  /** A step grants the acting process no lock but a free one. */
  lemma GrantsAreFree(s: State, me: Phase, e: Event)
    requires !e.OfDir() && EnabledFor(s, me, e)
    ensures var g := Grant(Became(s, me, e)); g == None || g == Grant(me) || s.Free(g.value)
  {
  }

  lemma LocksStayExclusive(s: State, p: nat, me: Phase)
    requires LocksExclude(s) && p < |s.procs|
    requires Grant(me) == None || Grant(me) == Grant(s.procs[p]) || s.Free(Grant(me).value)
    ensures LocksExclude(s.(procs := s.procs[p := me]))
  {
    forall q | 0 <= q < |s.procs| && q != p && Grant(me).Some? ensures !s.procs[q].Locks(Grant(me).value) {
      assert s.procs[q] in s.procs;
      assert Grant(me) == Grant(s.procs[p]) ==> s.procs[p].Locks(Grant(me).value);
    }
  }

  lemma StepKeepsInv(s: State, e: Event)
    requires Inv(s) && Enabled(s, e) && UnlinksOwn(s, e)
    ensures Inv(Apply(s, e))
  {
    hide Inv, Apply, Enabled, UnlinksOwn;
    if e.OfDir() {
      DirStepKeepsInv(s, e);
    } else {
      ProcStepKeepsInv(s, e);
    }
  }

  lemma DirStepKeepsInv(s: State, e: Event)
    requires Inv(s) && Enabled(s, e) && UnlinksOwn(s, e) && e.OfDir()
    ensures Inv(Apply(s, e))
  {
    hide LocksExclude, PhaseOk, TreeOk;
    StepKeepsTree(s, e);
    var s' := Apply(s, e);
    forall p | 0 <= p < |s.procs| ensures PhaseOk(s', s.procs[p]) {
      SameEntries(s, s', s.procs[p]);
    }
    SameProcsExclude(s, s');
  }

  lemma ProcStepKeepsInv(s: State, e: Event)
    requires Inv(s) && Enabled(s, e) && UnlinksOwn(s, e) && !e.OfDir()
    ensures Inv(Apply(s, e))
  {
    hide LocksExclude, PhaseOk, MayChange, TreeOk, EnabledFor, Became, ChangeBy, UnlinksOwn;
    StepKeepsTree(s, e);
    var s', me := Apply(s, e), s.procs[e.p];
    StepsMayChange(s, e);
    GrantsAreFree(s, me, e);
    LocksStayExclusive(s, e.p, Became(s, me, e));
    SameProcsExclude(s.(procs := s.procs[e.p := Became(s, me, e)]), s');
    ActorStaysOk(s, e);
    SameEntries(Update(s, ChangeBy(s, me, e)), s', s'.procs[e.p]);
    forall q | 0 <= q < |s'.procs| && q != e.p ensures PhaseOk(s', s'.procs[q]) {
      ChangeKeepsOthers(s, e.p, q, ChangeBy(s, me, e));
      SameEntries(Update(s, ChangeBy(s, me, e)), s', s.procs[q]);
    }
  }

  lemma StepKeepsTree(s: State, e: Event)
    requires Inv(s) && Enabled(s, e) && UnlinksOwn(s, e)
    ensures TreeOk(Apply(s, e))
  {
    hide LocksExclude;
    if !e.OfDir() {
      assert PhaseOk(s, s.procs[e.p]);
    }
  }

  /** A phase is judged by the lock names, the binaries and the clock. */
  lemma SameEntries(s: State, t: State, me: Phase)
    requires PhaseOk(s, me) && s.names == t.names && s.bins == t.bins && s.clock == t.clock
    ensures PhaseOk(t, me)
  {
  }

  lemma SameProcsExclude(s: State, t: State)
    requires LocksExclude(s) && s.procs == t.procs
    ensures LocksExclude(t)
  {
  }

  // ------------------------------------------------------------ over a run

  lemma {:induction false} RunKeepsInv(ss: seq<State>, es: seq<Event>, n: nat)
    requires IsRun(ss, es) && OrphansValidated(ss, es) && n < |ss|
    ensures Inv(ss[n])
  {
    if n == 0 {
      assert forall p :: 0 <= p < |ss[0].procs| ==> ss[0].procs[p] in ss[0].procs;
    } else {
      RunKeepsInv(ss, es, n - 1);
      var e := es[n - 1];
      StepKeepsInv(ss[n - 1], e);
    }
  }

  /** Two runs never hold a validated lock for one binary at once, and no
      eviction past its comparison overlaps either of them. */
  lemma ValidatedLocksExclude(ss: seq<State>, es: seq<Event>, n: nat, p: nat, q: nat, k: Key)
    requires IsRun(ss, es) && OrphansValidated(ss, es) && n < |ss|
    requires p < |ss[n].procs| && q < |ss[n].procs|
    requires ss[n].procs[p].RunOwns(k) && ss[n].procs[q].Owns(k)
    ensures p == q
  {
    RunKeepsInv(ss, es, n);
    OwnersCoincide(ss[n], p, q, k);
  }

  /** While a process holds the lock file a key's lock path names, a step of anyone else
      leaves the key's binary, the lock path and the directory as they are. */
  lemma LockedEntryIsStable(ss: seq<State>, es: seq<Event>, n: nat, p: nat, k: Key)
    requires IsRun(ss, es) && OrphansValidated(ss, es) && n < |es| && p < |ss[n].procs|
    requires k in ss[n].names && ss[n].procs[p].Locks(ss[n].names[k])
    requires es[n].OfDir() || es[n].p != p
    ensures p < |ss[n + 1].procs| && ss[n + 1].procs[p] == ss[n].procs[p]
    ensures ss[n + 1].Names(k, ss[n].names[k])
    ensures (k in ss[n + 1].bins) == (k in ss[n].bins)
    ensures k in ss[n].bins ==> ss[n + 1].bins[k] == ss[n].bins[k]
    ensures k.dir in ss[n + 1].dirs
  {
    RunKeepsInv(ss, es, n);
    RunKeepsInv(ss, es, n + 1);
    hide PhaseOk;
    var s, e := ss[n], es[n];
    if !e.OfDir() {
      StepsMayChange(s, e);
      hide EnabledFor, Became;
      assert LocksExclude(s);
    }
  }

  /** So it is while a run owns a key. */
  lemma OwnedEntryIsStable(ss: seq<State>, es: seq<Event>, n: nat, p: nat, k: Key)
    requires IsRun(ss, es) && OrphansValidated(ss, es) && n < |es| && p < |ss[n].procs|
    requires ss[n].procs[p].RunOwns(k)
    requires es[n].OfDir() || es[n].p != p
    ensures p < |ss[n + 1].procs| && ss[n + 1].procs[p] == ss[n].procs[p]
    ensures k in ss[n].names && ss[n + 1].Names(k, ss[n].names[k])
    ensures (k in ss[n + 1].bins) == (k in ss[n].bins)
    ensures k in ss[n].bins ==> ss[n + 1].bins[k] == ss[n].bins[k]
    ensures k.dir in ss[n + 1].dirs
  {
    RunKeepsInv(ss, es, n);
    assert PhaseOk(ss[n], ss[n].procs[p]);
    hide IsRun, OrphansValidated, Inv;
    LockedEntryIsStable(ss, es, n, p, k);
  }

  /** The run's own link failed, and the linker removed what was at the path. */
  predicate LosesOwn(e: Event, p: nat) {
    e.RunLinkFails? && e.p == p && e.removed
  }

  predicate Links(e: Event, p: nat) {
    e.RunLink? && e.p == p
  }

  /** The run with the key's lock, at work or about to unlock. */
  ghost predicate Holds(s: State, p: nat, k: Key, i: Inode) {
    && p < |s.procs| && s.Names(k, i) && s.procs[p].Locks(i)
    && (s.procs[p].RunOwns(k) || s.procs[p].Releasing?)
  }

  lemma OwnStepKeepsBinary(s: State, e: Event, p: nat, k: Key, i: Inode)
    requires Enabled(s, e) && Holds(s, p, k, i) && !e.OfDir() && e.p == p && !LosesOwn(e, p)
    requires Apply(s, e).procs[p].Locks(i)
    ensures Holds(Apply(s, e), p, k, i)
    ensures k in s.bins ==> k in Apply(s, e).bins
    ensures !Links(e, p) ==> Apply(s, e).bins == s.bins
  {
  }

  /** From a run's validated lock on until it unlocks, a binary at the path stays there,
      the very one found until the run links its own; only the run's own failed link can
      take it away. */
  lemma {:induction false} HeldBinaryNeverDisappears(
    ss: seq<State>, es: seq<Event>, m: nat, n: nat, p: nat, k: Key, i: Inode)
    requires IsRun(ss, es) && OrphansValidated(ss, es) && m <= n < |ss|
    requires p < |ss[m].procs| && ss[m].procs[p].RunOwns(k) && ss[m].procs[p].lock == i
    requires forall j :: m <= j <= n ==> p < |ss[j].procs| && ss[j].procs[p].Locks(i)
    requires forall j :: m <= j < n ==> !LosesOwn(es[j], p)
    ensures Holds(ss[n], p, k, i)
    ensures k in ss[m].bins ==> k in ss[n].bins
    ensures (forall j :: m <= j < n ==> !Links(es[j], p)) ==> (k in ss[n].bins) == (k in ss[m].bins)
    ensures (forall j :: m <= j < n ==> !Links(es[j], p)) && k in ss[m].bins ==> ss[n].bins[k] == ss[m].bins[k]
    decreases n - m
  {
    hide Inv, OrphansValidated, Enabled, Apply, Update;
    RunKeepsInv(ss, es, n);
    if m == n {
      OwnerHolds(ss[m], p, k, i);
    } else {
      HeldBinaryNeverDisappears(ss, es, m, n - 1, p, k, i);
      var s, e := ss[n - 1], es[n - 1];
      if e.OfDir() || e.p != p {
        LockedEntryIsStable(ss, es, n - 1, p, k);
      } else {
        OwnStepKeepsBinary(s, e, p, k, i);
      }
    }
  }

  lemma OwnerHolds(s: State, p: nat, k: Key, i: Inode)
    requires Inv(s) && p < |s.procs| && s.procs[p].RunOwns(k) && s.procs[p].lock == i
    ensures Holds(s, p, k, i)
  {
    assert PhaseOk(s, s.procs[p]);
  }

  /** What a run linked stays at its path until it unlocks, and what it copies
      is what it linked. */
  lemma LinkedBinaryIsCopied(ss: seq<State>, es: seq<Event>, n: nat, p: nat, k: Key)
    requires IsRun(ss, es) && OrphansValidated(ss, es) && n < |ss| && p < |ss[n].procs|
    requires ss[n].procs[p].RunOwns(k) && !ss[n].procs[p].RunHolds?
    ensures k in ss[n].bins && ss[n].bins[k].data == ss[n].procs[p].out
    ensures ss[n].procs[p].copied <= ss[n].procs[p].out
    ensures ss[n].procs[p].RunCopied? ==> ss[n].procs[p].copied == ss[n].procs[p].out
  {
    RunKeepsInv(ss, es, n);
    assert PhaseOk(ss[n], ss[n].procs[p]);
  }

  /** A sweep that removes a binary removes the very file it scanned, under the
      lock file the path names, which is therefore the one it unlinks next. */
  lemma EvictionIsValidated(ss: seq<State>, es: seq<Event>, n: nat, p: nat)
    requires IsRun(ss, es) && OrphansValidated(ss, es) && n < |ss| && p < |ss[n].procs|
    requires ss[n].procs[p].SweepMatched? || ss[n].procs[p].SweepRemoved?
    ensures ss[n].Names(ss[n].procs[p].key, ss[n].procs[p].lock)
  {
    RunKeepsInv(ss, es, n);
    assert PhaseOk(ss[n], ss[n].procs[p]);
  }

  // ------------------------------------------- evictLock, which does not check

  /** The condition on evictLock is not idle: one that locked a stale inode
      removes another process's lock file, and two runs then hold a validated
      lock for one binary. Process 0 is that evictLock, process 1 an evictLock
      that was quicker, processes 2 and 3 are the runs. */
  lemma StaleOrphanUnlinkBreaksExclusion() returns (ss: seq<State>, es: seq<Event>)
    ensures IsRun(ss, es)
    ensures var s := ss[|es|]; |s.procs| == 4 && s.procs[2].RunOwns(Key(0, 0)) && s.procs[3].RunOwns(Key(0, 0))
    ensures !OrphansValidated(ss, es)
  {
    var k := Key(0, 0);
    ss, es := [At([Idle, Idle, Idle, Idle], map[k := 0])], [];
    ss, es := FirstOrphanOpens(k, ss, es);
    ss, es := SecondOrphanOpens(k, ss, es);
    ss, es := SecondOrphanChecks(k, ss, es);
    ss, es := SecondOrphanUnlinks(k, ss, es);
    ss, es := FirstRunOwns(k, ss, es);
    ss, es := FirstOrphanChecks(k, ss, es);
    ss, es := FirstOrphanUnlinks(k, ss, es);
    ss, es := SecondRunOwns(k, ss, es);
    if OrphansValidated(ss, es) {
      ValidatedLocksExclude(ss, es, |es|, 2, 3, k);
    }
  }

  lemma FirstOrphanOpens(k: Key, ss: seq<State>, es: seq<Event>) returns (ss': seq<State>, es': seq<Event>)
    requires k == Key(0, 0) && IsRun(ss, es) && ss[|es|] == At([Idle, Idle, Idle, Idle], map[k := 0])
    ensures IsRun(ss', es') && ss'[|es'|] == At([OrphanOpened(k, 0), Idle, Idle, Idle], map[k := 0])
  {
    hide IsRun;
    ss', es' := Acts(ss, es, ScanOrphan(0, k),
      [Idle, Idle, Idle, Idle], map[k := 0],
      [OrphanScanned(k), Idle, Idle, Idle], map[k := 0]);
    ss', es' := Acts(ss', es', OrphanOpen(0, 0),
      [OrphanScanned(k), Idle, Idle, Idle], map[k := 0],
      [OrphanOpened(k, 0), Idle, Idle, Idle], map[k := 0]);
  }

  lemma SecondOrphanOpens(k: Key, ss: seq<State>, es: seq<Event>) returns (ss': seq<State>, es': seq<Event>)
    requires k == Key(0, 0) && IsRun(ss, es) && ss[|es|] == At([OrphanOpened(k, 0), Idle, Idle, Idle], map[k := 0])
    ensures IsRun(ss', es') && ss'[|es'|] == At([OrphanOpened(k, 0), OrphanOpened(k, 0), Idle, Idle], map[k := 0])
  {
    hide IsRun;
    ss', es' := Acts(ss, es, ScanOrphan(1, k),
      [OrphanOpened(k, 0), Idle, Idle, Idle], map[k := 0],
      [OrphanOpened(k, 0), OrphanScanned(k), Idle, Idle], map[k := 0]);
    ss', es' := Acts(ss', es', OrphanOpen(1, 0),
      [OrphanOpened(k, 0), OrphanScanned(k), Idle, Idle], map[k := 0],
      [OrphanOpened(k, 0), OrphanOpened(k, 0), Idle, Idle], map[k := 0]);
  }

  lemma SecondOrphanChecks(k: Key, ss: seq<State>, es: seq<Event>) returns (ss': seq<State>, es': seq<Event>)
    requires k == Key(0, 0) && IsRun(ss, es)
      && ss[|es|] == At([OrphanOpened(k, 0), OrphanOpened(k, 0), Idle, Idle], map[k := 0])
    ensures IsRun(ss', es') && ss'[|es'|] == At([OrphanOpened(k, 0), OrphanChecked(k, 0), Idle, Idle], map[k := 0])
  {
    hide IsRun;
    ss', es' := Acts(ss, es, OrphanTryLock(1),
      [OrphanOpened(k, 0), OrphanOpened(k, 0), Idle, Idle], map[k := 0],
      [OrphanOpened(k, 0), OrphanLocked(k, 0), Idle, Idle], map[k := 0]);
    ss', es' := Acts(ss', es', OrphanCheck(1),
      [OrphanOpened(k, 0), OrphanLocked(k, 0), Idle, Idle], map[k := 0],
      [OrphanOpened(k, 0), OrphanChecked(k, 0), Idle, Idle], map[k := 0]);
  }

  lemma SecondOrphanUnlinks(k: Key, ss: seq<State>, es: seq<Event>) returns (ss': seq<State>, es': seq<Event>)
    requires k == Key(0, 0) && IsRun(ss, es)
      && ss[|es|] == At([OrphanOpened(k, 0), OrphanChecked(k, 0), Idle, Idle], map[k := 0])
    ensures IsRun(ss', es') && ss'[|es'|] == At([OrphanOpened(k, 0), Unlocked(0), Idle, Idle], map[])
  {
    hide IsRun;
    ss', es' := Acts(ss, es, OrphanUnlink(1),
      [OrphanOpened(k, 0), OrphanChecked(k, 0), Idle, Idle], map[k := 0],
      [OrphanOpened(k, 0), Releasing(0), Idle, Idle], map[]);
    ss', es' := Acts(ss', es', Unlock(1),
      [OrphanOpened(k, 0), Releasing(0), Idle, Idle], map[],
      [OrphanOpened(k, 0), Unlocked(0), Idle, Idle], map[]);
  }

  lemma FirstRunOwns(k: Key, ss: seq<State>, es: seq<Event>) returns (ss': seq<State>, es': seq<Event>)
    requires k == Key(0, 0) && IsRun(ss, es) && ss[|es|] == At([OrphanOpened(k, 0), Unlocked(0), Idle, Idle], map[])
    ensures IsRun(ss', es') && ss'[|es'|] == At([OrphanOpened(k, 0), Unlocked(0), RunHolds(k, 1), Idle], map[k := 1])
  {
    hide IsRun;
    ss', es' := Acts(ss, es, RunOpen(2, k, 1),
      [OrphanOpened(k, 0), Unlocked(0), Idle, Idle], map[],
      [OrphanOpened(k, 0), Unlocked(0), RunOpened(k, 1), Idle], map[k := 1]);
    ss', es' := Acts(ss', es', RunLock(2),
      [OrphanOpened(k, 0), Unlocked(0), RunOpened(k, 1), Idle], map[k := 1],
      [OrphanOpened(k, 0), Unlocked(0), RunLocked(k, 1), Idle], map[k := 1]);
    ss', es' := Acts(ss', es', RunValidate(2),
      [OrphanOpened(k, 0), Unlocked(0), RunLocked(k, 1), Idle], map[k := 1],
      [OrphanOpened(k, 0), Unlocked(0), RunHolds(k, 1), Idle], map[k := 1]);
  }

  lemma FirstOrphanChecks(k: Key, ss: seq<State>, es: seq<Event>) returns (ss': seq<State>, es': seq<Event>)
    requires k == Key(0, 0) && IsRun(ss, es)
      && ss[|es|] == At([OrphanOpened(k, 0), Unlocked(0), RunHolds(k, 1), Idle], map[k := 1])
    ensures IsRun(ss', es') && ss'[|es'|] == At([OrphanChecked(k, 0), Unlocked(0), RunHolds(k, 1), Idle], map[k := 1])
  {
    hide IsRun;
    ss', es' := Acts(ss, es, OrphanTryLock(0),
      [OrphanOpened(k, 0), Unlocked(0), RunHolds(k, 1), Idle], map[k := 1],
      [OrphanLocked(k, 0), Unlocked(0), RunHolds(k, 1), Idle], map[k := 1]);
    ss', es' := Acts(ss', es', OrphanCheck(0),
      [OrphanLocked(k, 0), Unlocked(0), RunHolds(k, 1), Idle], map[k := 1],
      [OrphanChecked(k, 0), Unlocked(0), RunHolds(k, 1), Idle], map[k := 1]);
  }

  lemma FirstOrphanUnlinks(k: Key, ss: seq<State>, es: seq<Event>) returns (ss': seq<State>, es': seq<Event>)
    requires k == Key(0, 0) && IsRun(ss, es)
      && ss[|es|] == At([OrphanChecked(k, 0), Unlocked(0), RunHolds(k, 1), Idle], map[k := 1])
    ensures IsRun(ss', es')
      && ss'[|es'|] == At([Releasing(0), Unlocked(0), RunHolds(k, 1), RunOpened(k, 2)], map[k := 2])
  {
    hide IsRun;
    ss', es' := Acts(ss, es, OrphanUnlink(0),
      [OrphanChecked(k, 0), Unlocked(0), RunHolds(k, 1), Idle], map[k := 1],
      [Releasing(0), Unlocked(0), RunHolds(k, 1), Idle], map[]);
    ss', es' := Acts(ss', es', RunOpen(3, k, 2),
      [Releasing(0), Unlocked(0), RunHolds(k, 1), Idle], map[],
      [Releasing(0), Unlocked(0), RunHolds(k, 1), RunOpened(k, 2)], map[k := 2]);
  }

  lemma SecondRunOwns(k: Key, ss: seq<State>, es: seq<Event>) returns (ss': seq<State>, es': seq<Event>)
    requires k == Key(0, 0) && IsRun(ss, es)
      && ss[|es|] == At([Releasing(0), Unlocked(0), RunHolds(k, 1), RunOpened(k, 2)], map[k := 2])
    ensures IsRun(ss', es')
      && ss'[|es'|] == At([Releasing(0), Unlocked(0), RunHolds(k, 1), RunHolds(k, 2)], map[k := 2])
  {
    hide IsRun;
    ss', es' := Acts(ss, es, RunLock(3),
      [Releasing(0), Unlocked(0), RunHolds(k, 1), RunOpened(k, 2)], map[k := 2],
      [Releasing(0), Unlocked(0), RunHolds(k, 1), RunLocked(k, 2)], map[k := 2]);
    ss', es' := Acts(ss', es', RunValidate(3),
      [Releasing(0), Unlocked(0), RunHolds(k, 1), RunLocked(k, 2)], map[k := 2],
      [Releasing(0), Unlocked(0), RunHolds(k, 1), RunHolds(k, 2)], map[k := 2]);
  }

  /** A cache of the one key, without a binary. */
  ghost function At(procs: seq<Phase>, names: map<Key, Inode>): State {
    State(procs, names, map[], {0}, 0)
  }

  /** One process's step on such a cache. */
  lemma Acts(
      ss: seq<State>, es: seq<Event>, e: Event,
      procs: seq<Phase>, names: map<Key, Inode>, procs': seq<Phase>, names': map<Key, Inode>)
    returns (ss': seq<State>, es': seq<Event>)
    requires IsRun(ss, es) && ss[|es|] == At(procs, names) && !e.OfDir() && e.p < |procs|
    requires EnabledFor(At(procs, names), procs[e.p], e)
    requires procs' == procs[e.p := Became(At(procs, names), procs[e.p], e)]
    requires Update(At(procs, names), ChangeBy(At(procs, names), procs[e.p], e)) == At(procs, names')
    ensures IsRun(ss', es') && ss'[|es'|] == At(procs', names')
  {
    hide IsRun, EnabledFor, Became, ChangeBy;
    ss', es' := Then(ss, es, e, At(procs', names'));
  }

  lemma Then(ss: seq<State>, es: seq<Event>, e: Event, s: State) returns (ss': seq<State>, es': seq<Event>)
    requires IsRun(ss, es) && Enabled(ss[|es|], e) && Apply(ss[|es|], e) == s
    ensures IsRun(ss', es') && ss'[|es'|] == s
  {
    ss', es' := ss + [s], es + [e];
  }
}
