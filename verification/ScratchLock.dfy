module ScratchLock {
  /** The scratch directories of mutation drills as a protocol between processes.

      A drill locks the lock file of its key, checks that the path still names the
      file it locked and starts over when it does not, records the time, clears
      the directory and makes it anew; it keeps the lock open while it works. A
      prune locks the lock file of an old key the same way, moves the directory
      aside, removes the lock file under its own lock and deletes what it moved.
      Every system call is one step and a process may be killed between any two.
   */

  import opened Options

  type Key = nat
  type Inode = nat
  type Dir = nat
  type File = nat

  /** A scratch not used for this many seconds may be pruned. */
  const UNUSED: nat := 7 * 24 * 60 * 60

  /** A directory below the root: the scratch of a key, or where a prune moved one. */
  datatype Path = Scratch(k: Key) | Trash(k: Key, stamp: nat)

  /** Where a process stands between two system calls. */
  datatype Phase =
    | Idle
    // a drill in lockAt(path, true)
    | DrillStarts(key: Key)
    | DrillOpened(key: Key, lock: Inode)
    | DrillLocked(key: Key, lock: Inode)
    | DrillRefused(key: Key, lock: Inode)
    | DrillStale(key: Key, lock: Inode)
    | DrillRetries(key: Key, lock: Inode, granted: bool)
    | DrillLockless
    // a drill in OpenScratch, and after it
    | DrillHolds(key: Key, lock: Inode)
    | DrillClears(key: Key, lock: Inode)
    | DrillCleared(key: Key, lock: Inode)
    | DrillWorks(key: Key, lock: Inode, dir: Dir)
    // a prune, in lockAt(path, false) and after it
    | PruneSeen(key: Key)
    | PruneOpened(key: Key, lock: Inode)
    | PruneLocked(key: Key, lock: Inode)
    | PruneHolds(key: Key, lock: Inode)
    | PruneFoundOld(key: Key, lock: Inode, at: nat)
    | PruneMoved(key: Key, lock: Inode)
    // about to close the lock file and give up
    | Closing(lock: Inode, granted: bool)
  {
    predicate HasFile() {
      !Idle? && !DrillStarts? && !DrillLockless? && !PruneSeen?
    }

    predicate Opens(i: Inode) {
      HasFile() && lock == i
    }

    predicate Locks(i: Inode) {
      Opens(i) && !DrillOpened? && !DrillRefused? && !PruneOpened? && ((DrillRetries? || Closing?) ==> granted)
    }

    /** The process locked the key's lock file and found it at its path. */
    predicate Validated() {
      DrillHolds? || DrillClears? || DrillCleared? || DrillWorks? || PruneHolds? || PruneFoundOld? || PruneMoved?
    }

    predicate Owns(k: Key) {
      Validated() && key == k
    }
  }

  /** The shared tree under the root. A directory is known by identity, so that
      moving it is not confused with making it again; `used` records when a drill
      last entered its time on a key's lock file. */
  datatype Root = Root(
    names: map<Key, Inode>,
    mtime: map<Inode, nat>,
    tree: map<Path, Dir>,
    content: map<Dir, set<File>>,
    used: map<Key, nat>,
    clock: nat)
  {
    /** The lock path of k names i. */
    predicate Names(k: Key, i: Inode) {
      k in names && names[k] == i
    }

    function Files(d: Dir): set<File> {
      if d in content then content[d] else {}
    }

    /** How long ago the lock file's time is. */
    function Age(i: Inode): int {
      clock - if i in mtime then mtime[i] else 0
    }
  }

  datatype State = State(procs: seq<Phase>, root: Root) {
    /** No name and no open file refers to i, so a new file may be given it. */
    ghost predicate Unused(i: Inode) {
      (forall k <- root.names :: root.names[k] != i) && (forall p <- procs :: !p.Opens(i))
    }

    /** Nobody holds the advisory lock on i. */
    ghost predicate Free(i: Inode) {
      forall p <- procs :: !p.Locks(i)
    }
  }

  // ------------------------------------------------------------------ steps

  datatype Event =
    | Tick(now: nat)
    | TrashFileGone(path: Path, f: File)
    | TrashGone(path: Path)
    | Drill(p: nat, k: Key)
    | DrillOpen(p: nat, i: Inode)
    | DrillTryLock(p: nat)
    | DrillAsksName(p: nat)
    | DrillCloses(p: nat)
    | DrillTouches(p: nat, ok: bool)
    | DrillClearsFile(p: nat, f: File)
    | DrillClearsDir(p: nat)
    | DrillMakesDir(p: nat, d: Dir)
    | DrillWrites(p: nat, f: File)
    | DrillDeletes(p: nat, f: File)
    | DrillFails(p: nat)
    | PruneStat(p: nat, k: Key)
    | PruneOpen(p: nat)
    | PruneTryLock(p: nat)
    | PruneAsksName(p: nat)
    | PruneStatsLock(p: nat)
    | PruneMoves(p: nat, stamp: nat)
    | PruneUnlinks(p: nat, removed: bool)
    | Release(p: nat)
    | Killed(p: nat)
  {
    /** Nobody in particular takes the step: time passes, or somebody deletes
        what lies under a name prunes move things to. */
    predicate Ambient() {
      Tick? || TrashFileGone? || TrashGone?
    }

    predicate OfLockAt() {
      Drill? || DrillOpen? || DrillTryLock? || DrillAsksName? || DrillCloses?
    }

    predicate OfPrune() {
      PruneStat? || PruneOpen? || PruneTryLock? || PruneAsksName? || PruneStatsLock? || PruneMoves? || PruneUnlinks?
    }
  }

  ghost predicate Enabled(s: State, e: Event) {
    match e
    case Tick(now) => s.root.clock <= now
    case TrashFileGone(path, f) => path.Trash? && path in s.root.tree
    case TrashGone(path) => path.Trash? && path in s.root.tree && s.root.Files(s.root.tree[path]) == {}
    case _ => e.p < |s.procs| && EnabledFor(s, s.procs[e.p], e)
  }

  ghost predicate EnabledFor(s: State, me: Phase, e: Event)
    requires !e.Ambient()
  {
    match e
    case Drill(_, _) => me.Idle?
    case DrillOpen(_, i) => me.DrillStarts? && if me.key in s.root.names then i == s.root.names[me.key] else s.Unused(i)
    case DrillTryLock(_) => me.DrillOpened?
    case DrillAsksName(_) => me.DrillLocked? || me.DrillRefused? || me.DrillStale?
    case DrillCloses(_) => me.DrillRetries?
    case DrillTouches(_, ok) => me.DrillHolds? && (ok ==> me.key in s.root.names)
    case DrillClearsFile(_, _) => me.DrillClears? && Path.Scratch(me.key) in s.root.tree
    case DrillClearsDir(_) =>
      me.DrillClears? && (Path.Scratch(me.key) in s.root.tree ==> s.root.Files(s.root.tree[Path.Scratch(me.key)]) == {})
    case DrillMakesDir(_, d) => me.DrillCleared? && d !in s.root.tree.Values && d !in s.root.content
    case DrillWrites(_, _) => me.DrillWorks? && Path.Scratch(me.key) in s.root.tree
    case DrillDeletes(_, _) => me.DrillWorks? && Path.Scratch(me.key) in s.root.tree
    case DrillFails(_) => me.DrillClears? || me.DrillCleared?
    case PruneStat(_, k) => me.Idle? && k in s.root.names && s.root.Age(s.root.names[k]) >= UNUSED
    case PruneOpen(_) => me.PruneSeen?
    case PruneTryLock(_) => me.PruneOpened?
    case PruneAsksName(_) => me.PruneLocked?
    case PruneStatsLock(_) => me.PruneHolds?
    case PruneMoves(_, _) => me.PruneFoundOld?
    case PruneUnlinks(_, _) => me.PruneMoved?
    case Release(_) => me.Closing? || me.DrillWorks?
    case Killed(_) => true
  }

  /** The acting process's next phase. */
  ghost function Became(s: State, me: Phase, e: Event): Phase
    requires !e.Ambient() && EnabledFor(s, me, e)
  {
    match e
    case Drill(_, k) => DrillStarts(k)
    case DrillOpen(_, i) => DrillOpened(me.key, i)
    case DrillTryLock(_) => if s.Free(me.lock) then DrillLocked(me.key, me.lock) else DrillRefused(me.key, me.lock)
    case DrillAsksName(_) => Answered(s, me)
    case DrillCloses(_) => DrillStarts(me.key)
    case DrillTouches(_, _) => DrillClears(me.key, me.lock)
    case DrillClearsFile(_, _) => me
    case DrillClearsDir(_) => DrillCleared(me.key, me.lock)
    case DrillMakesDir(_, d) =>
      if Path.Scratch(me.key) in s.root.tree then Closing(me.lock, true) else DrillWorks(me.key, me.lock, d)
    case DrillWrites(_, _) => me
    case DrillDeletes(_, _) => me
    case DrillFails(_) => Closing(me.lock, true)
    case PruneStat(_, k) => PruneSeen(k)
    case PruneOpen(_) => if me.key in s.root.names then PruneOpened(me.key, s.root.names[me.key]) else Idle
    case PruneTryLock(_) => if s.Free(me.lock) then PruneLocked(me.key, me.lock) else Closing(me.lock, false)
    case PruneAsksName(_) =>
      if s.root.Names(me.key, me.lock) then PruneHolds(me.key, me.lock) else Closing(me.lock, true)
    case PruneStatsLock(_) =>
      if s.root.Age(me.lock) < UNUSED then Closing(me.lock, true) else PruneFoundOld(me.key, me.lock, s.root.clock)
    case PruneMoves(_, stamp) =>
      if CanMove(s, me.key, stamp) then PruneMoved(me.key, me.lock) else Closing(me.lock, true)
    case PruneUnlinks(_, _) => Closing(me.lock, true)
    case Release(_) => Idle
    case Killed(_) => Idle
  }

  /** lockAt asks for the name once after a refused lock and up to twice after a
      granted one; only the first answer to a granted lock can accept it. */
  ghost function Answered(s: State, me: Phase): Phase
    requires me.DrillLocked? || me.DrillRefused? || me.DrillStale?
  {
    if s.root.Names(me.key, me.lock) then
      if me.DrillLocked? then DrillHolds(me.key, me.lock)
      else if me.DrillRefused? then Closing(me.lock, false)
      else DrillLockless
    else
      if me.DrillLocked? then DrillStale(me.key, me.lock)
      else DrillRetries(me.key, me.lock, me.DrillStale?)
  }

  /** A rename that moves the directory away, or finds none: both let the prune
      go on to the lock file. It fails on a target that holds something. */
  ghost predicate CanMove(s: State, k: Key, stamp: nat) {
    Path.Scratch(k) in s.root.tree ==>
      Trash(k, stamp) !in s.root.tree || s.root.Files(s.root.tree[Trash(k, stamp)]) == {}
  }

  /** What a step does to the shared tree. */
  datatype Change =
    | NoChange
    | LockNamed(k: Key, i: Inode)
    | LockUnnamed(k: Key)
    | LockTouched(k: Key)
    | Filled(path: Path, files: set<File>)
    | Made(path: Path, d: Dir)
    | Removed(path: Path)
    | Moved(from: Path, to: Path)

  ghost function ChangeBy(s: State, me: Phase, e: Event): Change
    requires !e.Ambient() && EnabledFor(s, me, e)
  {
    match e
    case DrillOpen(_, i) => LockNamed(me.key, i)
    case DrillTouches(_, ok) => if ok then LockTouched(me.key) else NoChange
    case DrillClearsFile(_, f) => var d := Path.Scratch(me.key); Filled(d, s.root.Files(s.root.tree[d]) - {f})
    case DrillClearsDir(_) => Removed(Path.Scratch(me.key))
    case DrillMakesDir(_, d) =>
      if Path.Scratch(me.key) in s.root.tree then NoChange else Made(Path.Scratch(me.key), d)
    case DrillWrites(_, f) => var d := Path.Scratch(me.key); Filled(d, s.root.Files(s.root.tree[d]) + {f})
    case DrillDeletes(_, f) => var d := Path.Scratch(me.key); Filled(d, s.root.Files(s.root.tree[d]) - {f})
    case PruneMoves(_, stamp) =>
      if Path.Scratch(me.key) in s.root.tree && CanMove(s, me.key, stamp)
      then Moved(Path.Scratch(me.key), Trash(me.key, stamp)) else NoChange
    case PruneUnlinks(_, removed) => if removed then LockUnnamed(me.key) else NoChange
    case _ => NoChange
  }

  ghost function Update(r: Root, c: Change): Root {
    match c
    case NoChange => r
    case LockNamed(k, i) =>
      r.(names := r.names[k := i], mtime := if k in r.names then r.mtime else r.mtime[i := r.clock])
    case LockUnnamed(k) => r.(names := r.names - {k})
    case LockTouched(k) =>
      if k in r.names then r.(mtime := r.mtime[r.names[k] := r.clock], used := r.used[k := r.clock]) else r
    case Filled(path, files) => if path in r.tree then r.(content := r.content[r.tree[path] := files]) else r
    case Made(path, d) => r.(tree := r.tree[path := d], content := r.content[d := {}])
    case Removed(path) => r.(tree := r.tree - {path})
    case Moved(from, to) => if from in r.tree then r.(tree := (r.tree - {from})[to := r.tree[from]]) else r
  }

  ghost function Apply(s: State, e: Event): State
    requires Enabled(s, e)
  {
    match e
    case Tick(now) => s.(root := s.root.(clock := now))
    case TrashFileGone(path, f) =>
      s.(root := Update(s.root, Filled(path, s.root.Files(s.root.tree[path]) - {f})))
    case TrashGone(path) => s.(root := Update(s.root, Removed(path)))
    case _ =>
      State(s.procs[e.p := Became(s, s.procs[e.p], e)], Update(s.root, ChangeBy(s, s.procs[e.p], e)))
  }

  ghost predicate Init(s: State) {
    && (forall p <- s.procs :: p.Idle?)
    && Injective(s.root.names) && Injective(s.root.tree)
    && s.root.used == map[]
  }

  ghost predicate Injective<A, B>(m: map<A, B>) {
    forall a, b :: a in m && b in m && m[a] == m[b] ==> a == b
  }

  ghost predicate IsRun(ss: seq<State>, es: seq<Event>) {
    && |ss| == |es| + 1
    && Init(ss[0])
    && forall n {:trigger es[n]} :: 0 <= n < |es| ==> Enabled(ss[n], es[n]) && ss[n + 1] == Apply(ss[n], es[n])
  }

  // -------------------------------------------------------------- invariant

  ghost predicate PhaseOk(r: Root, me: Phase) {
    && (me.Validated() ==> r.Names(me.key, me.lock))
    && match me
       case DrillStale(k, i) => !r.Names(k, i)
       case DrillLockless => false
       case DrillCleared(k, _) => Path.Scratch(k) !in r.tree
       case DrillWorks(k, _, d) => Path.Scratch(k) in r.tree && r.tree[Path.Scratch(k)] == d
       case PruneFoundOld(k, _, at) => at <= r.clock && (k in r.used ==> r.used[k] + UNUSED <= at)
       case PruneMoved(k, _) => Path.Scratch(k) !in r.tree
       case _ => true
  }

  ghost predicate LocksExclude(procs: seq<Phase>) {
    forall p, q, i {:trigger procs[p].Locks(i), procs[q].Locks(i)} ::
      0 <= p < |procs| && 0 <= q < |procs| && procs[p].Locks(i) && procs[q].Locks(i) ==> p == q
  }

  /** No inode and no directory has two names, and a lock file's time is never
      before the last use of its key. */
  ghost predicate RootOk(r: Root) {
    Injective(r.names) && Injective(r.tree) && TimesOk(r)
  }

  ghost predicate TimesOk(r: Root) {
    && (forall k <- r.used :: r.used[k] <= r.clock)
    && (forall k <- r.used :: k in r.names ==> r.names[k] in r.mtime && r.used[k] <= r.mtime[r.names[k]])
  }

  ghost predicate Inv(s: State) {
    && RootOk(s.root)
    && LocksExclude(s.procs)
    && forall p :: 0 <= p < |s.procs| ==> PhaseOk(s.root, s.procs[p])
  }

  lemma OwnersCoincide(s: State, p: nat, q: nat, k: Key)
    requires Inv(s) && p < |s.procs| && q < |s.procs|
    requires s.procs[p].Owns(k) && s.procs[q].Owns(k)
    ensures p == q
  {
    assert PhaseOk(s.root, s.procs[p]) && PhaseOk(s.root, s.procs[q]);
    assert s.procs[p].Locks(s.root.names[k]) && s.procs[q].Locks(s.root.names[k]);
  }

  /** When a process may make a change: it gives a lock path the inode it has or
      an unused one, and touches everything else of a key only as its owner. */
  ghost predicate MayChange(s: State, me: Phase, c: Change) {
    match c
    case NoChange => true
    case LockNamed(k, i) => if k in s.root.names then i == s.root.names[k] else s.Unused(i)
    case LockUnnamed(k) => me.Owns(k)
    case LockTouched(k) => me.Owns(k)
    case Filled(path, _) => path.Scratch? && me.Owns(path.k)
    case Made(path, d) => path.Scratch? && me.Owns(path.k) && path !in s.root.tree && d !in s.root.tree.Values
    case Removed(path) => path.Scratch? && me.Owns(path.k)
    case Moved(from, to) => from.Scratch? && to.Trash? && me.Owns(from.k)
  }

  lemma StepsMayChange(s: State, e: Event)
    requires Inv(s) && Enabled(s, e) && !e.Ambient()
    ensures MayChange(s, s.procs[e.p], ChangeBy(s, s.procs[e.p], e))
  {
    assert PhaseOk(s.root, s.procs[e.p]);
  }

  /** Such a change leaves every other process's phase in order. */
  lemma ChangeKeepsOthers(s: State, p: nat, q: nat, c: Change)
    requires Inv(s) && p < |s.procs| && q < |s.procs| && p != q && MayChange(s, s.procs[p], c)
    ensures PhaseOk(Update(s.root, c), s.procs[q])
  {
    var him := s.procs[q];
    assert him in s.procs && PhaseOk(s.root, him);
    if him.Validated() && s.procs[p].Owns(him.key) {
      OwnersCoincide(s, p, q, him.key);
    }
  }

  lemma PutStaysInjective<A, B>(m: map<A, B>, a: A, b: B)
    requires Injective(m) && forall x <- m :: x == a || m[x] != b
    ensures Injective(m[a := b])
  {
  }

  lemma DropStaysInjective<A, B>(m: map<A, B>, a: A)
    requires Injective(m)
    ensures Injective(m - {a})
  {
    forall x, y | x in m - {a} && y in m - {a} && (m - {a})[x] == (m - {a})[y] ensures x == y {
      assert m[x] == m[y];
    }
  }

  lemma ChangeKeepsNames(s: State, me: Phase, c: Change)
    requires RootOk(s.root) && MayChange(s, me, c)
    ensures Injective(Update(s.root, c).names)
  {
    match c
    case LockNamed(k, i) => PutStaysInjective(s.root.names, k, i);
    case LockUnnamed(k) => DropStaysInjective(s.root.names, k);
    case _ =>
  }

  lemma ChangeKeepsPaths(s: State, me: Phase, c: Change)
    requires RootOk(s.root) && MayChange(s, me, c)
    ensures Injective(Update(s.root, c).tree)
  {
    var tree := s.root.tree;
    match c
    case Made(path, d) => PutStaysInjective(tree, path, d);
    case Removed(path) => DropStaysInjective(tree, path);
    case Moved(from, to) =>
      if from in tree {
        DropStaysInjective(tree, from);
        assert forall x <- tree - {from} :: tree[x] != tree[from];
        PutStaysInjective(tree - {from}, to, tree[from]);
      }
    case _ =>
  }

  lemma ChangeKeepsTimes(s: State, me: Phase, c: Change)
    requires RootOk(s.root) && MayChange(s, me, c)
    ensures TimesOk(Update(s.root, c))
  {
    if c.LockTouched? {
      assert forall x <- s.root.names :: x != c.k && c.k in s.root.names ==> s.root.names[x] != s.root.names[c.k];
    }
  }

  lemma ChangeKeepsRoot(s: State, me: Phase, c: Change)
    requires RootOk(s.root) && MayChange(s, me, c)
    ensures RootOk(Update(s.root, c))
  {
    hide Update, MayChange, Injective, TimesOk;
    ChangeKeepsNames(s, me, c);
    ChangeKeepsPaths(s, me, c);
    ChangeKeepsTimes(s, me, c);
  }

  lemma ActorStaysOk(s: State, e: Event)
    requires Inv(s) && Enabled(s, e) && !e.Ambient()
    ensures PhaseOk(Update(s.root, ChangeBy(s, s.procs[e.p], e)), Became(s, s.procs[e.p], e))
  {
    hide Inv, PhaseOk, EnabledFor, Became, ChangeBy, Update, Event.OfLockAt, Event.OfPrune;
    if e.OfLockAt() {
      LockAtStaysOk(s, e);
    } else if e.OfPrune() {
      PruneStaysOk(s, e);
    } else {
      DrillStaysOk(s, e);
    }
  }

  lemma LockAtStaysOk(s: State, e: Event)
    requires Inv(s) && Enabled(s, e) && !e.Ambient() && e.OfLockAt()
    ensures PhaseOk(Update(s.root, ChangeBy(s, s.procs[e.p], e)), Became(s, s.procs[e.p], e))
  {
    hide LocksExclude, RootOk, State.Free, State.Unused;
    assert PhaseOk(s.root, s.procs[e.p]);
  }

  lemma PruneStaysOk(s: State, e: Event)
    requires Inv(s) && Enabled(s, e) && !e.Ambient() && e.OfPrune()
    ensures PhaseOk(Update(s.root, ChangeBy(s, s.procs[e.p], e)), Became(s, s.procs[e.p], e))
  {
    hide LocksExclude, Injective, State.Free, State.Unused;
    assert PhaseOk(s.root, s.procs[e.p]);
  }

  lemma DrillStaysOk(s: State, e: Event)
    requires Inv(s) && Enabled(s, e) && !e.Ambient() && !e.OfLockAt() && !e.OfPrune()
    ensures PhaseOk(Update(s.root, ChangeBy(s, s.procs[e.p], e)), Became(s, s.procs[e.p], e))
  {
    hide LocksExclude, RootOk, State.Free, State.Unused;
    assert PhaseOk(s.root, s.procs[e.p]);
  }

  /** The inode whose lock a process has been granted. */
  ghost function Grant(me: Phase): (g: Option<Inode>)
    ensures forall i: Inode :: me.Locks(i) <==> g == Some(i)
  {
    if me.HasFile() && me.Locks(me.lock) then Some(me.lock) else None
  }

  lemma GrantsAreFree(s: State, me: Phase, e: Event)
    requires !e.Ambient() && EnabledFor(s, me, e)
    ensures var g := Grant(Became(s, me, e)); g == None || g == Grant(me) || s.Free(g.value)
  {
  }

  lemma LocksStayExclusive(s: State, p: nat, me: Phase)
    requires LocksExclude(s.procs) && p < |s.procs|
    requires Grant(me) == None || Grant(me) == Grant(s.procs[p]) || s.Free(Grant(me).value)
    ensures LocksExclude(s.procs[p := me])
  {
    forall q | 0 <= q < |s.procs| && q != p && Grant(me).Some? ensures !s.procs[q].Locks(Grant(me).value) {
      assert s.procs[q] in s.procs;
      assert Grant(me) == Grant(s.procs[p]) ==> s.procs[p].Locks(Grant(me).value);
    }
  }

  lemma AmbientKeepsInv(s: State, e: Event)
    requires Inv(s) && Enabled(s, e) && e.Ambient()
    ensures Inv(Apply(s, e))
  {
    if e.TrashGone? {
      DropStaysInjective(s.root.tree, e.path);
    }
    forall p | 0 <= p < |s.procs| ensures PhaseOk(Apply(s, e).root, s.procs[p]) {
      assert PhaseOk(s.root, s.procs[p]);
    }
  }

  lemma StepKeepsInv(s: State, e: Event)
    requires Inv(s) && Enabled(s, e)
    ensures Inv(Apply(s, e))
  {
    hide Inv, Apply, Enabled;
    if e.Ambient() {
      AmbientKeepsInv(s, e);
    } else {
      ProcStepKeepsInv(s, e);
    }
  }

  lemma ProcStepKeepsInv(s: State, e: Event)
    requires Inv(s) && Enabled(s, e) && !e.Ambient()
    ensures Inv(Apply(s, e))
  {
    hide Became, ChangeBy, EnabledFor, Update, PhaseOk, MayChange, Injective, TimesOk, LocksExclude;
    var s', me := Apply(s, e), s.procs[e.p];
    var c := ChangeBy(s, me, e);
    StepsMayChange(s, e);
    ChangeKeepsRoot(s, me, c);
    GrantsAreFree(s, me, e);
    LocksStayExclusive(s, e.p, Became(s, me, e));
    ActorStaysOk(s, e);
    forall q | 0 <= q < |s'.procs| && q != e.p ensures PhaseOk(s'.root, s'.procs[q]) {
      ChangeKeepsOthers(s, e.p, q, c);
    }
  }

  // ------------------------------------------------------------ over a run

  lemma {:induction false} RunKeepsInv(ss: seq<State>, es: seq<Event>, n: nat)
    requires IsRun(ss, es) && n < |ss|
    ensures Inv(ss[n])
  {
    if n == 0 {
      assert forall p :: 0 <= p < |ss[0].procs| ==> ss[0].procs[p] in ss[0].procs;
    } else {
      RunKeepsInv(ss, es, n - 1);
      var e := es[n - 1];
      StepKeepsInv(ss[n - 1], e);
    }
  }

  /** At most one process, drill or prune, holds a validated lock for a key. */
  lemma ValidatedLocksExclude(ss: seq<State>, es: seq<Event>, n: nat, p: nat, q: nat, k: Key)
    requires IsRun(ss, es) && n < |ss|
    requires p < |ss[n].procs| && q < |ss[n].procs|
    requires ss[n].procs[p].Owns(k) && ss[n].procs[q].Owns(k)
    ensures p == q
  {
    RunKeepsInv(ss, es, n);
    OwnersCoincide(ss[n], p, q, k);
  }

  /** lockAt never reports success without a file: a lock file that was gone
      once after the lock was granted is still gone when it is asked for again. */
  lemma LockAtReturnsFileOrError(ss: seq<State>, es: seq<Event>, n: nat, p: nat)
    requires IsRun(ss, es) && n < |ss| && p < |ss[n].procs|
    ensures !ss[n].procs[p].DrillLockless?
  {
    RunKeepsInv(ss, es, n);
    assert PhaseOk(ss[n].root, ss[n].procs[p]);
  }

  /** The path of a validated lock names the inode it was validated for, and no
      step of anyone else changes that. */
  lemma ValidatedPathKeepsNaming(ss: seq<State>, es: seq<Event>, n: nat, p: nat)
    requires IsRun(ss, es) && n < |es| && p < |ss[n].procs| && ss[n].procs[p].Validated()
    requires es[n].Ambient() || es[n].p != p
    ensures ss[n].root.Names(ss[n].procs[p].key, ss[n].procs[p].lock)
    ensures ss[n + 1].root.Names(ss[n].procs[p].key, ss[n].procs[p].lock)
  {
    hide RootOk, LocksExclude, Became, ChangeBy, EnabledFor, Update;
    RunKeepsInv(ss, es, n);
    RunKeepsInv(ss, es, n + 1);
    assert PhaseOk(ss[n].root, ss[n].procs[p]) && PhaseOk(ss[n + 1].root, ss[n + 1].procs[p]);
  }

  lemma ChangeSparesWorkedScratch(s: State, c: Change, p: nat, q: nat)
    requires Inv(s) && p < |s.procs| && q < |s.procs| && p != q && MayChange(s, s.procs[q], c)
    requires s.procs[p].DrillWorks?
    ensures var me, r := s.procs[p], Update(s.root, c);
      && Path.Scratch(me.key) in r.tree && r.tree[Path.Scratch(me.key)] == me.dir
      && r.Files(me.dir) == s.root.Files(me.dir)
  {
    hide LocksExclude, TimesOk;
    var me := s.procs[p];
    assert PhaseOk(s.root, me);
    if s.procs[q].Owns(me.key) {
      OwnersCoincide(s, p, q, me.key);
    }
  }

  /** A step of anyone else leaves a working drill's scratch and its files alone. */
  lemma StepSparesWorkedScratch(s: State, e: Event, p: nat)
    requires Inv(s) && Enabled(s, e) && p < |s.procs| && s.procs[p].DrillWorks? && (e.Ambient() || e.p != p)
    ensures var me, r := s.procs[p], Apply(s, e).root;
      && Path.Scratch(me.key) in r.tree && r.tree[Path.Scratch(me.key)] == me.dir
      && r.Files(me.dir) == s.root.Files(me.dir)
  {
    hide Became, EnabledFor, ChangeBy, MayChange, LocksExclude, TimesOk;
    if e.Ambient() {
      assert PhaseOk(s.root, s.procs[p]);
    } else {
      hide Inv, PhaseOk, Update;
      StepsMayChange(s, e);
      ChangeSparesWorkedScratch(s, ChangeBy(s, s.procs[e.p], e), p, e.p);
    }
  }

  /** While a drill works, no step of anyone else, no prune in particular, moves
      or deletes its scratch or changes what is in it. */
  lemma WorkedScratchIsStable(ss: seq<State>, es: seq<Event>, n: nat, p: nat)
    requires IsRun(ss, es) && n < |es| && p < |ss[n].procs| && ss[n].procs[p].DrillWorks?
    requires es[n].Ambient() || es[n].p != p
    ensures var me, r := ss[n].procs[p], ss[n + 1].root;
      && Path.Scratch(me.key) in r.tree && r.tree[Path.Scratch(me.key)] == me.dir
      && r.Files(me.dir) == ss[n].root.Files(me.dir)
  {
    hide Apply, Inv;
    RunKeepsInv(ss, es, n);
    var e := es[n];
    StepSparesWorkedScratch(ss[n], e, p);
  }

  /** The only steps of its own a drill goes on working after are writes and deletes. */
  lemma OwnStepWrites(s: State, e: Event, k: Key, i: Inode, d: Dir)
    requires Inv(s) && Enabled(s, e) && !e.Ambient()
    requires s.procs[e.p] == DrillWorks(k, i, d) == Apply(s, e).procs[e.p]
    ensures Path.Scratch(k) in Apply(s, e).root.tree && Apply(s, e).root.tree[Path.Scratch(k)] == d
    ensures Apply(s, e).root.Files(d)
         == match e
            case DrillWrites(_, f) => s.root.Files(d) + {f}
            case DrillDeletes(_, f) => s.root.Files(d) - {f}
            case _ => s.root.Files(d)
  {
    assert PhaseOk(s.root, s.procs[e.p]);
  }

  /** From OpenScratch's return to the release the scratch is one directory, empty
      at first and then holding what its own drill put there. */
  lemma {:induction false} ScratchHoldsOnlyItsDrillsFiles(
    ss: seq<State>, es: seq<Event>, m: nat, n: nat, p: nat, k: Key, i: Inode, d: Dir)
    requires IsRun(ss, es) && 0 < m <= n < |ss|
    requires es[m - 1] == DrillMakesDir(p, d)
    requires forall j :: m <= j <= n ==> p < |ss[j].procs| && ss[j].procs[p] == DrillWorks(k, i, d)
    ensures Path.Scratch(k) in ss[n].root.tree && ss[n].root.tree[Path.Scratch(k)] == d
    ensures ss[n].root.Files(d) == Written(es[m..n], p)
  {
    hide Apply, Inv, Enabled, Wrote;
    RunKeepsInv(ss, es, n - 1);
    var s, e := ss[n - 1], es[n - 1];
    assert Enabled(s, e) && ss[n] == Apply(s, e);
    hide IsRun;
    if m == n {
      MadeScratchIsEmpty(s, p, d);
    } else {
      ScratchHoldsOnlyItsDrillsFiles(ss, es, m, n - 1, p, k, i, d);
      assert es[m..n] == es[m..n - 1] + [e];
      WorkedScratchStep(s, e, p, k, i, d);
    }
  }

  lemma WorkedScratchStep(s: State, e: Event, p: nat, k: Key, i: Inode, d: Dir)
    requires Inv(s) && Enabled(s, e) && p < |s.procs| && s.procs[p] == DrillWorks(k, i, d)
    requires p < |Apply(s, e).procs| && Apply(s, e).procs[p] == DrillWorks(k, i, d)
    ensures var r := Apply(s, e).root;
      && Path.Scratch(k) in r.tree && r.tree[Path.Scratch(k)] == d
      && r.Files(d) == Wrote(s.root.Files(d), e, p)
  {
    hide Apply, Inv, Enabled;
    if e.Ambient() || e.p != p {
      StepSparesWorkedScratch(s, e, p);
    } else {
      OwnStepWrites(s, e, k, i, d);
    }
  }

  lemma MadeScratchIsEmpty(s: State, p: nat, d: Dir)
    requires Inv(s) && Enabled(s, DrillMakesDir(p, d))
    ensures var t := Apply(s, DrillMakesDir(p, d)); t.procs[p].DrillWorks? ==>
      Path.Scratch(t.procs[p].key) in t.root.tree && t.root.tree[Path.Scratch(t.procs[p].key)] == d
        && t.root.Files(d) == {}
  {
  }

  /** The files a drill's own writes and deletes leave. */
  ghost function Written(es: seq<Event>, p: nat): set<File> {
    if es == [] then {} else Wrote(Written(es[..|es| - 1], p), es[|es| - 1], p)
  }

  ghost function Wrote(files: set<File>, e: Event, p: nat): set<File> {
    match e
    case DrillWrites(q, f) => if q == p then files + {f} else files
    case DrillDeletes(q, f) => if q == p then files - {f} else files
    case _ => files
  }

  /** A prune that moves a scratch away found, while it held the key's lock, that
      no drill had entered its time for a week; none has since. */
  lemma OnlyUnusedScratchesArePruned(ss: seq<State>, es: seq<Event>, n: nat, p: nat)
    requires IsRun(ss, es) && n < |ss| && p < |ss[n].procs| && ss[n].procs[p].PruneFoundOld?
    ensures ss[n].procs[p].key in ss[n].root.used ==> ss[n].root.used[ss[n].procs[p].key] + UNUSED <= ss[n].root.clock
    ensures forall q :: 0 <= q < |ss[n].procs| && ss[n].procs[q].DrillWorks? ==>
      ss[n].procs[q].key != ss[n].procs[p].key
  {
    RunKeepsInv(ss, es, n);
    assert PhaseOk(ss[n].root, ss[n].procs[p]);
    forall q | 0 <= q < |ss[n].procs| && ss[n].procs[q].DrillWorks? && ss[n].procs[q].key == ss[n].procs[p].key
      ensures false
    {
      ValidatedLocksExclude(ss, es, n, p, q, ss[n].procs[p].key);
    }
  }
}
