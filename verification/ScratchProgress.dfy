module ScratchProgress {
  /** What the scratch protocol gets done: a drill whose key nobody else touches opens an
      empty scratch, and a prune of a scratch unused for a week removes it, whatever else
      happens in between. */

  import opened ScratchLock

  predicate By(e: Event, p: nat) {
    !e.Ambient() && e.p == p
  }

  /** The steps of process p from m to n. */
  function Own(es: seq<Event>, m: nat, n: nat, p: nat): seq<Event>
    requires n <= |es|
    decreases n
  {
    if n <= m then [] else Own(es, m, n - 1, p) + if By(es[n - 1], p) then [es[n - 1]] else []
  }

  /** The key's lock file with its time, and its scratch with its files, are the same. */
  ghost predicate SameKey(r: Root, t: Root, k: Key) {
    && SameLock(r, t, k)
    && (Path.Scratch(k) in r.tree <==> Path.Scratch(k) in t.tree)
    && (Path.Scratch(k) in r.tree ==>
          t.tree[Path.Scratch(k)] == r.tree[Path.Scratch(k)]
          && t.Files(t.tree[Path.Scratch(k)]) == r.Files(r.tree[Path.Scratch(k)]))
  }

  ghost predicate SameLock(r: Root, t: Root, k: Key) {
    && (k in r.names <==> k in t.names)
    && (k in r.names ==> t.names[k] == r.names[k] && r.Age(r.names[k]) <= t.Age(r.names[k]))
  }

  ghost predicate OthersDoNotLock(s: State, p: nat, i: Inode) {
    forall q :: 0 <= q < |s.procs| && q != p ==> !s.procs[q].Locks(i)
  }

  /** From m to n nobody else changes these or locks the inode. */
  ghost predicate LeftAlone(ss: seq<State>, es: seq<Event>, m: nat, n: nat, p: nat, k: Key, i: Inode)
    requires n <= |es| < |ss|
  {
    && (forall j {:trigger es[j]} :: m <= j < n && !By(es[j], p) ==> SameKey(ss[j].root, ss[j + 1].root, k))
    && (forall j :: m <= j <= n ==> OthersDoNotLock(ss[j], p, i))
  }

  lemma LeftAloneAtEnd(ss: seq<State>, es: seq<Event>, m: nat, n: nat, p: nat, k: Key, i: Inode)
    requires n <= |es| < |ss| && LeftAlone(ss, es, m, n, p, k, i) && m <= n
    ensures OthersDoNotLock(ss[n], p, i)
  {
  }

  lemma RunSteps(ss: seq<State>, es: seq<Event>, n: nat)
    requires IsRun(ss, es) && n < |es|
    ensures |ss| == |es| + 1 && Enabled(ss[n], es[n]) && ss[n + 1] == Apply(ss[n], es[n])
  {
    var e := es[n];
  }

  lemma OthersKeepPhase(s: State, e: Event, p: nat)
    requires Enabled(s, e) && !By(e, p) && p < |s.procs|
    ensures var t := Apply(s, e); |t.procs| == |s.procs| && t.procs[p] == s.procs[p]
  {
    hide EnabledFor, Became, ChangeBy, Update;
  }

  // ------------------------------------------------------------------- a prune

  /** A prune stats a lock file that has not been used for seven days, and no other. */
  lemma PruneStatsAfterAWeek(s: State, p: nat, k: Key)
    requires p < |s.procs| && s.procs[p].Idle? && k in s.root.names
    ensures Enabled(s, PruneStat(p, k)) <==> s.root.Age(s.root.names[k]) >= 7 * 24 * 3600
  {
  }

  /** What a prune goes on to after that. */
  function PruneSteps(p: nat, stamp: nat): seq<Event> {
    [PruneOpen(p), PruneTryLock(p), PruneAsksName(p), PruneStatsLock(p), PruneMoves(p, stamp), PruneUnlinks(p, true),
     Release(p)]
  }

  /** A prune that has taken c of these steps. */
  ghost predicate PruneAt(s: State, p: nat, k: Key, i: Inode, c: nat) {
    && p < |s.procs| && c <= 7
    && (c <= 5 ==> s.root.Names(k, i))
    && (c <= 3 ==> s.root.Age(i) >= 7 * 24 * 3600)
    && (c >= 5 ==> Path.Scratch(k) !in s.root.tree)
    && (c >= 6 ==> k !in s.root.names)
    && match c
       case 0 => s.procs[p] == PruneSeen(k)
       case 1 => s.procs[p] == PruneOpened(k, i)
       case 2 => s.procs[p] == PruneLocked(k, i)
       case 3 => s.procs[p] == PruneHolds(k, i)
       case 4 => s.procs[p].PruneFoundOld? && s.procs[p].key == k && s.procs[p].lock == i
       case 5 => s.procs[p] == PruneMoved(k, i)
       case 6 => s.procs[p] == Closing(i, true)
       case _ => s.procs[p] == Idle
  }

  lemma PruneStep(s: State, p: nat, k: Key, i: Inode, stamp: nat, c: nat)
    requires PruneAt(s, p, k, i, c) && c < 7 && OthersDoNotLock(s, p, i)
    ensures var e := PruneSteps(p, stamp)[c];
      Enabled(s, e) && (c != 4 || Path.Trash(k, stamp) !in s.root.tree ==> PruneAt(Apply(s, e), p, k, i, c + 1))
  {
    hide State.Unused, State.Free, PruneAt, EnabledFor, Became, ChangeBy, Update, OthersDoNotLock;
    if c <= 1 {
      PruneComesIn(s, p, k, i, stamp, c);
    } else if c <= 3 {
      PruneLooks(s, p, k, i, stamp, c);
    } else if c == 4 {
      PruneMovesAway(s, p, k, i, stamp);
    } else {
      PruneEnds(s, p, k, i, stamp, c);
    }
  }

  lemma PruneComesIn(s: State, p: nat, k: Key, i: Inode, stamp: nat, c: nat)
    requires PruneAt(s, p, k, i, c) && c <= 1 && OthersDoNotLock(s, p, i)
    ensures var e := PruneSteps(p, stamp)[c]; Enabled(s, e) && PruneAt(Apply(s, e), p, k, i, c + 1)
  {
    hide State.Unused, CanMove;
    if c == 1 {
      assert s.Free(i);
    }
  }

  lemma PruneLooks(s: State, p: nat, k: Key, i: Inode, stamp: nat, c: nat)
    requires PruneAt(s, p, k, i, c) && 2 <= c <= 3
    ensures var e := PruneSteps(p, stamp)[c]; Enabled(s, e) && PruneAt(Apply(s, e), p, k, i, c + 1)
  {
    hide State.Unused, State.Free, CanMove;
  }

  lemma PruneMovesAway(s: State, p: nat, k: Key, i: Inode, stamp: nat)
    requires PruneAt(s, p, k, i, 4)
    ensures var e := PruneSteps(p, stamp)[4];
      Enabled(s, e) && (Path.Trash(k, stamp) !in s.root.tree ==> PruneAt(Apply(s, e), p, k, i, 5))
  {
    hide State.Unused, State.Free, Root.Age;
  }

  lemma PruneEnds(s: State, p: nat, k: Key, i: Inode, stamp: nat, c: nat)
    requires PruneAt(s, p, k, i, c) && 5 <= c < 7
    ensures var e := PruneSteps(p, stamp)[c]; Enabled(s, e) && PruneAt(Apply(s, e), p, k, i, c + 1)
  {
    hide State.Unused, State.Free, Root.Age, CanMove;
  }

  lemma PruneWaits(s: State, e: Event, p: nat, k: Key, i: Inode, c: nat)
    requires PruneAt(s, p, k, i, c) && Enabled(s, e) && !By(e, p) && SameKey(s.root, Apply(s, e).root, k)
    ensures PruneAt(Apply(s, e), p, k, i, c)
  {
    hide Enabled, Apply, Root.Files, Root.Age;
    OthersKeepPhase(s, e, p);
  }

  /** The name the prune moves to is free when it does. */
  ghost predicate TrashIsFree(ss: seq<State>, es: seq<Event>, m: nat, n: nat, p: nat, k: Key, stamp: nat)
    requires n <= |es| < |ss|
  {
    forall j :: m <= j < n && es[j] == PruneMoves(p, stamp) ==> Path.Trash(k, stamp) !in ss[j].root.tree
  }

  lemma {:induction false} PruneStage(
      ss: seq<State>, es: seq<Event>, m: nat, n: nat, p: nat, k: Key, i: Inode, stamp: nat, c: nat)
    requires IsRun(ss, es) && |ss| == |es| + 1 && m < n <= |es| && es[m] == PruneStat(p, k)
    requires ss[m].root.Names(k, i) && LeftAlone(ss, es, m + 1, n, p, k, i)
    requires TrashIsFree(ss, es, m + 1, n, p, k, stamp)
    requires c <= 7 && Own(es, m + 1, n, p) == PruneSteps(p, stamp)[..c]
    ensures PruneAt(ss[n], p, k, i, c)
    decreases n
  {
    hide IsRun, PruneAt, PruneSteps, Enabled, Apply, SameKey, OthersDoNotLock;
    RunSteps(ss, es, n - 1);
    var s, e := ss[n - 1], es[n - 1];
    var steps := PruneSteps(p, stamp);
    SevenSteps(p, stamp);
    if n == m + 1 {
      PruneStarts(s, p, k, i, c);
    } else if By(e, p) {
      assert c > 0 && Own(es, m + 1, n - 1, p) == steps[..c - 1] && e == steps[c - 1] by {
        assert steps[..c][..c - 1] == steps[..c - 1] && steps[..c][c - 1] == steps[c - 1];
      }
      PruneStage(ss, es, m, n - 1, p, k, i, stamp, c - 1);
      PruneStep(s, p, k, i, stamp, c - 1);
    } else {
      PruneStage(ss, es, m, n - 1, p, k, i, stamp, c);
      PruneWaits(s, e, p, k, i, c);
    }
  }

  lemma SevenSteps(p: nat, stamp: nat)
    ensures |PruneSteps(p, stamp)| == 7 && PruneSteps(p, stamp)[4] == PruneMoves(p, stamp)
  {
  }

  lemma PruneStarts(s: State, p: nat, k: Key, i: Inode, c: nat)
    requires Enabled(s, PruneStat(p, k)) && s.root.Names(k, i) && c == 0
    ensures PruneAt(Apply(s, PruneStat(p, k)), p, k, i, c)
  {
  }

  /** A prune whose key nobody else touches can always go on, and has removed the scratch
      and its lock file when it has taken its steps. */
  lemma UndisturbedPruneRemoves(
      ss: seq<State>, es: seq<Event>, m: nat, n: nat, p: nat, k: Key, i: Inode, stamp: nat, c: nat)
    requires IsRun(ss, es) && |ss| == |es| + 1 && m < n <= |es| && es[m] == PruneStat(p, k)
    requires ss[m].root.Names(k, i) && LeftAlone(ss, es, m + 1, n, p, k, i)
    requires TrashIsFree(ss, es, m + 1, n, p, k, stamp)
    requires c <= 7 && Own(es, m + 1, n, p) == PruneSteps(p, stamp)[..c]
    ensures c < 7 ==> Enabled(ss[n], PruneSteps(p, stamp)[c])
    ensures c >= 5 ==> Path.Scratch(k) !in ss[n].root.tree
    ensures c >= 6 ==> k !in ss[n].root.names
    ensures c == 7 ==> p < |ss[n].procs| && ss[n].procs[p].Idle?
  {
    hide IsRun, LeftAlone, Own, Enabled, PruneSteps, TrashIsFree;
    PruneStage(ss, es, m, n, p, k, i, stamp, c);
    if c < 7 {
      LeftAloneAtEnd(ss, es, m + 1, n, p, k, i);
      SevenSteps(p, stamp);
      PruneStep(ss[n], p, k, i, stamp, c);
    }
  }

  // ------------------------------------------------------------------- a drill

  /** A drill that finds its lock free, clears these files and makes its scratch anew. */
  function DrillStepAt(p: nat, k: Key, i: Inode, files: seq<File>, d: Dir, c: nat): Event {
    if c == 0 then Drill(p, k)
    else if c == 1 then DrillOpen(p, i)
    else if c == 2 then DrillTryLock(p)
    else if c == 3 then DrillAsksName(p)
    else if c == 4 then DrillTouches(p, true)
    else if c < 5 + |files| then DrillClearsFile(p, files[c - 5])
    else if c == 5 + |files| then DrillClearsDir(p)
    else DrillMakesDir(p, d)
  }

  /** Its first c steps. */
  function DrillPlan(p: nat, k: Key, i: Inode, files: seq<File>, d: Dir, c: nat): seq<Event> {
    if c == 0 then [] else DrillPlan(p, k, i, files, d, c - 1) + [DrillStepAt(p, k, i, files, d, c - 1)]
  }

  function Listed(files: seq<File>): set<File> {
    set f | f in files
  }

  /** No other files are in the scratch, and none is listed of a scratch not there. */
  ghost predicate Lists(r: Root, k: Key, files: seq<File>) {
    if Path.Scratch(k) in r.tree then r.Files(r.tree[Path.Scratch(k)]) <= Listed(files) else files == []
  }

  /** A drill that has taken c of these steps. */
  ghost predicate DrillAt(s: State, p: nat, k: Key, i: Inode, files: seq<File>, d: Dir, c: nat) {
    && p < |s.procs| && c <= 7 + |files|
    && (c >= 2 ==> s.root.Names(k, i))
    && (c <= 4 ==> Lists(s.root, k, files))
    && (5 <= c <= 5 + |files| ==> Lists(s.root, k, files[c - 5..]))
    && (c == 6 + |files| ==> Path.Scratch(k) !in s.root.tree)
    && (c == 7 + |files| ==>
          Path.Scratch(k) in s.root.tree && s.root.tree[Path.Scratch(k)] == d && s.root.Files(d) == {})
    && s.procs[p] == if c == 0 then Idle
                     else if c == 1 then DrillStarts(k)
                     else if c == 2 then DrillOpened(k, i)
                     else if c == 3 then DrillLocked(k, i)
                     else if c == 4 then DrillHolds(k, i)
                     else if c <= 5 + |files| then DrillClears(k, i)
                     else if c == 6 + |files| then DrillCleared(k, i)
                     else DrillWorks(k, i, d)
  }

  lemma DrillStep(s: State, p: nat, k: Key, i: Inode, files: seq<File>, d: Dir, c: nat)
    requires DrillAt(s, p, k, i, files, d, c) && c < 7 + |files| && OthersDoNotLock(s, p, i)
    requires (c == 1 || c == 6 + |files|) ==> Enabled(s, DrillStepAt(p, k, i, files, d, c))
    ensures var e := DrillStepAt(p, k, i, files, d, c);
      Enabled(s, e) && DrillAt(Apply(s, e), p, k, i, files, d, c + 1)
  {
    hide DrillAt, EnabledFor, Became, ChangeBy, Update, OthersDoNotLock;
    if c <= 4 {
      DrillComesIn(s, p, k, i, files, d, c);
    } else if c < 5 + |files| {
      DrillClearsOne(s, p, k, i, files, d, c);
    } else {
      DrillOpensAnew(s, p, k, i, files, d, c);
    }
  }

  lemma DrillComesIn(s: State, p: nat, k: Key, i: Inode, files: seq<File>, d: Dir, c: nat)
    requires DrillAt(s, p, k, i, files, d, c) && c <= 4 && OthersDoNotLock(s, p, i)
    requires c == 1 ==> Enabled(s, DrillStepAt(p, k, i, files, d, c))
    ensures var e := DrillStepAt(p, k, i, files, d, c);
      Enabled(s, e) && DrillAt(Apply(s, e), p, k, i, files, d, c + 1)
  {
    hide State.Unused;
    if c == 2 {
      assert s.Free(i);
    }
    assert files[0..] == files;
  }

  lemma DrillClearsOne(s: State, p: nat, k: Key, i: Inode, files: seq<File>, d: Dir, c: nat)
    requires DrillAt(s, p, k, i, files, d, c) && 5 <= c < 5 + |files|
    ensures var e := DrillStepAt(p, k, i, files, d, c);
      Enabled(s, e) && DrillAt(Apply(s, e), p, k, i, files, d, c + 1)
  {
    hide State.Unused, State.Free;
    var rest := files[c - 5..];
    assert files[c - 4..] == rest[1..] && rest == [rest[0]] + rest[1..];
  }

  lemma DrillOpensAnew(s: State, p: nat, k: Key, i: Inode, files: seq<File>, d: Dir, c: nat)
    requires DrillAt(s, p, k, i, files, d, c) && 5 + |files| <= c < 7 + |files|
    requires c == 6 + |files| ==> Enabled(s, DrillStepAt(p, k, i, files, d, c))
    ensures var e := DrillStepAt(p, k, i, files, d, c);
      Enabled(s, e) && DrillAt(Apply(s, e), p, k, i, files, d, c + 1)
  {
    hide State.Unused, State.Free;
  }

  lemma DrillWaits(s: State, e: Event, p: nat, k: Key, i: Inode, files: seq<File>, d: Dir, c: nat)
    requires DrillAt(s, p, k, i, files, d, c) && Enabled(s, e) && !By(e, p) && SameKey(s.root, Apply(s, e).root, k)
    ensures DrillAt(Apply(s, e), p, k, i, files, d, c)
  {
    hide Enabled, Apply, Root.Files, Root.Age;
    OthersKeepPhase(s, e, p);
  }

  lemma {:induction false} DrillStage(
      ss: seq<State>, es: seq<Event>, m: nat, n: nat, p: nat, k: Key, i: Inode, files: seq<File>, d: Dir, c: nat)
    requires IsRun(ss, es) && |ss| == |es| + 1 && m <= n <= |es| && p < |ss[m].procs| && ss[m].procs[p].Idle?
    requires LeftAlone(ss, es, m, n, p, k, i) && Lists(ss[m].root, k, files) && c <= 7 + |files|
    requires Own(es, m, n, p) == DrillPlan(p, k, i, files, d, c)
    ensures DrillAt(ss[n], p, k, i, files, d, c)
    decreases n
  {
    hide IsRun, DrillAt, DrillStepAt, Enabled, Apply, SameKey, OthersDoNotLock;
    if n == m {
      DrillBegins(ss[m], p, k, i, files, d);
    } else {
      RunSteps(ss, es, n - 1);
      var s, e := ss[n - 1], es[n - 1];
      if By(e, p) {
        var own := Own(es, m, n, p);
        assert own[|own| - 1] == e && own[..|own| - 1] == Own(es, m, n - 1, p);
        assert c > 0 && Own(es, m, n - 1, p) == DrillPlan(p, k, i, files, d, c - 1);
        DrillStage(ss, es, m, n - 1, p, k, i, files, d, c - 1);
        DrillStep(s, p, k, i, files, d, c - 1);
      } else {
        DrillStage(ss, es, m, n - 1, p, k, i, files, d, c);
        DrillWaits(s, e, p, k, i, files, d, c);
      }
    }
  }

  lemma DrillBegins(s: State, p: nat, k: Key, i: Inode, files: seq<File>, d: Dir)
    requires p < |s.procs| && s.procs[p].Idle? && Lists(s.root, k, files)
    ensures DrillAt(s, p, k, i, files, d, 0)
  {
  }

  // an inode and a directory for it are always there

  lemma {:induction false} ValuesBelow<K>(keys: set<K>, m: map<K, nat>) returns (top: nat)
    requires keys <= m.Keys
    ensures forall k <- keys :: m[k] < top
  {
    top := 0;
    if keys != {} {
      var k :| k in keys;
      var rest := ValuesBelow(keys - {k}, m);
      top := if rest > m[k] then rest else m[k] + 1;
    }
  }

  lemma {:induction false} AllBelow(xs: set<nat>) returns (top: nat)
    ensures forall x <- xs :: x < top
  {
    top := 0;
    if xs != {} {
      var x :| x in xs;
      var rest := AllBelow(xs - {x});
      top := if rest > x then rest else x + 1;
      assert forall y <- xs :: y == x || y in xs - {x};
    }
  }

  lemma {:induction false} OpenBelow(procs: seq<Phase>) returns (top: Inode)
    ensures forall p <- procs :: forall j: Inode :: p.Opens(j) ==> j < top
  {
    top := 0;
    if procs != [] {
      var last := procs[|procs| - 1];
      var rest := OpenBelow(procs[..|procs| - 1]);
      top := if !last.HasFile() || last.lock < rest then rest else last.lock + 1;
      assert forall p <- procs :: p == last || p in procs[..|procs| - 1];
    }
  }

  lemma DrillMayOpen(s: State, p: nat, k: Key)
    requires p < |s.procs| && s.procs[p] == Phase.DrillStarts(k)
    ensures exists j :: Enabled(s, DrillOpen(p, j))
  {
    if k in s.root.names {
      assert Enabled(s, DrillOpen(p, s.root.names[k]));
    } else {
      var a := ValuesBelow(s.root.names.Keys, s.root.names);
      var b := OpenBelow(s.procs);
      assert Enabled(s, DrillOpen(p, if a > b then a else b));
    }
  }

  lemma DrillMayMake(s: State, p: nat)
    requires p < |s.procs| && s.procs[p].DrillCleared?
    ensures exists j :: Enabled(s, DrillMakesDir(p, j))
  {
    var a := AllBelow(s.root.content.Keys);
    var b := AllBelow(s.root.tree.Values);
    assert Enabled(s, DrillMakesDir(p, if a > b then a else b));
  }

  /** A drill whose key nobody else touches can always go on, and comes to work in a new
      and empty scratch under its lock. */
  lemma UndisturbedDrillWorks(
      ss: seq<State>, es: seq<Event>, m: nat, n: nat, p: nat, k: Key, i: Inode, files: seq<File>, d: Dir, c: nat)
    requires IsRun(ss, es) && |ss| == |es| + 1 && m <= n <= |es| && p < |ss[m].procs| && ss[m].procs[p].Idle?
    requires LeftAlone(ss, es, m, n, p, k, i) && Lists(ss[m].root, k, files) && c <= 7 + |files|
    requires Own(es, m, n, p) == DrillPlan(p, k, i, files, d, c)
    ensures c == 1 ==> exists j :: Enabled(ss[n], DrillOpen(p, j))
    ensures c == 6 + |files| ==> exists j :: Enabled(ss[n], DrillMakesDir(p, j))
    ensures c < 6 + |files| && c != 1 ==> Enabled(ss[n], DrillStepAt(p, k, i, files, d, c))
    ensures c == 7 + |files| ==>
      && p < |ss[n].procs| && ss[n].procs[p] == DrillWorks(k, i, d) && ss[n].root.Names(k, i)
      && Path.Scratch(k) in ss[n].root.tree && ss[n].root.tree[Path.Scratch(k)] == d && ss[n].root.Files(d) == {}
  {
    hide IsRun, LeftAlone, Own, Enabled, DrillStepAt, Lists;
    DrillStage(ss, es, m, n, p, k, i, files, d, c);
    if c == 1 {
      DrillMayOpen(ss[n], p, k);
    } else if c == 6 + |files| {
      DrillMayMake(ss[n], p);
    } else if c < 6 + |files| {
      LeftAloneAtEnd(ss, es, m, n, p, k, i);
      DrillStep(ss[n], p, k, i, files, d, c);
    }
  }
}
