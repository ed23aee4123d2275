module CacheProgress {
  /** What the cache protocol gets done: a sweep, an evictLock or a run whose key nobody
      else touches goes through to its end, whatever else happens in between, and a sweep
      takes away nothing but the binary it scanned. */

  import opened BinaryCache

  predicate By(e: Event, p: nat) {
    !e.OfDir() && e.p == p
  }

  /** The steps of process p from m to n. */
  function Own(es: seq<Event>, m: nat, n: nat, p: nat): seq<Event>
    requires n <= |es|
    decreases n
  {
    if n <= m then [] else Own(es, m, n - 1, p) + if By(es[n - 1], p) then [es[n - 1]] else []
  }

  ghost predicate SameEntry(s: State, t: State, k: Key) {
    && (k in s.bins <==> k in t.bins) && (k in s.bins ==> s.bins[k] == t.bins[k])
    && (k in s.names <==> k in t.names) && (k in s.names ==> s.names[k] == t.names[k])
  }

  /** From m to n nobody else changes what is at the key's two paths or locks the inode. */
  ghost predicate LeftAlone(ss: seq<State>, es: seq<Event>, m: nat, n: nat, p: nat, k: Key, i: Inode)
    requires n <= |es| < |ss|
  {
    && (forall j {:trigger es[j]} :: m <= j < n && !By(es[j], p) ==> SameEntry(ss[j], ss[j + 1], k))
    && (forall j :: m <= j <= n ==> OthersDoNotLock(ss[j], p, i))
  }

  ghost predicate OthersDoNotLock(s: State, p: nat, i: Inode) {
    forall q :: 0 <= q < |s.procs| && q != p ==> !s.procs[q].Locks(i)
  }

  lemma RunSteps(ss: seq<State>, es: seq<Event>, n: nat)
    requires IsRun(ss, es) && n < |es|
    ensures |ss| == |es| + 1 && Enabled(ss[n], es[n]) && ss[n + 1] == Apply(ss[n], es[n])
  {
    var e := es[n];
  }

  lemma OthersKeepPhase(s: State, e: Event, p: nat)
    requires Enabled(s, e) && !By(e, p) && p < |s.procs|
    ensures var t := Apply(s, e); |t.procs| == |s.procs| && t.procs[p] == s.procs[p]
  {
    hide EnabledFor, Became, ChangeBy;
  }

  // ------------------------------------------------------------------ a sweep

  /** What a sweep goes on to after its scan. */
  function SweepSteps(p: nat, i: Inode): seq<Event> {
    [SweepOpen(p, i), SweepTryLock(p), SweepCompare(p), SweepRemove(p, true), SweepUnlink(p, true), Unlock(p), Close(p)]
  }

  /** A sweep that has taken c of these steps: it stands before the next, the binary is
      there until the fourth is taken and the lock path until the fifth. */
  ghost predicate SweepAt(s: State, p: nat, k: Key, i: Inode, seen: nat, c: nat) {
    && p < |s.procs| && c <= 7
    && (c <= 3 ==> k in s.bins && s.bins[k].mtime == seen)
    && (1 <= c <= 4 ==> s.Names(k, i))
    && (c >= 4 ==> k !in s.bins)
    && (c >= 5 ==> k !in s.names)
    && s.procs[p] == match c
                     case 0 => Scanned(k, seen)
                     case 1 => SweepOpened(k, seen, i)
                     case 2 => SweepLocked(k, seen, i)
                     case 3 => SweepMatched(k, i)
                     case 4 => SweepRemoved(k, i)
                     case 5 => Releasing(i)
                     case 6 => Unlocked(i)
                     case _ => Idle
  }

  lemma SweepStep(s: State, p: nat, k: Key, i: Inode, seen: nat, c: nat)
    requires SweepAt(s, p, k, i, seen, c) && c < 7 && OthersDoNotLock(s, p, i)
    requires c == 0 ==> MayOpen(s, k, i)
    ensures var e := SweepSteps(p, i)[c]; Enabled(s, e) && SweepAt(Apply(s, e), p, k, i, seen, c + 1)
  {
    hide MayOpen;
    if c <= 2 {
      SweepComesIn(s, p, k, i, seen, c);
    }
  }

  lemma SweepComesIn(s: State, p: nat, k: Key, i: Inode, seen: nat, c: nat)
    requires SweepAt(s, p, k, i, seen, c) && c <= 2 && OthersDoNotLock(s, p, i)
    requires c == 0 ==> MayOpen(s, k, i)
    ensures var e := SweepSteps(p, i)[c]; Enabled(s, e) && SweepAt(Apply(s, e), p, k, i, seen, c + 1)
  {
    hide MayOpen;
    if c == 1 {
      assert s.Free(i);
    }
  }

  lemma {:induction false} SweepStage(
      ss: seq<State>, es: seq<Event>, m: nat, n: nat, p: nat, k: Key, i: Inode, c: nat)
    requires IsRun(ss, es) && |ss| == |es| + 1 && m < n <= |es| && es[m] == Scan(p, k)
    requires LeftAlone(ss, es, m + 1, n, p, k, i) && c <= 7 && Own(es, m + 1, n, p) == SweepSteps(p, i)[..c]
    ensures k in ss[m].bins && SweepAt(ss[n], p, k, i, ss[m].bins[k].mtime, c)
    decreases n
  {
    hide IsRun, SweepAt, SweepSteps, Enabled, Apply, SameEntry, OthersDoNotLock;
    RunSteps(ss, es, n - 1);
    var s, e := ss[n - 1], es[n - 1];
    if n == m + 1 {
      SweepStarts(s, p, k, i, c);
    } else if By(e, p) {
      var steps := SweepSteps(p, i);
      SevenSteps(p, i);
      assert c > 0 && Own(es, m + 1, n - 1, p) == steps[..c - 1] && e == steps[c - 1] by {
        assert steps[..c][..c - 1] == steps[..c - 1] && steps[..c][c - 1] == steps[c - 1];
      }
      SweepStage(ss, es, m, n - 1, p, k, i, c - 1);
      OpensWhatItMay(s, p, k, i, ss[m].bins[k].mtime, c - 1);
      SweepStep(s, p, k, i, ss[m].bins[k].mtime, c - 1);
    } else {
      SweepStage(ss, es, m, n - 1, p, k, i, c);
      SweepWaits(s, e, p, k, i, ss[m].bins[k].mtime, c);
    }
  }

  lemma SevenSteps(p: nat, i: Inode)
    ensures |SweepSteps(p, i)| == 7
  {
  }

  lemma SweepStarts(s: State, p: nat, k: Key, i: Inode, c: nat)
    requires Enabled(s, Scan(p, k)) && c <= 7 && [] == SweepSteps(p, i)[..c]
    ensures c == 0 && k in s.bins && SweepAt(Apply(s, Scan(p, k)), p, k, i, s.bins[k].mtime, c)
  {
    assert |SweepSteps(p, i)[..c]| == c;
  }

  lemma OpensWhatItMay(s: State, p: nat, k: Key, i: Inode, seen: nat, c: nat)
    requires SweepAt(s, p, k, i, seen, c) && c < 7 && Enabled(s, SweepSteps(p, i)[c])
    ensures c == 0 ==> MayOpen(s, k, i)
  {
    hide MayOpen;
  }

  lemma SweepWaits(s: State, e: Event, p: nat, k: Key, i: Inode, seen: nat, c: nat)
    requires SweepAt(s, p, k, i, seen, c) && Enabled(s, e) && !By(e, p) && SameEntry(s, Apply(s, e), k)
    ensures SweepAt(Apply(s, e), p, k, i, seen, c)
  {
    hide Enabled, Apply;
    OthersKeepPhase(s, e, p);
  }

  // an inode for a new lock file is always there

  ghost predicate AllBelow(s: State, top: Inode) {
    (forall k <- s.names :: s.names[k] < top) && (forall p <- s.procs :: forall j: Inode :: p.Opens(j) ==> j < top)
  }

  lemma {:induction false} NamesBelow(keys: set<Key>, names: map<Key, Inode>) returns (top: Inode)
    requires keys <= names.Keys
    ensures forall k <- keys :: names[k] < top
  {
    top := 0;
    if keys != {} {
      var k :| k in keys;
      var rest := NamesBelow(keys - {k}, names);
      top := if rest > names[k] then rest else names[k] + 1;
    }
  }

  lemma {:induction false} OpenBelow(procs: seq<Phase>) returns (top: Inode)
    ensures forall p <- procs :: forall j: Inode :: p.Opens(j) ==> j < top
  {
    top := 0;
    if procs != [] {
      var last := procs[|procs| - 1];
      var rest := OpenBelow(procs[..|procs| - 1]);
      top := if last.Idle? || last.Scanned? || last.OrphanScanned? || last.lock < rest then rest else last.lock + 1;
      assert forall p <- procs :: p == last || p in procs[..|procs| - 1];
    }
  }

  /** A lock file can be opened, or made, wherever its directory is. */
  lemma SomeMayOpen(s: State, k: Key) returns (i: Inode)
    requires k.dir in s.dirs
    ensures MayOpen(s, k, i)
  {
    if k in s.names {
      i := s.names[k];
    } else {
      var a := NamesBelow(s.names.Keys, s.names);
      var b := OpenBelow(s.procs);
      i := if a > b then a else b;
    }
  }

  lemma SweepMayOpen(s: State, p: nat, k: Key, i: Inode, seen: nat, c: nat)
    requires SweepAt(s, p, k, i, seen, c) && c == 0 && k.dir in s.dirs
    ensures exists j :: Enabled(s, SweepOpen(p, j))
  {
    hide MayOpen;
    var j := SomeMayOpen(s, k);
    assert Enabled(s, SweepOpen(p, j));
  }

  /** A sweep whose key nobody else touches can always go on, and has removed the binary and
      its lock file when it has taken its steps. */
  lemma UndisturbedSweepEvicts(
      ss: seq<State>, es: seq<Event>, m: nat, n: nat, p: nat, k: Key, i: Inode, c: nat)
    requires IsRun(ss, es) && |ss| == |es| + 1 && m < n <= |es| && es[m] == Scan(p, k)
    requires LeftAlone(ss, es, m + 1, n, p, k, i) && c <= 7 && Own(es, m + 1, n, p) == SweepSteps(p, i)[..c]
    ensures c == 0 && k.dir in ss[n].dirs ==> exists j :: Enabled(ss[n], SweepOpen(p, j))
    ensures 0 < c < 7 ==> Enabled(ss[n], SweepSteps(p, i)[c])
    ensures c >= 5 ==> k !in ss[n].bins && k !in ss[n].names
    ensures c == 7 ==> p < |ss[n].procs| && ss[n].procs[p].Idle?
  {
    hide IsRun, LeftAlone, Own, Enabled, SweepSteps;
    SweepStage(ss, es, m, n, p, k, i, c);
    var s, seen := ss[n], ss[m].bins[k].mtime;
    if 0 < c < 7 {
      assert OthersDoNotLock(s, p, i) by { LeftAloneAtEnd(ss, es, m + 1, n, p, k, i); }
      SweepStep(s, p, k, i, seen, c);
    } else if c == 0 && k.dir in s.dirs {
      SweepMayOpen(s, p, k, i, seen, c);
    }
  }

  lemma LeftAloneAtEnd(ss: seq<State>, es: seq<Event>, m: nat, n: nat, p: nat, k: Key, i: Inode)
    requires n <= |es| < |ss| && LeftAlone(ss, es, m, n, p, k, i) && m <= n
    ensures OthersDoNotLock(ss[n], p, i)
  {
  }

  // -------------------------------------------------- a lock file without a binary

  function OrphanSteps(p: nat, i: Inode): seq<Event> {
    [OrphanOpen(p, i), OrphanTryLock(p), OrphanCheck(p), OrphanUnlink(p), Unlock(p), Close(p)]
  }

  ghost predicate OrphanAt(s: State, p: nat, k: Key, i: Inode, c: nat) {
    && p < |s.procs| && c <= 6 && k !in s.bins
    && (c == 0 ==> k in s.names) && (1 <= c <= 3 ==> s.Names(k, i)) && (c >= 4 ==> k !in s.names)
    && s.procs[p] == match c
                     case 0 => OrphanScanned(k)
                     case 1 => OrphanOpened(k, i)
                     case 2 => OrphanLocked(k, i)
                     case 3 => OrphanChecked(k, i)
                     case 4 => Releasing(i)
                     case 5 => Unlocked(i)
                     case _ => Idle
  }

  lemma OrphanStep(s: State, p: nat, k: Key, i: Inode, c: nat)
    requires OrphanAt(s, p, k, i, c) && c < 6 && OthersDoNotLock(s, p, i)
    requires c == 0 ==> MayOpen(s, k, i)
    ensures var e := OrphanSteps(p, i)[c]; Enabled(s, e) && OrphanAt(Apply(s, e), p, k, i, c + 1)
  {
    if c == 1 {
      assert s.Free(i);
    }
    hide MayOpen;
  }

  lemma {:induction false} OrphanStage(
      ss: seq<State>, es: seq<Event>, m: nat, n: nat, p: nat, k: Key, i: Inode, c: nat)
    requires IsRun(ss, es) && |ss| == |es| + 1 && m < n <= |es| && es[m] == ScanOrphan(p, k)
    requires LeftAlone(ss, es, m + 1, n, p, k, i) && c <= 6 && Own(es, m + 1, n, p) == OrphanSteps(p, i)[..c]
    ensures OrphanAt(ss[n], p, k, i, c)
    decreases n
  {
    hide IsRun, OrphanAt, OrphanSteps, Enabled, Apply, SameEntry, OthersDoNotLock;
    RunSteps(ss, es, n - 1);
    var s, e := ss[n - 1], es[n - 1];
    SixSteps(p, i);
    if n == m + 1 {
      OrphanStarts(s, p, k, i, c);
    } else if By(e, p) {
      var steps := OrphanSteps(p, i);
      assert c > 0 && Own(es, m + 1, n - 1, p) == steps[..c - 1] && e == steps[c - 1] by {
        assert steps[..c][..c - 1] == steps[..c - 1] && steps[..c][c - 1] == steps[c - 1];
      }
      OrphanStage(ss, es, m, n - 1, p, k, i, c - 1);
      OrphanOpensWhatItMay(s, p, k, i, c - 1);
      OrphanStep(s, p, k, i, c - 1);
    } else {
      OrphanStage(ss, es, m, n - 1, p, k, i, c);
      OrphanWaits(s, e, p, k, i, c);
    }
  }

  lemma SixSteps(p: nat, i: Inode)
    ensures |OrphanSteps(p, i)| == 6
  {
  }

  lemma OrphanStarts(s: State, p: nat, k: Key, i: Inode, c: nat)
    requires Enabled(s, ScanOrphan(p, k)) && c <= 6 && [] == OrphanSteps(p, i)[..c]
    ensures c == 0 && OrphanAt(Apply(s, ScanOrphan(p, k)), p, k, i, c)
  {
    assert |OrphanSteps(p, i)[..c]| == c;
  }

  lemma OrphanOpensWhatItMay(s: State, p: nat, k: Key, i: Inode, c: nat)
    requires OrphanAt(s, p, k, i, c) && c < 6 && Enabled(s, OrphanSteps(p, i)[c])
    ensures c == 0 ==> MayOpen(s, k, i)
  {
    hide MayOpen;
  }

  lemma OrphanWaits(s: State, e: Event, p: nat, k: Key, i: Inode, c: nat)
    requires OrphanAt(s, p, k, i, c) && Enabled(s, e) && !By(e, p) && SameEntry(s, Apply(s, e), k)
    ensures OrphanAt(Apply(s, e), p, k, i, c)
  {
    hide Enabled, Apply;
    OthersKeepPhase(s, e, p);
  }

  lemma OrphanMayOpen(s: State, p: nat, k: Key, i: Inode, c: nat)
    requires OrphanAt(s, p, k, i, c) && c == 0 && k.dir in s.dirs
    ensures exists j :: Enabled(s, OrphanOpen(p, j))
  {
    hide MayOpen;
    var j := SomeMayOpen(s, k);
    assert Enabled(s, OrphanOpen(p, j));
  }

  /** So can an evictLock, which has then removed the lock file. */
  lemma UndisturbedOrphanIsEvicted(
      ss: seq<State>, es: seq<Event>, m: nat, n: nat, p: nat, k: Key, i: Inode, c: nat)
    requires IsRun(ss, es) && |ss| == |es| + 1 && m < n <= |es| && es[m] == ScanOrphan(p, k)
    requires LeftAlone(ss, es, m + 1, n, p, k, i) && c <= 6 && Own(es, m + 1, n, p) == OrphanSteps(p, i)[..c]
    ensures c == 0 && k.dir in ss[n].dirs ==> exists j :: Enabled(ss[n], OrphanOpen(p, j))
    ensures 0 < c < 6 ==> Enabled(ss[n], OrphanSteps(p, i)[c])
    ensures c >= 4 ==> k !in ss[n].bins && k !in ss[n].names
    ensures c == 6 ==> p < |ss[n].procs| && ss[n].procs[p].Idle?
  {
    hide IsRun, LeftAlone, Own, Enabled, OrphanSteps;
    OrphanStage(ss, es, m, n, p, k, i, c);
    var s := ss[n];
    if 0 < c < 6 {
      assert OthersDoNotLock(s, p, i) by { LeftAloneAtEnd(ss, es, m + 1, n, p, k, i); }
      OrphanStep(s, p, k, i, c);
    } else if c == 0 && k.dir in s.dirs {
      OrphanMayOpen(s, p, k, i, c);
    }
  }

  // --------------------------------------------------------------------- a run

  /** A run that finds its lock free and links data, copies it and lets go. */
  function RunStepAt(p: nat, k: Key, i: Inode, data: Bytes, now: nat, c: nat): Event {
    if c == 0 then RunOpen(p, k, i)
    else if c == 1 then RunLock(p)
    else if c == 2 then RunValidate(p)
    else if c == 3 then RunLink(p, data, now)
    else if c < 4 + |data| then RunCopySome(p)
    else if c == 4 + |data| then RunCopyEnds(p)
    else if c == 5 + |data| then RunGivesUp(p)
    else if c == 6 + |data| then Unlock(p)
    else Close(p)
  }

  /** Its first c steps. */
  function RunPlan(p: nat, k: Key, i: Inode, data: Bytes, now: nat, c: nat): seq<Event> {
    if c == 0 then [] else RunPlan(p, k, i, data, now, c - 1) + [RunStepAt(p, k, i, data, now, c - 1)]
  }

  /** A run that has taken c of these steps. */
  ghost predicate RunAt(s: State, p: nat, k: Key, i: Inode, data: Bytes, c: nat) {
    && p < |s.procs| && c <= 8 + |data|
    && (1 <= c ==> s.Names(k, i))
    && (4 <= c ==> k in s.bins && s.bins[k].data == data)
    && s.procs[p] == if c == 0 then Idle
                     else if c == 1 then RunOpened(k, i)
                     else if c == 2 then RunLocked(k, i)
                     else if c == 3 then RunHolds(k, i)
                     else if c <= 4 + |data| then RunLinked(k, i, data, data[..c - 4])
                     else if c == 5 + |data| then RunCopied(k, i, data, data)
                     else if c == 6 + |data| then Releasing(i)
                     else if c == 7 + |data| then Unlocked(i)
                     else Idle
  }

  lemma RunStep(s: State, p: nat, k: Key, i: Inode, data: Bytes, now: nat, c: nat)
    requires RunAt(s, p, k, i, data, c) && c < 8 + |data| && OthersDoNotLock(s, p, i)
    requires (c == 0 ==> MayOpen(s, k, i)) && (c == 3 ==> s.clock < now)
    ensures var e := RunStepAt(p, k, i, data, now, c); Enabled(s, e) && RunAt(Apply(s, e), p, k, i, data, c + 1)
  {
    if c == 1 {
      assert s.Free(i);
    }
    hide MayOpen;
    if 4 <= c < 4 + |data| {
      assert data[..c - 3] == data[..c - 4] + [data[c - 4]];
    }
    assert data[..|data|] == data;
  }

  lemma {:induction false} RunStage(
      ss: seq<State>, es: seq<Event>, m: nat, n: nat, p: nat, k: Key, i: Inode, data: Bytes, now: nat, c: nat)
    requires IsRun(ss, es) && |ss| == |es| + 1 && m <= n <= |es| && p < |ss[m].procs| && ss[m].procs[p].Idle?
    requires LeftAlone(ss, es, m, n, p, k, i) && c <= 8 + |data|
    requires Own(es, m, n, p) == RunPlan(p, k, i, data, now, c)
    ensures RunAt(ss[n], p, k, i, data, c)
    decreases n
  {
    hide IsRun, RunAt, RunStepAt, Enabled, Apply, SameEntry, OthersDoNotLock;
    if n == m {
      RunStarts(ss[m], p, k, i, data);
    } else {
      RunSteps(ss, es, n - 1);
      var s, e := ss[n - 1], es[n - 1];
      if By(e, p) {
        var own := Own(es, m, n, p);
        assert own[|own| - 1] == e && own[..|own| - 1] == Own(es, m, n - 1, p);
        assert c > 0 && Own(es, m, n - 1, p) == RunPlan(p, k, i, data, now, c - 1);
        RunStage(ss, es, m, n - 1, p, k, i, data, now, c - 1);
        RunMay(s, p, k, i, data, now, c - 1);
        RunStep(s, p, k, i, data, now, c - 1);
      } else {
        RunStage(ss, es, m, n - 1, p, k, i, data, now, c);
        RunWaits(s, e, p, k, i, data, c);
      }
    }
  }

  lemma RunStarts(s: State, p: nat, k: Key, i: Inode, data: Bytes)
    requires p < |s.procs| && s.procs[p].Idle?
    ensures RunAt(s, p, k, i, data, 0)
  {
  }

  lemma RunMay(s: State, p: nat, k: Key, i: Inode, data: Bytes, now: nat, c: nat)
    requires RunAt(s, p, k, i, data, c) && c < 8 + |data| && Enabled(s, RunStepAt(p, k, i, data, now, c))
    ensures (c == 0 ==> MayOpen(s, k, i)) && (c == 3 ==> s.clock < now)
  {
    hide MayOpen;
  }

  lemma RunWaits(s: State, e: Event, p: nat, k: Key, i: Inode, data: Bytes, c: nat)
    requires RunAt(s, p, k, i, data, c) && Enabled(s, e) && !By(e, p) && SameEntry(s, Apply(s, e), k)
    ensures RunAt(Apply(s, e), p, k, i, data, c)
  {
    hide Enabled, Apply;
    OthersKeepPhase(s, e, p);
  }

  lemma RunMayOpen(s: State, p: nat, k: Key, i: Inode, data: Bytes, c: nat)
    requires RunAt(s, p, k, i, data, c) && c == 0 && k.dir in s.dirs
    ensures exists j :: Enabled(s, RunOpen(p, k, j))
  {
    hide MayOpen;
    var j := SomeMayOpen(s, k);
    assert Enabled(s, RunOpen(p, k, j));
  }

  /** A run whose key nobody else touches can always go on, and has copied what it linked,
      which stays at the path. */
  lemma UndisturbedRunIsServed(
      ss: seq<State>, es: seq<Event>, m: nat, n: nat, p: nat, k: Key, i: Inode, data: Bytes, now: nat, c: nat)
    requires IsRun(ss, es) && |ss| == |es| + 1 && m <= n <= |es| && p < |ss[m].procs| && ss[m].procs[p].Idle?
    requires LeftAlone(ss, es, m, n, p, k, i) && c <= 8 + |data|
    requires Own(es, m, n, p) == RunPlan(p, k, i, data, now, c)
    ensures c == 0 && k.dir in ss[n].dirs ==> exists j :: Enabled(ss[n], RunOpen(p, k, j))
    ensures 0 < c < 8 + |data| && (c == 3 ==> ss[n].clock < now) ==> Enabled(ss[n], RunStepAt(p, k, i, data, now, c))
    ensures c >= 4 ==> k in ss[n].bins && ss[n].bins[k].data == data
    ensures c == 5 + |data| ==> p < |ss[n].procs| && ss[n].procs[p] == RunCopied(k, i, data, data)
    ensures c == 8 + |data| ==> p < |ss[n].procs| && ss[n].procs[p].Idle?
  {
    hide IsRun, LeftAlone, Own, Enabled, RunStepAt;
    RunStage(ss, es, m, n, p, k, i, data, now, c);
    var s := ss[n];
    if 0 < c < 8 + |data| && (c == 3 ==> s.clock < now) {
      assert OthersDoNotLock(s, p, i) by { LeftAloneAtEnd(ss, es, m, n, p, k, i); }
      RunStep(s, p, k, i, data, now, c);
    } else if c == 0 && k.dir in s.dirs {
      RunMayOpen(s, p, k, i, data, c);
    }
  }

  // ------------------------------------------------- a sweep takes what it scanned

  /** A sweep that scanned the key in t and is not done: a binary as old as the scan is the
      one it saw, and it has that one before it once the times matched. */
  ghost predicate Ongoing(s: State, t: State, p: nat, k: Key) {
    && p < |s.procs| && k in t.bins && t.clock <= s.clock
    && (k in s.bins && s.bins[k].mtime <= t.clock ==> s.bins[k] == t.bins[k])
    && match s.procs[p]
       case Scanned(key, seen) => key == k && seen == t.bins[k].mtime
       case SweepOpened(key, seen, _) => key == k && seen == t.bins[k].mtime
       case SweepLocked(key, seen, _) => key == k && seen == t.bins[k].mtime
       case SweepMatched(key, _) => key == k && k in s.bins && s.bins[k] == t.bins[k]
       case SweepRemoved(key, _) => key == k && k !in s.bins
       case Releasing(_) => true
       case Unlocked(_) => true
       case _ => false
  }

  lemma OwnStepGoesOn(s: State, e: Event, t: State, p: nat, k: Key)
    requires Ongoing(s, t, p, k) && t.bins[k].mtime <= t.clock && Enabled(s, e) && By(e, p)
    requires !Apply(s, e).procs[p].Idle?
    ensures Ongoing(Apply(s, e), t, p, k)
  {
    hide MayOpen, State.Free;
  }

  lemma OthersLetItGoOn(s: State, e: Event, t: State, p: nat, k: Key)
    requires Ongoing(s, t, p, k) && Enabled(s, e) && !By(e, p)
    requires s.procs[p].Owns(k) ==>
      (k in s.bins <==> k in Apply(s, e).bins) && (k in s.bins ==> Apply(s, e).bins[k] == s.bins[k])
    ensures Ongoing(Apply(s, e), t, p, k)
  {
    hide MayOpen, State.Free;
    OthersKeepPhase(s, e, p);
  }

  /** p is in the sweep it began at m. */
  ghost predicate Sweeping(ss: seq<State>, es: seq<Event>, m: nat, n: nat, p: nat, k: Key)
    requires n < |ss| == |es| + 1
  {
    && m < n && es[m] == Scan(p, k)
    && forall j :: m < j <= n ==> p < |ss[j].procs| && !ss[j].procs[p].Idle?
  }

  lemma {:induction false} SweepGoesOn(ss: seq<State>, es: seq<Event>, m: nat, n: nat, p: nat, k: Key)
    requires IsRun(ss, es) && OrphansValidated(ss, es) && |ss| == |es| + 1 && n < |ss|
    requires Sweeping(ss, es, m, n, p, k)
    ensures Ongoing(ss[n], ss[m], p, k) && ss[m].bins[k].mtime <= ss[m].clock
    decreases n
  {
    hide IsRun, OrphansValidated, Enabled, Apply, Inv, Ongoing;
    RunKeepsInv(ss, es, m);
    RunSteps(ss, es, n - 1);
    var s, e := ss[n - 1], es[n - 1];
    if n == m + 1 {
      SweepBegins(s, p, k);
    } else {
      SweepGoesOn(ss, es, m, n - 1, p, k);
      if By(e, p) {
        OwnStepGoesOn(s, e, ss[m], p, k);
      } else {
        if p < |s.procs| && s.procs[p].Owns(k) {
          RunKeepsInv(ss, es, n - 1);
          OwnerLocks(s, p, k);
          LockedEntryIsStable(ss, es, n - 1, p, k);
        }
        OthersLetItGoOn(s, e, ss[m], p, k);
      }
    }
  }

  lemma SweepBegins(s: State, p: nat, k: Key)
    requires Inv(s) && Enabled(s, Scan(p, k))
    ensures Ongoing(Apply(s, Scan(p, k)), s, p, k) && s.bins[k].mtime <= s.clock
  {
    hide LocksExclude, PhaseOk;
  }

  lemma OwnerLocks(s: State, p: nat, k: Key)
    requires Inv(s) && p < |s.procs| && s.procs[p].Owns(k)
    ensures k in s.names && s.procs[p].Locks(s.names[k])
  {
    assert PhaseOk(s, s.procs[p]);
  }

  /** What a step of a sweep changes: it makes the lock file, removes the very binary that
      was scanned, or removes the lock file of no binary. */
  lemma SweepTakesWhatItScanned(ss: seq<State>, es: seq<Event>, m: nat, n: nat, p: nat, k: Key)
    requires IsRun(ss, es) && OrphansValidated(ss, es) && |ss| == |es| + 1 && n < |es|
    requires Sweeping(ss, es, m, n, p, k) && By(es[n], p)
    ensures ss[n + 1].bins != ss[n].bins ==>
      && k in ss[n].bins && k in ss[m].bins && ss[n].bins[k] == ss[m].bins[k] && ss[n + 1].bins == ss[n].bins - {k}
    ensures ss[n + 1].names != ss[n].names ==>
      && (k in ss[n].names ==> k !in ss[n].bins && ss[n + 1].names == ss[n].names - {k})
      && forall j :: j in ss[n].names && j != k ==> ss[n + 1].Names(j, ss[n].names[j])
  {
    SweepGoesOn(ss, es, m, n, p, k);
    RunSteps(ss, es, n);
    hide IsRun, OrphansValidated, Sweeping;
    SweepChanges(ss[n], es[n], ss[m], p, k);
  }

  lemma SweepChanges(s: State, e: Event, t: State, p: nat, k: Key)
    requires Ongoing(s, t, p, k) && Enabled(s, e) && By(e, p)
    ensures var u := Apply(s, e);
      && (u.bins != s.bins ==>
            s.procs[p].SweepMatched? && k in s.bins && s.bins[k] == t.bins[k] && u.bins == s.bins - {k})
      && (u.names != s.names ==>
            && (k in s.names ==> s.procs[p].SweepRemoved? && k !in s.bins && u.names == s.names - {k})
            && forall j :: j in s.names && j != k ==> u.Names(j, s.names[j]))
  {
    hide State.Free, State.Unused;
  }

  /** Since the relink only newer binaries are at the path, and the sweep is not past its
      comparison. */
  ghost predicate Outdated(s: State, t: State, p: nat, k: Key) {
    && Ongoing(s, t, p, k) && !s.procs[p].Owns(k)
    && (k in s.bins ==> s.bins[k].mtime > t.clock)
  }

  lemma OutdatedStep(s: State, e: Event, t: State, p: nat, k: Key)
    requires Outdated(s, t, p, k) && t.bins[k].mtime <= t.clock && Enabled(s, e) && Ongoing(Apply(s, e), t, p, k)
    ensures Outdated(Apply(s, e), t, p, k)
  {
    hide MayOpen, State.Free;
    if !By(e, p) {
      OthersKeepPhase(s, e, p);
    }
  }

  lemma {:induction false} StaysOutdated(
      ss: seq<State>, es: seq<Event>, m: nat, r: nat, n: nat, p: nat, q: nat, k: Key, i: Inode)
    requires IsRun(ss, es) && OrphansValidated(ss, es) && |ss| == |es| + 1 && m < r < n < |ss|
    requires Sweeping(ss, es, m, n, p, k)
    requires es[r].RunLink? && es[r].p == q != p && q < |ss[r].procs| && ss[r].procs[q] == RunHolds(k, i)
    ensures Outdated(ss[n], ss[m], p, k)
    decreases n
  {
    hide IsRun, OrphansValidated, Enabled, Apply, Inv, Ongoing, Outdated;
    SweepGoesOn(ss, es, m, n, p, k);
    RunSteps(ss, es, n - 1);
    if n == r + 1 {
      RunKeepsInv(ss, es, r);
      SweepGoesOn(ss, es, m, r, p, k);
      RelinkOutdates(ss[r], es[r], ss[m], p, q, k, i);
    } else {
      StaysOutdated(ss, es, m, r, n - 1, p, q, k, i);
      OutdatedStep(ss[n - 1], es[n - 1], ss[m], p, k);
    }
  }

  lemma RelinkOutdates(s: State, e: Event, t: State, p: nat, q: nat, k: Key, i: Inode)
    requires Inv(s) && Ongoing(s, t, p, k) && Enabled(s, e) && Ongoing(Apply(s, e), t, p, k)
    requires e.RunLink? && e.p == q != p && s.procs[q] == RunHolds(k, i)
    ensures Outdated(Apply(s, e), t, p, k)
  {
    if s.procs[p].Owns(k) {
      OwnersCoincide(s, p, q, k);
    }
    hide LocksExclude, PhaseOk;
  }

  /** A binary linked after a sweep scanned its key is not removed by that sweep, nor is
      its lock file. */
  lemma RelinkedSurvives(
      ss: seq<State>, es: seq<Event>, m: nat, r: nat, n: nat, p: nat, q: nat, k: Key, i: Inode)
    requires IsRun(ss, es) && OrphansValidated(ss, es) && |ss| == |es| + 1 && m < r < n < |es|
    requires Sweeping(ss, es, m, n, p, k) && By(es[n], p)
    requires es[r].RunLink? && es[r].p == q != p && q < |ss[r].procs| && ss[r].procs[q] == RunHolds(k, i)
    ensures ss[n + 1].bins == ss[n].bins
    ensures k in ss[n].names ==> ss[n + 1].names == ss[n].names
  {
    StaysOutdated(ss, es, m, r, n, p, q, k, i);
    RunSteps(ss, es, n);
    hide IsRun, OrphansValidated, Sweeping;
    SweepChanges(ss[n], es[n], ss[m], p, k);
  }
}
