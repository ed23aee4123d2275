/** Rewriting a set of files all or none. The disk is a map from path to contents; each
    call on it may fail, a write after any number of bytes. Closing and removing are
    reliable, and each path is one file. */
module FileWrite {
  import opened Options

  /** Paths, and the names that lead to them, matter by identity only. */
  datatype Path = Path(id: nat)
  datatype Name = Name(id: nat)
  type Bytes = seq<int>
  type Files = map<Path, Bytes>

  datatype Renamed = Done | Refused | Failed

  /** Contents c overwritten from the start by w. */
  function Over(c: Bytes, w: Bytes): Bytes {
    w + if |w| <= |c| then c[|w|..] else []
  }

  class Disk {
    var files: Files
    /** The file each name leads to through its links. */
    const resolved: map<Name, Path>

    constructor (files: Files, resolved: map<Name, Path>)
      ensures this.files == files && this.resolved == resolved
    {
      this.files, this.resolved := files, resolved;
    }

    method EvalSymlinks(name: Name) returns (target: Option<Path>)
      ensures target.Some? ==> name in resolved && target.value == resolved[name] && target.value in files
    {
      var works: bool := *;
      target := if works && name in resolved && resolved[name] in files then Some(resolved[name]) else None;
    }

    method Rename(tmp: Path, target: Path) returns (r: Renamed)
      requires tmp in files && target in files && tmp != target
      modifies this
      ensures files == if r.Done? then old(files)[target := old(files)[tmp]] - {tmp} else old(files)
    {
      r := *;
      if r.Done? {
        files := files[target := files[tmp]] - {tmp};
      }
    }

    /** Overwrites from the start; on a failure after any number of bytes. */
    method WriteAt(target: Path, b: Bytes) returns (ok: bool)
      requires target in files
      modifies this
      ensures exists k ::
        && 0 <= k <= |b| && (ok ==> k == |b|)
        && files == old(files)[target := Over(old(files)[target], b[..k])]
    {
      ok := *;
      var k: int := *;
      if ok || k < 0 || k > |b| {
        k := |b|;
      }
      files := files[target := Over(files[target], b[..k])];
    }

    method Truncate(target: Path, n: nat) returns (ok: bool)
      requires target in files && n <= |files[target]|
      modifies this
      ensures files == if ok then old(files)[target := old(files)[target][..n]] else old(files)
    {
      ok := *;
      if ok {
        files := files[target := files[target][..n]];
      }
    }

    method Remove(path: Path)
      modifies this
      ensures files == old(files) - {path}
    {
      files := files - {path};
    }

    /** A new file of a random name, which no file has and no change leads to. */
    method CreateTemp() returns (tmp: Option<Path>)
      modifies this
      ensures tmp.None? ==> files == old(files)
      ensures tmp.Some? ==>
        && tmp.value !in old(files) && tmp.value !in resolved.Values
        && files == old(files)[tmp.value := []]
    {
      var works: bool := *;
      var name: Path := *;
      if works && name !in files && name !in resolved.Values {
        files := files[name := []];
        return Some(name);
      }
      return None;
    }

    /** Any other call: opening, reading, changing the mode or the group. */
    method Works() returns (ok: bool)
    {
      ok := *;
    }
  }

  datatype Change = Change(file: Name, before: Bytes, after: Bytes)

  /** A file to rewrite: the change's name and the others that reach it; the
      replacement to rename over it, or none to write it in place. */
  datatype Staged = Staged(file: Name, target: Path, also: seq<Name>, before: Bytes, after: Bytes, tmp: Option<Path>)

  function Names(sts: seq<Staged>): (names: seq<Name>) {
    if sts == [] then [] else
      var st := sts[|sts| - 1];
      Names(sts[..|sts| - 1]) + [st.file] + st.also
  }

  /** A file of the base as it was read, its replacement new. */
  ghost predicate Good(base: Files, st: Staged) {
    st.target in base && base[st.target] == st.before && (st.tmp.Some? ==> st.tmp.value !in base)
  }

  ghost predicate Apart(a: Staged, b: Staged) {
    a.target != b.target && (a.tmp.Some? ==> a.tmp != b.tmp)
  }

  ghost predicate WellStaged(base: Files, sts: seq<Staged>) {
    && (forall i :: 0 <= i < |sts| ==> Good(base, sts[i]))
    && (forall i, j :: 0 <= i < j < |sts| ==> Apart(sts[i], sts[j]))
  }

  ghost predicate Written(files: Files, st: Staged) {
    st.target in files && files[st.target] == st.after
  }

  ghost predicate Readied(files: Files, st: Staged) {
    st.tmp.Some? ==> st.tmp.value in files && files[st.tmp.value] == st.after
  }

  ghost predicate IsTarget(sts: seq<Staged>, p: Path) {
    exists i :: 0 <= i < |sts| && sts[i].target == p
  }

  ghost predicate IsTemp(sts: seq<Staged>, p: Path) {
    exists i :: 0 <= i < |sts| && sts[i].tmp == Some(p)
  }

  /** The base with the done files rewritten, and the replacements of the rest. */
  ghost predicate DiskIs(files: Files, base: Files, done: seq<Staged>, rest: seq<Staged>) {
    && (forall p :: p in files <==> p in base || IsTemp(rest, p))
    && (forall p :: p in base && p in files && !IsTarget(done, p) ==> files[p] == base[p])
    && (forall i :: 0 <= i < |done| ==> Written(files, done[i]))
    && (forall i :: 0 <= i < |rest| ==> Readied(files, rest[i]))
  }

  /** The staged file is what the change asks for. */
  ghost predicate Serves(st: Staged, c: Change, resolved: map<Name, Path>) {
    c.file in resolved && st.target == resolved[c.file] && st.after == c.after && st.before == c.before
  }

  ghost predicate IsServed(sts: seq<Staged>, c: Change, resolved: map<Name, Path>) {
    exists i :: 0 <= i < |sts| && Serves(sts[i], c, resolved)
  }

  ghost predicate ServesOne(st: Staged, changes: seq<Change>, resolved: map<Name, Path>) {
    exists c <- changes :: Serves(st, c, resolved)
  }

  /** Every name of the staged file leads to it. */
  ghost predicate Leads(st: Staged, resolved: map<Name, Path>) {
    forall x :: x in [st.file] + st.also ==> x in resolved && resolved[x] == st.target
  }

  ghost predicate AllLead(sts: seq<Staged>, resolved: map<Name, Path>) {
    forall i :: 0 <= i < |sts| ==> Leads(sts[i], resolved)
  }

  /** Each change is staged, nothing else is, and the names are those of the changes. */
  ghost predicate Covers(sts: seq<Staged>, changes: seq<Change>, resolved: map<Name, Path>) {
    && multiset(Names(sts)) == multiset(FilesOf(changes)) && AllLead(sts, resolved)
    && (forall c <- changes :: IsServed(sts, c, resolved))
    && (forall i :: 0 <= i < |sts| ==> ServesOne(sts[i], changes, resolved))
    && (forall i :: 0 <= i < |sts| && sts[i].tmp.Some? ==> sts[i].tmp.value !in resolved.Values)
  }

  function FilesOf(changes: seq<Change>): seq<Name> {
    if changes == [] then [] else FilesOf(changes[..|changes| - 1]) + [changes[|changes| - 1].file]
  }

  datatype Error = Plain | PartlyWritten(file: Name)

  // ------------------------------------------------------------------ stage

  /** What a failed attempt leaves is what was there; what a success adds is the
      replacement. */
  method StageOne(disk: Disk, c: Change) returns (st: Option<Staged>)
    modifies disk
    ensures st.None? ==> disk.files == old(disk.files)
    ensures st.Some? ==>
      && c.file in disk.resolved && st.value.target == disk.resolved[c.file] && st.value.target in old(disk.files)
      && st.value.file == c.file && st.value.also == [] && st.value.before == c.before && st.value.after == c.after
      && old(disk.files)[st.value.target] == c.before
      && (st.value.tmp.None? ==> disk.files == old(disk.files))
      && (st.value.tmp.Some? ==> st.value.tmp.value !in old(disk.files) && st.value.tmp.value !in disk.resolved.Values)
      && (st.value.tmp.Some? ==> disk.files == old(disk.files)[st.value.tmp.value := c.after])
  {
    var target := disk.EvalSymlinks(c.file);
    if target.None? {
      return None;
    }
    var stat := disk.Works();
    var opens := disk.Works();
    if !stat || !opens {
      return None;
    }
    var readable := disk.Works();
    if !readable || disk.files[target.value] != c.before {
      return None;
    }
    var plain := Staged(c.file, target.value, [], c.before, c.after, None);
    var renameKeeps := disk.Works();
    if !renameKeeps {
      return Some(plain);
    }
    var tmp := disk.CreateTemp();
    if tmp.None? {
      return Some(plain);
    }
    var t := tmp.value;
    var wrote := disk.WriteAt(t, c.after);
    var sameGroup := disk.Works();
    var chmod := true;
    if wrote && sameGroup {
      chmod := disk.Works();
    }
    var kept := wrote && sameGroup && chmod;
    if !kept {
      disk.Remove(t);
      assert disk.files == old(disk.files);
      return if wrote && chmod then Some(plain) else None;
    }
    assert c.after[..|c.after|] == c.after && c.after + [] == c.after;
    return Some(plain.(tmp := Some(t)));
  }

  method Discard(disk: Disk, sts: seq<Staged>)
    modifies disk
    ensures disk.files == old(disk.files) - (set i | 0 <= i < |sts| && sts[i].tmp.Some? :: sts[i].tmp.value)
  {
    for i := 0 to |sts|
      invariant disk.files == old(disk.files) - (set j | 0 <= j < i && sts[j].tmp.Some? :: sts[j].tmp.value)
    {
      if sts[i].tmp.Some? {
        disk.Remove(sts[i].tmp.value);
      }
    }
  }

  /** With the replacements gone, the base is back. */
  lemma DiscardedIs(files: Files, base: Files, done: seq<Staged>, rest: seq<Staged>)
    requires DiskIs(files, base, done, rest) && WellStaged(base, done + rest)
    ensures var temps := set i | 0 <= i < |rest| && rest[i].tmp.Some? :: rest[i].tmp.value;
      DiskIs(files - temps, base, done, [])
  {
    var temps := set i | 0 <= i < |rest| && rest[i].tmp.Some? :: rest[i].tmp.value;
    assert forall i :: 0 <= i < |rest| ==> (done + rest)[|done| + i] == rest[i] && Good(base, rest[i]);
    assert forall i :: 0 <= i < |done| ==> (done + rest)[i] == done[i] && Good(base, done[i]);
    assert forall t <- temps :: t !in base;
    forall p | IsTemp(rest, p) ensures p in temps {
    }
    forall i | 0 <= i < |done| ensures Written(files - temps, done[i]) {
      assert Written(files, done[i]) && done[i].target !in temps;
    }
  }

  lemma NothingDone(files: Files, base: Files)
    ensures DiskIs(files, base, [], []) <==> files == base
  {
  }

  /** Stage: the disk untouched but for the replacements, or on an error at all. */
  method Stage(disk: Disk, changes: seq<Change>) returns (r: Option<seq<Staged>>)
    modifies disk
    ensures r.None? ==> disk.files == old(disk.files)
    ensures r.Some? ==>
      && WellStaged(old(disk.files), r.value) && DiskIs(disk.files, old(disk.files), [], r.value)
      && Covers(r.value, changes, disk.resolved)
  {
    ghost var base := disk.files;
    var sts: seq<Staged> := [];
    NothingDone(disk.files, base);
    hide *;
    UpToAll(changes);
    NothingStaged(base, disk.resolved);
    for i := 0 to |changes|
      invariant WellStaged(base, sts) && DiskIs(disk.files, base, [], sts) && Covers(sts, changes[..i], disk.resolved)
    {
      UpTo(changes, i);
      ghost var was := disk.files;
      var st := StageOne(disk, changes[i]);
      if st.None? {
        DropAll(disk, base, sts);
        return None;
      }
      var at := Find(sts, st.value.target);
      if at.Some? {
        Again(was, base, sts, st.value, at.value);
        if st.value.tmp.Some? {
          disk.Remove(st.value.tmp.value);
        }
        assert disk.files == was;
        if sts[at.value].after != st.value.after {
          DropAll(disk, base, sts);
          return None;
        }
        AlsoCovers(base, disk.files, sts, at.value, changes[..i], changes[i], disk.resolved);
        sts := sts[at.value := sts[at.value].(also := sts[at.value].also + [changes[i].file])];
      } else {
        OneMore(was, disk.files, base, sts, st.value, changes[..i], changes[i], disk.resolved);
        sts := sts + [st.value];
      }
    }
    UpToAll(changes);
    return Some(sts);
  }

  lemma UpTo(changes: seq<Change>, i: nat)
    requires i < |changes|
    ensures changes[..i + 1] == changes[..i] + [changes[i]]
  {
  }

  lemma UpToAll(changes: seq<Change>)
    ensures changes[..|changes|] == changes && changes[..0] == []
  {
  }

  method Find(sts: seq<Staged>, target: Path) returns (at: Option<nat>)
    ensures at.Some? ==> at.value < |sts| && sts[at.value].target == target
    ensures at.None? ==> !IsTarget(sts, target)
  {
    for i := 0 to |sts|
      invariant forall j :: 0 <= j < i ==> sts[j].target != target
    {
      if sts[i].target == target {
        return Some(i);
      }
    }
    return None;
  }

  method DropAll(disk: Disk, ghost base: Files, sts: seq<Staged>)
    requires WellStaged(base, sts) && DiskIs(disk.files, base, [], sts)
    modifies disk
    ensures disk.files == base
  {
    assert [] + sts == sts;
    DiscardedIs(disk.files, base, [], sts);
    Discard(disk, sts);
    NothingDone(disk.files, base);
  }

  lemma NothingStaged(base: Files, resolved: map<Name, Path>)
    ensures WellStaged(base, []) && Covers([], [], resolved)
  {
  }

  /** A file staged before holds the base's contents still. */
  lemma Again(files: Files, base: Files, sts: seq<Staged>, st: Staged, at: nat)
    requires WellStaged(base, sts) && DiskIs(files, base, [], sts) && at < |sts| && sts[at].target == st.target
    requires st.target in files && files[st.target] == st.before
    ensures sts[at].before == st.before
    ensures forall t :: t !in files ==> files[t := st.after] - {t} == files
  {
  }

  lemma {:induction false} NamesOfBoth(a: seq<Staged>, b: seq<Staged>)
    ensures Names(a + b) == Names(a) + Names(b)
    decreases |b|
  {
    if b == [] {
      assert a + b == a;
    } else {
      var n := |b| - 1;
      NamesOfBoth(a, b[..n]);
      assert a + b == (a + b[..n]) + [b[n]] && b == b[..n] + [b[n]];
      NamesOfMore(a + b[..n], b[n]);
      NamesOfMore(b[..n], b[n]);
    }
  }

  lemma NamesAlso(sts: seq<Staged>, at: nat, name: Name)
    requires at < |sts|
    ensures var more := sts[at := sts[at].(also := sts[at].also + [name])];
      forall x :: multiset(Names(more))[x] == multiset(Names(sts))[x] + if x == name then 1 else 0
  {
    hide Names;
    var st := sts[at].(also := sts[at].also + [name]);
    var a, b := sts[..at], sts[at + 1..];
    NamesAround(a, sts[at], b);
    NamesAround(a, st, b);
    assert sts == a + [sts[at]] + b && sts[at := st] == a + [st] + b;
  }

  lemma NamesAround(a: seq<Staged>, st: Staged, b: seq<Staged>)
    ensures Names(a + [st] + b) == Names(a) + [st.file] + st.also + Names(b)
  {
    NamesOfMore(a, st);
    NamesOfBoth(a + [st], b);
  }

  lemma AlsoCovers(
      base: Files, files: Files, sts: seq<Staged>, at: nat, changes: seq<Change>, c: Change, resolved: map<Name, Path>)
    requires WellStaged(base, sts) && DiskIs(files, base, [], sts) && Covers(sts, changes, resolved) && at < |sts|
    requires Serves(sts[at], c, resolved)
    ensures var more := sts[at := sts[at].(also := sts[at].also + [c.file])];
      WellStaged(base, more) && DiskIs(files, base, [], more) && Covers(more, changes + [c], resolved)
  {
    hide Names, FilesOf, WellStaged, DiskIs, Serves, IsServed, ServesOne, AllLead;
    AlsoLeads(sts, at, c, resolved);
    var st := sts[at].(also := sts[at].also + [c.file]);
    var more := sts[at := st];
    AlsoOnDisk(base, files, sts, at, c.file);
    AlsoNamed(sts, at, changes, c);
    CoversOn(sts, more, changes, c, resolved);
    SameService(sts[at], st, c, resolved);
    ServedAt(more, at, changes + [c], c, resolved);
    AllServed(more, changes, c, resolved);
  }

  lemma AlsoNamed(sts: seq<Staged>, at: nat, changes: seq<Change>, c: Change)
    requires at < |sts| && multiset(Names(sts)) == multiset(FilesOf(changes))
    ensures multiset(Names(sts[at := sts[at].(also := sts[at].also + [c.file])])) == multiset(FilesOf(changes + [c]))
  {
    hide Names, FilesOf;
    NamesAlso(sts, at, c.file);
    FilesOfMore(changes, c);
  }

  lemma AlsoLeads(sts: seq<Staged>, at: nat, c: Change, resolved: map<Name, Path>)
    requires AllLead(sts, resolved) && at < |sts| && Serves(sts[at], c, resolved)
    ensures AllLead(sts[at := sts[at].(also := sts[at].also + [c.file])], resolved)
  {
    var st := sts[at].(also := sts[at].also + [c.file]);
    forall x | x in [st.file] + st.also ensures x in resolved && resolved[x] == st.target {
      assert Leads(sts[at], resolved);
      assert x in [sts[at].file] + sts[at].also || x == c.file;
    }
  }

  lemma ServedAt(sts: seq<Staged>, i: nat, changes: seq<Change>, c: Change, resolved: map<Name, Path>)
    requires i < |sts| && Serves(sts[i], c, resolved) && c in changes
    ensures IsServed(sts, c, resolved) && ServesOne(sts[i], changes, resolved)
  {
  }

  lemma AllServed(sts: seq<Staged>, changes: seq<Change>, c: Change, resolved: map<Name, Path>)
    requires (forall d <- changes :: IsServed(sts, d, resolved)) && IsServed(sts, c, resolved)
    ensures forall d <- changes + [c] :: IsServed(sts, d, resolved)
  {
    hide IsServed;
    assert forall d :: d in changes + [c] <==> d in changes || d == c;
  }

  lemma AlsoOnDisk(base: Files, files: Files, sts: seq<Staged>, at: nat, name: Name)
    requires WellStaged(base, sts) && DiskIs(files, base, [], sts) && at < |sts|
    ensures var more := sts[at := sts[at].(also := sts[at].also + [name])];
      WellStaged(base, more) && DiskIs(files, base, [], more)
  {
    hide IsTemp, IsTarget;
    var st := sts[at].(also := sts[at].also + [name]);
    var more := sts[at := st];
    SameTemps(sts, more);
    assert Good(base, sts[at]) && Readied(files, sts[at]);
    assert forall i :: 0 <= i < at ==> Apart(sts[i], sts[at]);
    assert forall i :: at < i < |sts| ==> Apart(sts[at], sts[i]);
    hide Good, Readied;
    assert Good(base, st) && Readied(files, st) by { SameKept(base, files, sts[at], st); }
  }

  lemma SameKept(base: Files, files: Files, a: Staged, b: Staged)
    requires Good(base, a) && Readied(files, a) && SameWork(a, b) && a.tmp == b.tmp
    ensures Good(base, b) && Readied(files, b)
  {
  }

  lemma FilesOfMore(changes: seq<Change>, c: Change)
    ensures FilesOf(changes + [c]) == FilesOf(changes) + [c.file]
  {
    assert (changes + [c])[..|changes|] == changes;
  }

  lemma SameTemps(sts: seq<Staged>, more: seq<Staged>)
    requires |sts| == |more| && forall i :: 0 <= i < |sts| ==> sts[i].tmp == more[i].tmp
    ensures forall p :: IsTemp(more, p) <==> IsTemp(sts, p)
  {
    forall p | IsTemp(sts, p) ensures IsTemp(more, p) {
      var i :| 0 <= i < |sts| && sts[i].tmp == Some(p);
      assert more[i].tmp == Some(p);
    }
    forall p | IsTemp(more, p) ensures IsTemp(sts, p) {
      var i :| 0 <= i < |more| && more[i].tmp == Some(p);
      assert sts[i].tmp == Some(p);
    }
  }

  predicate SameWork(a: Staged, b: Staged) {
    a.target == b.target && a.before == b.before && a.after == b.after
  }

  /** Whatever covered the changes still does. */
  lemma CoversOn(sts: seq<Staged>, more: seq<Staged>, changes: seq<Change>, c: Change, resolved: map<Name, Path>)
    requires forall d <- changes :: IsServed(sts, d, resolved)
    requires forall i :: 0 <= i < |sts| ==> ServesOne(sts[i], changes, resolved)
    requires |sts| <= |more| && forall i :: 0 <= i < |sts| ==> SameWork(sts[i], more[i])
    ensures forall d <- changes :: IsServed(more, d, resolved)
    ensures forall i :: 0 <= i < |sts| ==> ServesOne(more[i], changes + [c], resolved)
  {
    forall d | d in changes ensures IsServed(more, d, resolved) {
      var i :| 0 <= i < |sts| && Serves(sts[i], d, resolved);
      SameService(sts[i], more[i], d, resolved);
    }
    forall i | 0 <= i < |sts| ensures ServesOne(more[i], changes + [c], resolved) {
      var d :| d in changes && Serves(sts[i], d, resolved);
      SameService(sts[i], more[i], d, resolved);
      assert d in changes + [c];
    }
  }

  lemma SameService(a: Staged, b: Staged, c: Change, resolved: map<Name, Path>)
    requires Serves(a, c, resolved) && SameWork(a, b)
    ensures Serves(b, c, resolved)
  {
  }

  lemma OneMore(was: Files, files: Files, base: Files, sts: seq<Staged>, st: Staged,
                changes: seq<Change>, c: Change, resolved: map<Name, Path>)
    requires WellStaged(base, sts) && DiskIs(was, base, [], sts) && Covers(sts, changes, resolved)
    requires !IsTarget(sts, st.target) && st.target in was && was[st.target] == st.before && Serves(st, c, resolved)
    requires st.file == c.file && st.also == []
    requires st.tmp.None? ==> files == was
    requires st.tmp.Some? ==>
      st.tmp.value !in was && st.tmp.value !in resolved.Values && files == was[st.tmp.value := st.after]
    ensures WellStaged(base, sts + [st]) && DiskIs(files, base, [], sts + [st])
      && Covers(sts + [st], changes + [c], resolved)
  {
    hide WellStaged, DiskIs, IsServed, ServesOne, Names, FilesOf, IsTarget, AllLead;
    OneMoreOnDisk(was, files, base, sts, st, changes, c, resolved);
    var more := sts + [st];
    CoversOn(sts, more, changes, c, resolved);
    OneNamed(sts, st, changes, c, resolved);
    ServedAt(more, |sts|, changes + [c], c, resolved);
    AllServed(more, changes, c, resolved);
  }

  lemma OneNamed(sts: seq<Staged>, st: Staged, changes: seq<Change>, c: Change, resolved: map<Name, Path>)
    requires multiset(Names(sts)) == multiset(FilesOf(changes)) && AllLead(sts, resolved)
    requires Serves(st, c, resolved) && st.file == c.file && st.also == []
    ensures multiset(Names(sts + [st])) == multiset(FilesOf(changes + [c])) && AllLead(sts + [st], resolved)
  {
    NamesOfMore(sts, st);
    FilesOfMore(changes, c);
    assert [st.file] + st.also == [c.file];
    assert Leads(st, resolved);
    hide Names, FilesOf, Leads, Serves;
  }

  lemma NamesOfMore(sts: seq<Staged>, st: Staged)
    ensures Names(sts + [st]) == Names(sts) + [st.file] + st.also
  {
    assert (sts + [st])[..|sts|] == sts;
  }

  lemma OneMoreOnDisk(was: Files, files: Files, base: Files, sts: seq<Staged>, st: Staged,
                      changes: seq<Change>, c: Change, resolved: map<Name, Path>)
    requires WellStaged(base, sts) && DiskIs(was, base, [], sts) && Covers(sts, changes, resolved)
    requires !IsTarget(sts, st.target) && st.target in was && was[st.target] == st.before
    requires c.file in resolved && st.target == resolved[c.file]
    requires st.tmp.None? ==> files == was
    requires st.tmp.Some? ==> st.tmp.value !in was && files == was[st.tmp.value := st.after]
    ensures WellStaged(base, sts + [st]) && DiskIs(files, base, [], sts + [st])
  {
    hide Names, FilesOf, IsServed, ServesOne, IsTarget, Good, Apart, DiskIs, WellStaged, IsTemp, Covers, Serves;
    TargetIsNoTemp(sts, changes, st.target, c, resolved);
    StagedApart(was, base, sts, st);
    WellStagedMore(base, sts, st);
    TempAdded(was, files, base, sts, st);
  }

  lemma TargetIsNoTemp(sts: seq<Staged>, changes: seq<Change>, target: Path, c: Change, resolved: map<Name, Path>)
    requires Covers(sts, changes, resolved) && c.file in resolved && target == resolved[c.file]
    ensures !IsTemp(sts, target)
  {
    hide Names, FilesOf, IsServed, ServesOne;
    assert resolved[c.file] in resolved.Values;
  }

  lemma StagedApart(was: Files, base: Files, sts: seq<Staged>, st: Staged)
    requires DiskIs(was, base, [], sts) && !IsTarget(sts, st.target) && !IsTemp(sts, st.target)
    requires st.target in was && was[st.target] == st.before && (st.tmp.Some? ==> st.tmp.value !in was)
    ensures Good(base, st) && forall i :: 0 <= i < |sts| ==> Apart(sts[i], st)
  {
    forall i | 0 <= i < |sts| ensures Apart(sts[i], st) {
      assert sts[i].tmp.Some? ==> IsTemp(sts, sts[i].tmp.value);
    }
  }

  lemma WellStagedMore(base: Files, sts: seq<Staged>, st: Staged)
    requires WellStaged(base, sts) && Good(base, st) && forall i :: 0 <= i < |sts| ==> Apart(sts[i], st)
    ensures WellStaged(base, sts + [st])
  {
    hide Good, Apart;
  }

  lemma TempAdded(was: Files, files: Files, base: Files, sts: seq<Staged>, st: Staged)
    requires DiskIs(was, base, [], sts)
    requires st.tmp.None? ==> files == was
    requires st.tmp.Some? ==> st.tmp.value !in was && files == was[st.tmp.value := st.after]
    ensures DiskIs(files, base, [], sts + [st])
  {
    MoreTemps(sts, st);
    forall i | 0 <= i < |sts| ensures Readied(files, sts[i]) {
      assert Readied(was, sts[i]);
    }
    assert Readied(files, st);
    hide Readied, IsTemp;
  }

  lemma MoreTemps(sts: seq<Staged>, st: Staged)
    ensures forall p :: IsTemp(sts + [st], p) <==> IsTemp(sts, p) || st.tmp == Some(p)
  {
    var more := sts + [st];
    forall p | IsTemp(sts, p) || st.tmp == Some(p) ensures IsTemp(more, p) {
      if st.tmp == Some(p) {
        assert more[|sts|].tmp == Some(p);
      } else {
        var i :| 0 <= i < |sts| && sts[i].tmp == Some(p);
        assert more[i].tmp == Some(p);
      }
    }
  }

  // ----------------------------------------------------------------- commit

  function Without(files: Files, tmp: Option<Path>): Files {
    match tmp case None => files case Some(t) => files - {t}
  }

  datatype Outcome = Wrote | Left | Partly

  /** Renames the replacement over the file, or overwrites it in place; on a failure
      the old contents are put back if that works. */
  method Write(disk: Disk, st: Staged) returns (out: Outcome, tmp: Option<Path>, content: Bytes)
    requires st.target in disk.files && disk.files[st.target] == st.before && Readied(disk.files, st)
    requires st.tmp != Some(st.target)
    modifies disk
    ensures match out
            case Wrote => tmp == None && disk.files == Without(old(disk.files), st.tmp)[st.target := st.after]
            case Left => disk.files == (if tmp == st.tmp then old(disk.files) else Without(old(disk.files), st.tmp))
                         && (tmp == st.tmp || tmp == None)
            case Partly => tmp == None && disk.files == Without(old(disk.files), st.tmp)[st.target := content]
  {
    tmp, content := st.tmp, [];
    if st.tmp.Some? {
      var r := disk.Rename(st.tmp.value, st.target);
      if r.Done? {
        assert disk.files == (old(disk.files) - {st.tmp.value})[st.target := st.after];
        return Wrote, None, [];
      }
      if r.Failed? {
        return Left, tmp, [];
      }
      disk.Remove(st.tmp.value);
      tmp := None;
    }
    var opens := disk.Works();
    if !opens {
      return Left, tmp, [];
    }
    out, content := Overwrite(disk, st);
  }

  method Overwrite(disk: Disk, st: Staged) returns (out: Outcome, content: Bytes)
    requires st.target in disk.files && disk.files[st.target] == st.before
    modifies disk
    ensures match out
            case Wrote => disk.files == old(disk.files)[st.target := st.after]
            case Left => disk.files == old(disk.files)
            case Partly => disk.files == old(disk.files)[st.target := content]
  {
    ghost var was := disk.files;
    content := [];
    var ok := disk.WriteAt(st.target, st.after);
    if ok {
      assert st.after[..|st.after|] == st.after;
      ok := disk.Truncate(st.target, |st.after|);
    }
    if ok {
      assert disk.files[st.target] == st.after;
      return Wrote, [];
    }
    ghost var midway := disk.files[st.target];
    assert disk.files == was[st.target := midway];
    var back := disk.WriteAt(st.target, st.before);
    if back {
      assert st.before[..|st.before|] == st.before;
      back := disk.Truncate(st.target, |st.before|);
    }
    content := disk.files[st.target];
    assert disk.files == was[st.target := content];
    if !back {
      return Partly, content;
    }
    assert content == st.before && was[st.target := st.before] == was;
    return Left, content;
  }

  /** The first count files are rewritten and every other one is as it was, but for one
      the error names as partly written; no replacement remains. */
  ghost predicate Ends(files: Files, base: Files, sts: seq<Staged>, count: nat, err: Option<Error>) {
    && count <= |sts|
    && (err == None <==> count == |sts|)
    && if err != None && err.value.PartlyWritten? then
         err.value.file == sts[count].file
         && DiskIs(files[sts[count].target := sts[count].before], base, sts[..count], [])
       else DiskIs(files, base, sts[..count], [])
  }

  /** Commit: the names written are those of the files that were rewritten, in order. */
  method Commit(disk: Disk, sts: seq<Staged>, ghost base: Files)
    returns (written: seq<Name>, err: Option<Error>, ghost count: nat)
    requires WellStaged(base, sts) && DiskIs(disk.files, base, [], sts)
    modifies disk
    ensures Ends(disk.files, base, sts, count, err) && written == Names(sts[..count])
  {
    written, err, count := [], None, 0;
    hide *;
    NoneWritten(sts);
    for i := 0 to |sts|
      invariant count == i && err == None && written == Names(sts[..i])
      invariant DiskIs(disk.files, base, sts[..i], sts[i..])
    {
      var st := sts[i];
      var out := CommitOne(disk, base, sts, i);
      if !out.Wrote? {
        err := Some(if out.Partly? then PartlyWritten(st.file) else Plain);
        EndsAt(disk.files, base, sts, i, out, err);
        return;
      }
      NamesUpTo(sts, i);
      written := written + [st.file] + st.also;
      count := i + 1;
    }
    EndsAt(disk.files, base, sts, |sts|, Wrote, None);
  }

  lemma EndsAt(files: Files, base: Files, sts: seq<Staged>, i: nat, out: Outcome, err: Option<Error>)
    requires i <= |sts| && (i == |sts| <==> out.Wrote?)
    requires err == match out
                    case Wrote => None
                    case Left => Some(Plain)
                    case Partly => Some(PartlyWritten(sts[i].file))
    requires out.Wrote? ==> DiskIs(files, base, sts[..i], sts[i..])
    requires out.Left? ==> DiskIs(files, base, sts[..i], [])
    requires out.Partly? ==> DiskIs(files[sts[i].target := sts[i].before], base, sts[..i], [])
    ensures Ends(files, base, sts, i, err)
  {
    hide DiskIs;
    if i == |sts| {
      assert sts[|sts|..] == [];
    }
  }

  /** Writes one file, or drops what is left. */
  method CommitOne(disk: Disk, ghost base: Files, sts: seq<Staged>, i: nat) returns (out: Outcome)
    requires i < |sts| && WellStaged(base, sts) && DiskIs(disk.files, base, sts[..i], sts[i..])
    modifies disk
    ensures out.Wrote? ==> DiskIs(disk.files, base, sts[..i + 1], sts[i + 1..])
    ensures out.Left? ==> DiskIs(disk.files, base, sts[..i], [])
    ensures out.Partly? ==> DiskIs(disk.files[sts[i].target := sts[i].before], base, sts[..i], [])
  {
    hide WellStaged, DiskIs, Without, Readied;
    var st, rest := sts[i], sts[i + 1..];
    ghost var done := sts[..i];
    assert sts[i..] == [st] + rest && sts == done + sts[i..] && sts[..i + 1] == done + [st];
    ghost var was := disk.files;
    BeforeWrite(was, base, done, st, rest);
    AfterWrite(was, base, done, st, rest);
    var tmp, content;
    out, tmp, content := Write(disk, st);
    if !out.Wrote? {
      FixedIs(was, disk.files, st, out, tmp, content);
      Fail(disk, base, was, done, st, tmp, rest);
      assert out.Left? ==> disk.files[st.target := st.before] == disk.files;
    }
  }

  lemma NamesUpTo(sts: seq<Staged>, i: nat)
    requires i < |sts|
    ensures Names(sts[..i + 1]) == Names(sts[..i]) + [sts[i].file] + sts[i].also
  {
    assert sts[..i + 1] == sts[..i] + [sts[i]];
    NamesOfMore(sts[..i], sts[i]);
  }

  lemma NoneWritten(sts: seq<Staged>)
    ensures Names(sts[..0]) == [] && sts[..0] == [] && sts[0..] == sts
  {
  }

  lemma BeforeWrite(files: Files, base: Files, done: seq<Staged>, st: Staged, rest: seq<Staged>)
    requires DiskIs(files, base, done, [st] + rest) && WellStaged(base, done + ([st] + rest))
    ensures st.target in files && files[st.target] == st.before && Readied(files, st) && st.tmp != Some(st.target)
  {
    StagedAround(files, base, done, st, rest);
    hide WellStaged, IsTemp;
  }

  /** The rest of the disk does not see the one file and its replacement. */
  lemma AfterWrite(files: Files, base: Files, done: seq<Staged>, st: Staged, rest: seq<Staged>)
    requires DiskIs(files, base, done, [st] + rest) && WellStaged(base, done + ([st] + rest))
    ensures DiskIs(Without(files, st.tmp)[st.target := st.after], base, done + [st], rest)
  {
    hide IsTarget, IsTemp;
    var now := Without(files, st.tmp)[st.target := st.after];
    OneWithout(files, base, done, st, rest);
    MoreTargets(done, st);
    var mid := Without(files, st.tmp);
    forall i | 0 <= i < |done| ensures Written(now, done[i]) {
      assert Written(mid, done[i]);
      assert (done + ([st] + rest))[i] == done[i] && (done + ([st] + rest))[|done|] == st;
      assert Apart(done[i], st);
    }
    forall i | 0 <= i < |rest| ensures Readied(now, rest[i]) {
      assert Readied(mid, rest[i]);
      assert (done + ([st] + rest))[|done| + 1 + i] == rest[i] && (done + ([st] + rest))[|done|] == st;
      assert Good(base, rest[i]) && Good(base, st);
    }
    assert (done + ([st] + rest))[|done|] == st && Good(base, st);
    assert Written(now, st);
    hide Apart, Readied, Good;
  }

  lemma MoreTargets(done: seq<Staged>, st: Staged)
    ensures forall p :: IsTarget(done + [st], p) <==> IsTarget(done, p) || st.target == p
  {
    var more := done + [st];
    forall p | IsTarget(done, p) || st.target == p ensures IsTarget(more, p) {
      if st.target == p {
        assert more[|done|].target == p;
      } else {
        var i :| 0 <= i < |done| && done[i].target == p;
        assert more[i].target == p;
      }
    }
  }

  lemma OneWithout(files: Files, base: Files, done: seq<Staged>, st: Staged, rest: seq<Staged>)
    requires DiskIs(files, base, done, [st] + rest) && WellStaged(base, done + ([st] + rest))
    ensures DiskIs(Without(files, st.tmp), base, done, rest)
  {
    StagedAround(files, base, done, st, rest);
    FirstTemp(st, rest);
    var now := Without(files, st.tmp);
    assert st.tmp.Some? ==> !IsTemp(rest, st.tmp.value);
    forall i | 0 <= i < |done| ensures Written(now, done[i]) {
      assert Written(files, done[i]) && Good(base, done[i]);
    }
    hide IsTemp, IsTarget, WellStaged;
    forall i | 0 <= i < |rest| ensures Readied(now, rest[i]) {
      assert Readied(files, rest[i]) && Apart(st, rest[i]);
    }
  }

  lemma StagedAround(files: Files, base: Files, done: seq<Staged>, st: Staged, rest: seq<Staged>)
    requires DiskIs(files, base, done, [st] + rest) && WellStaged(base, done + ([st] + rest))
    ensures Good(base, st) && Readied(files, st)
    ensures forall i :: 0 <= i < |done| ==> Good(base, done[i]) && Apart(done[i], st)
    ensures forall i :: 0 <= i < |rest| ==> Good(base, rest[i]) && Apart(st, rest[i]) && Readied(files, rest[i])
  {
    hide Good, Apart, Readied, IsTemp, IsTarget, Written;
    var all := done + ([st] + rest);
    assert all[|done|] == st && ([st] + rest)[0] == st;
    assert forall i :: 0 <= i < |done| ==> all[i] == done[i];
    assert forall i :: 0 <= i < |rest| ==> all[|done| + 1 + i] == rest[i] && ([st] + rest)[i + 1] == rest[i];
  }

  lemma FirstTemp(st: Staged, rest: seq<Staged>)
    ensures forall p :: IsTemp([st] + rest, p) <==> st.tmp == Some(p) || IsTemp(rest, p)
  {
    var all := [st] + rest;
    forall p | st.tmp == Some(p) || IsTemp(rest, p) ensures IsTemp(all, p) {
      if st.tmp == Some(p) {
        assert all[0].tmp == Some(p);
      } else {
        var i :| 0 <= i < |rest| && rest[i].tmp == Some(p);
        assert all[i + 1].tmp == Some(p);
      }
    }
  }

  lemma AfterFailure(
      was: Files, files: Files, base: Files, done: seq<Staged>, st: Staged, tmp: Option<Path>, rest: seq<Staged>)
    requires DiskIs(was, base, done, [st] + rest) && WellStaged(base, done + ([st] + rest))
    requires tmp == st.tmp || tmp == None
    requires files == if tmp == st.tmp then was else Without(was, st.tmp)
    ensures DiskIs(files, base, done, [st.(tmp := tmp)] + rest) && WellStaged(base, done + ([st.(tmp := tmp)] + rest))
  {
    if tmp == st.tmp {
      assert st.(tmp := tmp) == st;
    } else {
      OneWithout(was, base, done, st, rest);
      var bare := st.(tmp := None);
      FirstTemp(bare, rest);
      assert Readied(files, bare);
      BareIsWellStaged(base, done, st, rest);
      hide Readied, IsTemp, IsTarget, WellStaged, Without;
    }
  }

  lemma BareIsWellStaged(base: Files, done: seq<Staged>, st: Staged, rest: seq<Staged>)
    requires WellStaged(base, done + ([st] + rest))
    ensures WellStaged(base, done + ([st.(tmp := None)] + rest))
  {
    var bare := st.(tmp := None);
    var was, now := done + ([st] + rest), done + ([bare] + rest);
    forall i | 0 <= i < |now| ensures Good(base, now[i]) {
      assert Good(base, was[i]);
      assert now[i] == if i == |done| then bare else was[i];
    }
    forall i, j | 0 <= i < j < |now| ensures Apart(now[i], now[j]) {
      assert Apart(was[i], was[j]);
      assert now[i] == if i == |done| then bare else was[i];
      assert now[j] == if j == |done| then bare else was[j];
    }
  }

  /** But for the one file, a failed write leaves the disk as it was, with or without
      the replacement. */
  lemma FixedIs(was: Files, files: Files, st: Staged, out: Outcome, tmp: Option<Path>, content: Bytes)
    requires st.target in was && was[st.target] == st.before && st.tmp != Some(st.target)
    requires match out
             case Wrote => false
             case Left => files == (if tmp == st.tmp then was else Without(was, st.tmp))
               && (tmp == st.tmp || tmp == None)
             case Partly => tmp == None && files == Without(was, st.tmp)[st.target := content]
    ensures st.target in files && files[st.target := st.before] == (if tmp == st.tmp then was else Without(was, st.tmp))
    ensures tmp == st.tmp || tmp == None
    ensures out.Left? ==> files[st.target] == st.before
  {
  }

  method Fail(
      disk: Disk, ghost base: Files, ghost was: Files, ghost done: seq<Staged>, st: Staged, tmp: Option<Path>,
      rest: seq<Staged>)
    requires DiskIs(was, base, done, [st] + rest) && WellStaged(base, done + ([st] + rest))
    requires st.target in disk.files && (tmp == st.tmp || tmp == None)
    requires disk.files[st.target := st.before] == if tmp == st.tmp then was else Without(was, st.tmp)
    modifies disk
    ensures DiskIs(disk.files[st.target := st.before], base, done, [])
    ensures st.target in disk.files && disk.files[st.target] == old(disk.files)[st.target]
  {
    hide Without, DiskIs;
    ghost var fixed := disk.files[st.target := st.before];
    var all := [st.(tmp := tmp)] + rest;
    AfterFailure(was, fixed, base, done, st, tmp, rest);
    DiscardedIs(fixed, base, done, all);
    ghost var temps := set i | 0 <= i < |all| && all[i].tmp.Some? :: all[i].tmp.value;
    TargetIsKept(base, done, all, st.target);
    assert fixed - temps == (disk.files - temps)[st.target := st.before];
    Discard(disk, all);
  }

  lemma TargetIsKept(base: Files, done: seq<Staged>, rest: seq<Staged>, target: Path)
    requires WellStaged(base, done + rest) && rest != [] && rest[0].target == target
    ensures target !in set i | 0 <= i < |rest| && rest[i].tmp.Some? :: rest[i].tmp.value
  {
    assert forall i :: 0 <= i < |rest| ==> (done + rest)[|done| + i] == rest[i] && Good(base, rest[i]);
  }

  // --------------------------------------------------------------- in all

  /** The disk with a partly written file's old contents back. */
  function Mended(files: Files, sts: seq<Staged>, count: nat, err: Option<Error>): Files
    requires err != None && err.value.PartlyWritten? ==> count < |sts|
  {
    if err != None && err.value.PartlyWritten? then files[sts[count].target := sts[count].before] else files
  }

  lemma MendedIs(files: Files, base: Files, sts: seq<Staged>, count: nat, err: Option<Error>)
    requires WellStaged(base, sts) && Ends(files, base, sts, count, err)
    ensures DiskIs(Mended(files, sts, count, err), base, sts[..count], [])
      && Mended(files, sts, count, err).Keys == base.Keys
  {
    hide WellStaged, IsTarget;
    forall p ensures !IsTemp([], p) {
    }
  }

  /** What a whole rewrite leaves of a change's file: After, when the file is among the
      first count, whose names Commit returned, and else Before, but for one the error
      names. */
  lemma AllOrNone(files: Files, base: Files, sts: seq<Staged>, changes: seq<Change>, resolved: map<Name, Path>,
                  count: nat, err: Option<Error>, c: Change) returns (i: nat)
    requires WellStaged(base, sts) && Covers(sts, changes, resolved) && Ends(files, base, sts, count, err)
      && c in changes
    ensures i < |sts| && Serves(sts[i], c, resolved) && (i < count <==> c.file in Names(sts[..count]))
    ensures i < count ==> Holds(files, resolved[c.file], c.after)
    ensures i >= count && !(i == count && err == Some(PartlyWritten(sts[i].file)))
      ==> Holds(files, resolved[c.file], c.before)
  {
    assert IsServed(sts, c, resolved);
    i :| 0 <= i < |sts| && Serves(sts[i], c, resolved);
    NamedIffServed(base, sts, changes, resolved, count, i, c);
    hide Covers, Names;
    MendedIs(files, base, sts, count, err);
    MendedHolds(files, base, sts, i, count, err);
  }

  /** A change's name is among those of the first count files exactly when its own file is. */
  lemma NamedIffServed(
      base: Files, sts: seq<Staged>, changes: seq<Change>, resolved: map<Name, Path>, count: nat, i: nat, c: Change)
    requires WellStaged(base, sts) && Covers(sts, changes, resolved) && c in changes
    requires count <= |sts| && i < |sts| && Serves(sts[i], c, resolved)
    ensures i < count <==> c.file in Names(sts[..count])
  {
    hide Names, FilesOf, IsServed, ServesOne, Good, WellStaged, Leads;
    InFilesOf(changes, c);
    assert c.file in multiset(Names(sts));
    var j := InNames(sts, c.file);
    OneLeads(base, sts, resolved, i, j, c);
    if i < count {
      NamesHold(sts[..count], i, c.file);
    } else if c.file in Names(sts[..count]) {
      var k := InNames(sts[..count], c.file);
      OneLeads(base, sts, resolved, i, k, c);
    }
  }

  lemma OneLeads(base: Files, sts: seq<Staged>, resolved: map<Name, Path>, i: nat, j: nat, c: Change)
    requires WellStaged(base, sts) && AllLead(sts, resolved) && i < |sts| && j < |sts| && Serves(sts[i], c, resolved)
    requires c.file in [sts[j].file] + sts[j].also
    ensures i == j
  {
    assert Leads(sts[j], resolved);
    assert i < j ==> Apart(sts[i], sts[j]);
    assert j < i ==> Apart(sts[j], sts[i]);
  }

  lemma {:induction false} InFilesOf(changes: seq<Change>, c: Change)
    requires c in changes
    ensures c.file in FilesOf(changes)
    decreases |changes|
  {
    var n := |changes| - 1;
    if changes[n] != c {
      assert c in changes[..n];
      InFilesOf(changes[..n], c);
    }
  }

  lemma {:induction false} InNames(sts: seq<Staged>, x: Name) returns (i: nat)
    requires x in Names(sts)
    ensures i < |sts| && x in [sts[i].file] + sts[i].also
    decreases |sts|
  {
    i := |sts| - 1;
    if x in Names(sts[..i]) {
      i := InNames(sts[..i], x);
    }
  }

  lemma {:induction false} NamesHold(sts: seq<Staged>, i: nat, x: Name)
    requires i < |sts| && x in [sts[i].file] + sts[i].also
    ensures x in Names(sts)
    decreases |sts|
  {
    var n := |sts| - 1;
    if i < n {
      NamesHold(sts[..n], i, x);
    }
  }

  predicate Holds(files: Files, p: Path, content: Bytes) {
    p in files && files[p] == content
  }

  lemma MendedHolds(files: Files, base: Files, sts: seq<Staged>, i: nat, count: nat, err: Option<Error>)
    requires WellStaged(base, sts) && Ends(files, base, sts, count, err) && i < |sts|
    requires DiskIs(Mended(files, sts, count, err), base, sts[..count], [])
      && Mended(files, sts, count, err).Keys == base.Keys
    ensures i < count ==> Holds(files, sts[i].target, sts[i].after)
    ensures i >= count && !(i == count && err == Some(PartlyWritten(sts[i].file)))
      ==> Holds(files, sts[i].target, sts[i].before)
  {
    var done, mended := sts[..count], Mended(files, sts, count, err);
    assert Good(base, sts[i]);
    if i < count {
      assert done[i] == sts[i] && Written(mended, done[i]);
      if count < |sts| {
        assert Apart(sts[i], sts[count]);
      }
    } else {
      forall j | 0 <= j < count ensures done[j].target != sts[i].target {
        assert done[j] == sts[j] && Apart(sts[j], sts[i]);
      }
      assert !IsTarget(done, sts[i].target);
      assert mended[sts[i].target] == base[sts[i].target];
      if count < i {
        assert Apart(sts[count], sts[i]);
      }
    }
  }

  /** Files no change leads to are untouched, and none is new or gone. */
  lemma OthersUntouched(files: Files, base: Files, sts: seq<Staged>, changes: seq<Change>, resolved: map<Name, Path>,
                        count: nat, err: Option<Error>, p: Path)
    requires WellStaged(base, sts) && Covers(sts, changes, resolved) && Ends(files, base, sts, count, err)
    requires forall c <- changes :: c.file in resolved ==> resolved[c.file] != p
    ensures p in files <==> p in base
    ensures p in base ==> files[p] == base[p]
  {
    hide Names;
    forall i | 0 <= i < |sts| ensures sts[i].target != p {
      assert ServesOne(sts[i], changes, resolved);
    }
    assert !IsTarget(sts[..count], p);
    MendedIs(files, base, sts, count, err);
    hide Covers, WellStaged, IsTarget;
  }
}
