/** The drill's plan: mutants assigned to shards longest first, each to the shard with
    the least load; and the check that the shards of a run split the mutants. Weights
    are exact. */
module ShardPlan {
  import opened StringOrder

  type Weights = map<string, real>

  const DEFAULT_WEIGHT := 30.0
  const SHARED_DIVISOR := 2.0

  function Weight(ws: Weights, name: string): real {
    if name in ws then ws[name] else DEFAULT_WEIGHT
  }

  /** The wall time a mutant adds to its shard. */
  function Effective(ws: Weights, modes: map<string, string>, name: string): real {
    if name in modes && modes[name] == "shared" then Weight(ws, name) / SHARED_DIVISOR else Weight(ws, name)
  }

  // --------------------------------------------------------------- the order

  /** Heavier first, then by name. */
  predicate Before(ws: Weights, a: string, b: string) {
    Weight(ws, a) > Weight(ws, b) || (Weight(ws, a) == Weight(ws, b) && Below(a, b))
  }

  ghost predicate Sorted(ws: Weights, s: seq<string>) {
    forall i, j :: 0 <= i < j < |s| ==> !Before(ws, s[j], s[i])
  }

  lemma BeforeIsTotal(ws: Weights, a: string, b: string)
    ensures Before(ws, a, b) || a == b || Before(ws, b, a)
    ensures !(Before(ws, a, b) && Before(ws, b, a)) && !Before(ws, a, a)
  {
    BelowIsTotal(a, b);
    BelowIsTotal(a, a);
  }

  lemma BeforeIsTransitive(ws: Weights, a: string, b: string, c: string)
    requires Before(ws, a, b) && Before(ws, b, c)
    ensures Before(ws, a, c)
  {
    if Below(a, b) && Below(b, c) {
      BelowIsTransitive(a, b, c);
    }
  }

  function Insert(ws: Weights, x: string, s: seq<string>): (r: seq<string>)
    ensures multiset(r) == multiset(s) + multiset{x}
    ensures forall y <- r :: y == x || y in s
  {
    if s == [] then [x]
    else if Before(ws, x, s[0]) then [x] + s
    else
      assert s == [s[0]] + s[1..];
      [s[0]] + Insert(ws, x, s[1..])
  }

  lemma NoneBefore(ws: Weights, x: string, first: string, y: string)
    requires Before(ws, x, first) && !Before(ws, y, first)
    ensures !Before(ws, y, x)
  {
    if Before(ws, y, x) {
      BeforeIsTransitive(ws, y, x, first);
    }
  }

  lemma {:induction false} InsertIsSorted(ws: Weights, x: string, s: seq<string>)
    requires Sorted(ws, s)
    ensures Sorted(ws, Insert(ws, x, s))
  {
    hide Before;
    if s != [] && Before(ws, x, s[0]) {
      BeforeIsTotal(ws, s[0], s[0]);
      forall i | 0 <= i < |s| ensures !Before(ws, s[i], x) {
        NoneBefore(ws, x, s[0], s[i]);
      }
    } else if s != [] {
      var r := Insert(ws, x, s[1..]);
      InsertIsSorted(ws, x, s[1..]);
      assert forall y <- s[1..] :: !Before(ws, y, s[0]);
      assert forall y <- r :: !Before(ws, y, s[0]);
    }
  }

  /** The stable sort, which equal names leave no choice. */
  function Sort(ws: Weights, s: seq<string>): (r: seq<string>)
    ensures multiset(r) == multiset(s)
  {
    if s == [] then [] else
      assert s == [s[0]] + s[1..];
      Insert(ws, s[0], Sort(ws, s[1..]))
  }

  lemma {:induction false} SortIsSorted(ws: Weights, s: seq<string>)
    ensures Sorted(ws, Sort(ws, s))
  {
    if s != [] {
      SortIsSorted(ws, s[1..]);
      InsertIsSorted(ws, s[0], Sort(ws, s[1..]));
    }
  }

  /** Of one collection of names there is one sorted list. */
  lemma {:induction false} SortedIsUnique(ws: Weights, a: seq<string>, b: seq<string>)
    requires Sorted(ws, a) && Sorted(ws, b) && multiset(a) == multiset(b)
    ensures a == b
    decreases |a|
  {
    assert |multiset(a)| == |a| && |multiset(b)| == |b|;
    if a != [] {
      FirstIsFirst(ws, a, b);
      assert a == [a[0]] + a[1..] && b == [b[0]] + b[1..];
      CancelOne(multiset(a[1..]), multiset(b[1..]), a[0]);
      hide Before;
      SortedIsUnique(ws, a[1..], b[1..]);
    }
  }

  lemma FirstIsFirst(ws: Weights, a: seq<string>, b: seq<string>)
    requires Sorted(ws, a) && Sorted(ws, b) && multiset(a) == multiset(b) && a != [] && b != []
    ensures a[0] == b[0]
  {
    assert a[0] in multiset(b) && b[0] in multiset(a);
    var i :| 0 <= i < |b| && b[i] == a[0];
    var j :| 0 <= j < |a| && a[j] == b[0];
    BeforeIsTotal(ws, a[0], b[0]);
    hide Before;
  }

  lemma CancelOne<T>(a: multiset<T>, b: multiset<T>, x: T)
    requires multiset{x} + a == multiset{x} + b
    ensures a == b
  {
    forall y ensures a[y] == b[y] {
      assert (multiset{x} + a)[y] == (multiset{x} + b)[y];
    }
  }

  // ---------------------------------------------------------------- the plan

  type Buckets = seq<seq<string>>

  function Sum(load: seq<real>): real {
    if load == [] then 0.0 else Sum(load[..|load| - 1]) + load[|load| - 1]
  }

  /** The first shard with the least load. */
  function Lightest(load: seq<real>): (slot: nat)
    requires load != []
    ensures slot < |load| && forall i :: 0 <= i < |load| ==> load[slot] <= load[i]
  {
    if |load| == 1 then 0 else
      var slot := Lightest(load[..|load| - 1]);
      if load[|load| - 1] < load[slot] then |load| - 1 else slot
  }

  /** The wall time of a shard's mutants. */
  function LoadOf(ws: Weights, modes: map<string, string>, names: seq<string>): real {
    if names == [] then 0.0 else LoadOf(ws, modes, names[..|names| - 1]) + Effective(ws, modes, names[|names| - 1])
  }

  function Loads(ws: Weights, modes: map<string, string>, buckets: Buckets): (load: seq<real>)
    ensures |load| == |buckets|
  {
    seq(|buckets|, i requires 0 <= i < |buckets| => LoadOf(ws, modes, buckets[i]))
  }

  function Assigned(ws: Weights, modes: map<string, string>, order: seq<string>, shards: nat): (buckets: Buckets)
    requires shards > 0
    ensures |buckets| == shards
  {
    if order == [] then seq(shards, i => []) else
      var before, name := Assigned(ws, modes, order[..|order| - 1], shards), order[|order| - 1];
      var slot := Lightest(Loads(ws, modes, before));
      before[slot := before[slot] + [name]]
  }

  function Scheduled(ws: Weights, modes: map<string, string>, names: seq<string>, shards: nat): (buckets: Buckets)
    requires shards > 0
    ensures |buckets| == shards
  {
    Assigned(ws, modes, Sort(ws, names), shards)
  }

  method Schedule(names: seq<string>, modes: map<string, string>, ws: Weights, shards: nat) returns (buckets: Buckets)
    requires names != [] ==> shards > 0
    ensures shards > 0 ==> buckets == Scheduled(ws, modes, names, shards)
    ensures shards == 0 ==> buckets == []
  {
    hide Effective, Sort, Planned, Scheduled, Assigned;
    var load;
    buckets, load := NothingPlaced(ws, modes, shards);
    var order := Sort(ws, names);
    SortKeepsLength(ws, names);
    ScheduledIs(ws, modes, names, shards);
    assert order[..0] == [];
    for k := 0 to |order|
      invariant Planned(ws, modes, order[..k], shards, buckets, load)
    {
      assert order[..k + 1] == order[..k] + [order[k]];
      buckets, load := Place(ws, modes, order[..k], order[k], shards, buckets, load);
    }
    assert order[..|order|] == order;
    PlannedMeans(ws, modes, order, shards, buckets, load);
  }

  method NothingPlaced(ws: Weights, modes: map<string, string>, shards: nat) returns (buckets: Buckets, load: seq<real>)
    ensures Planned(ws, modes, [], shards, buckets, load)
  {
    buckets := seq(shards, i => []);
    load := seq(shards, i => 0.0);
    assert load == Loads(ws, modes, buckets);
  }

  ghost predicate Planned(
      ws: Weights, modes: map<string, string>, done: seq<string>, shards: nat, buckets: Buckets, load: seq<real>) {
    && |load| == |buckets| == shards
    && (shards > 0 ==> buckets == Assigned(ws, modes, done, shards) && load == Loads(ws, modes, buckets))
  }

  lemma PlannedMeans(
      ws: Weights, modes: map<string, string>, done: seq<string>, shards: nat, buckets: Buckets, load: seq<real>)
    requires Planned(ws, modes, done, shards, buckets, load)
    ensures |buckets| == shards && (shards > 0 ==> buckets == Assigned(ws, modes, done, shards))
  {
  }

  /** The next name, on the shard with the least load. */
  method Place(ws: Weights, modes: map<string, string>, ghost done: seq<string>, name: string, shards: nat,
               buckets0: Buckets, load0: seq<real>) returns (buckets: Buckets, load: seq<real>)
    requires shards > 0 && Planned(ws, modes, done, shards, buckets0, load0)
    ensures Planned(ws, modes, done + [name], shards, buckets, load)
  {
    hide Assigned, Loads, LoadOf, Lightest;
    var slot := FindLightest(load0);
    AssignedStep(ws, modes, done, name, shards);
    LoadsWith(ws, modes, buckets0, slot, name);
    buckets := buckets0[slot := buckets0[slot] + [name]];
    var w := if name in ws then ws[name] else DEFAULT_WEIGHT;
    if name in modes && modes[name] == "shared" {
      w := w / SHARED_DIVISOR;
    }
    load := load0[slot := load0[slot] + w];
  }

  lemma SortKeepsLength(ws: Weights, names: seq<string>)
    ensures |Sort(ws, names)| == |names|
  {
    assert |multiset(Sort(ws, names))| == |Sort(ws, names)| && |multiset(names)| == |names|;
  }

  lemma ScheduledIs(ws: Weights, modes: map<string, string>, names: seq<string>, shards: nat)
    ensures shards > 0 ==> Scheduled(ws, modes, names, shards) == Assigned(ws, modes, Sort(ws, names), shards)
  {
  }

  method FindLightest(load: seq<real>) returns (slot: nat)
    requires load != []
    ensures slot == Lightest(load)
  {
    slot := 0;
    assert Lightest(load[..1]) == 0;
    for i := 1 to |load|
      invariant slot < i && slot == Lightest(load[..i])
    {
      assert load[..i + 1][..i] == load[..i];
      if load[i] < load[slot] {
        slot := i;
      }
    }
    assert load[..|load|] == load;
  }

  lemma AssignedStep(ws: Weights, modes: map<string, string>, order: seq<string>, name: string, shards: nat)
    requires shards > 0
    ensures var before := Assigned(ws, modes, order, shards);
      var slot := Lightest(Loads(ws, modes, before));
      Assigned(ws, modes, order + [name], shards) == before[slot := before[slot] + [name]]
  {
    assert (order + [name])[..|order|] == order;
  }

  // ----------------------------------------------- longest first, to the least loaded

  /** Heaviest first, and by name where weights are equal. */
  ghost predicate Falls(ws: Weights, bucket: seq<string>) {
    forall a, b :: 0 <= a < b < |bucket| ==>
      && Weight(ws, bucket[a]) >= Weight(ws, bucket[b])
      && (Weight(ws, bucket[a]) == Weight(ws, bucket[b]) ==> !Below(bucket[b], bucket[a]))
  }

  /** Without its last mutant the bucket is no fuller than any other. */
  ghost predicate LastFits(ws: Weights, modes: map<string, string>, buckets: Buckets, i: nat)
    requires i < |buckets|
  {
    buckets[i] != [] ==>
      forall j :: 0 <= j < |buckets| ==>
        LoadOf(ws, modes, buckets[i][..|buckets[i]| - 1]) <= LoadOf(ws, modes, buckets[j])
  }

  lemma {:induction false} AssignedFall(
      ws: Weights, modes: map<string, string>, order: seq<string>, shards: nat, i: nat)
    requires i < shards && Sorted(ws, order)
    ensures Falls(ws, Assigned(ws, modes, order, shards)[i])
    ensures forall x <- Assigned(ws, modes, order, shards)[i] :: x in order
  {
    hide Lightest, Loads, Effective, Below;
    if order != [] {
      var n := |order| - 1;
      AssignedFall(ws, modes, order[..n], shards, i);
      var before := Assigned(ws, modes, order[..n], shards)[i];
      forall a | 0 <= a < |before| ensures !Before(ws, order[n], before[a]) {
        assert before[a] in order[..n];
        var k :| 0 <= k < n && order[..n][k] == before[a];
        assert order[k] == before[a];
      }
    }
  }

  lemma {:induction false} AssignedLastFits(
      ws: Weights, modes: map<string, string>, order: seq<string>, shards: nat, i: nat)
    requires i < shards && forall x <- order :: 0.0 <= Effective(ws, modes, x)
    ensures LastFits(ws, modes, Assigned(ws, modes, order, shards), i)
  {
    hide Lightest, Effective, LoadOf;
    if order != [] {
      var n := |order| - 1;
      var before := Assigned(ws, modes, order[..n], shards);
      AssignedLastFits(ws, modes, order[..n], shards, i);
      var slot := FindLeast(ws, modes, before);
      FullerByOne(ws, modes, before[slot], order[n]);
    }
  }

  lemma FindLeast(ws: Weights, modes: map<string, string>, buckets: Buckets) returns (slot: nat)
    requires buckets != []
    ensures slot == Lightest(Loads(ws, modes, buckets)) && slot < |buckets|
    ensures forall j :: 0 <= j < |buckets| ==> LoadOf(ws, modes, buckets[slot]) <= LoadOf(ws, modes, buckets[j])
  {
    hide LoadOf;
    var load := Loads(ws, modes, buckets);
    slot := Lightest(load);
    assert forall j :: 0 <= j < |buckets| ==> load[j] == LoadOf(ws, modes, buckets[j]);
  }

  lemma FullerByOne(ws: Weights, modes: map<string, string>, bucket: seq<string>, name: string)
    ensures LoadOf(ws, modes, bucket + [name]) == LoadOf(ws, modes, bucket) + Effective(ws, modes, name)
    ensures (bucket + [name])[..|bucket|] == bucket
  {
    assert (bucket + [name])[..|bucket|] == bucket;
  }

  /** In every bucket of the plan the mutants come heaviest first, and the last of them was
      put where least had been put. */
  lemma PlanIsGreedy(ws: Weights, modes: map<string, string>, names: seq<string>, shards: nat, i: nat)
    requires i < shards && forall x <- names :: 0.0 <= Effective(ws, modes, x)
    ensures Falls(ws, Scheduled(ws, modes, names, shards)[i])
    ensures LastFits(ws, modes, Scheduled(ws, modes, names, shards), i)
  {
    var order := Sort(ws, names);
    SortIsSorted(ws, names);
    assert forall x <- order :: x in multiset(names);
    hide Sort, Assigned, Falls, LastFits, Effective;
    AssignedFall(ws, modes, order, shards, i);
    AssignedLastFits(ws, modes, order, shards, i);
  }

  // ------------------------------------------------------------- a partition

  function Concat(buckets: Buckets): seq<string> {
    if buckets == [] then [] else Concat(buckets[..|buckets| - 1]) + buckets[|buckets| - 1]
  }

  lemma {:induction false} ConcatOfBoth(a: Buckets, b: Buckets)
    ensures Concat(a + b) == Concat(a) + Concat(b)
    decreases |b|
  {
    if b == [] {
      assert a + b == a;
    } else {
      var front := b[..|b| - 1];
      ConcatOfBoth(a, front);
      assert (a + b)[..|a + b| - 1] == a + front;
    }
  }

  lemma ConcatOfOne(bucket: seq<string>)
    ensures Concat([bucket]) == bucket
  {
    assert [bucket][..0] == [];
  }

  lemma ConcatAround(a: Buckets, bucket: seq<string>, b: Buckets)
    ensures Concat(a + [bucket] + b) == Concat(a) + bucket + Concat(b)
  {
    ConcatOfBoth(a + [bucket], b);
    ConcatOfBoth(a, [bucket]);
    ConcatOfOne(bucket);
  }

  lemma ConcatWith(buckets: Buckets, i: nat, x: string)
    requires i < |buckets|
    ensures multiset(Concat(buckets[i := buckets[i] + [x]])) == multiset(Concat(buckets)) + multiset{x}
  {
    hide Concat;
    var a, b := buckets[..i], buckets[i + 1..];
    assert buckets == a + [buckets[i]] + b && buckets[i := buckets[i] + [x]] == a + [buckets[i] + [x]] + b;
    ConcatAround(a, buckets[i], b);
    ConcatAround(a, buckets[i] + [x], b);
  }

  lemma {:induction false} NothingAssigned(n: nat)
    ensures Concat(seq(n, i => [])) == []
  {
    if n > 0 {
      var buckets: Buckets := seq(n, i => []);
      assert buckets[..n - 1] == seq(n - 1, i => []);
      NothingAssigned(n - 1);
    }
  }

  lemma {:induction false} AssignedPartitions(ws: Weights, modes: map<string, string>, order: seq<string>, shards: nat)
    requires shards > 0
    ensures multiset(Concat(Assigned(ws, modes, order, shards))) == multiset(order)
  {
    hide Lightest, Loads, Concat;
    if order == [] {
      NothingAssigned(shards);
    } else {
      var before, name := order[..|order| - 1], order[|order| - 1];
      AssignedPartitions(ws, modes, before, shards);
      var buckets := Assigned(ws, modes, before, shards);
      ConcatWith(buckets, Lightest(Loads(ws, modes, buckets)), name);
      assert order == before + [name];
    }
  }

  /** Every name is in one bucket, as often as it was given. */
  lemma SchedulePartitions(ws: Weights, modes: map<string, string>, names: seq<string>, shards: nat)
    requires shards > 0
    ensures multiset(Concat(Scheduled(ws, modes, names, shards))) == multiset(names)
  {
    AssignedPartitions(ws, modes, Sort(ws, names), shards);
  }

  /** The order in which the names are given does not matter. */
  lemma ScheduleIgnoresOrder(ws: Weights, modes: map<string, string>, a: seq<string>, b: seq<string>, shards: nat)
    requires shards > 0 && multiset(a) == multiset(b)
    ensures Scheduled(ws, modes, a, shards) == Scheduled(ws, modes, b, shards)
  {
    SortIsSorted(ws, a);
    SortIsSorted(ws, b);
    SortedIsUnique(ws, Sort(ws, a), Sort(ws, b));
  }

  // --------------------------------------------------------------- the bound

  function Times(a: real, b: real): real {
    a * b
  }

  lemma {:induction false} LeastIsBelowMean(load: seq<real>, least: real)
    requires forall i :: 0 <= i < |load| ==> least <= load[i]
    ensures Times(|load| as real, least) <= Sum(load)
  {
    if load != [] {
      LeastIsBelowMean(load[..|load| - 1], least);
      assert |load| as real * least == (|load| - 1) as real * least + least;
    }
  }

  lemma {:induction false} SumWith(load: seq<real>, i: nat, w: real)
    requires i < |load|
    ensures Sum(load[i := load[i] + w]) == Sum(load) + w
  {
    var n := |load| - 1;
    var more := load[i := load[i] + w];
    if i < n {
      assert more[..n] == load[..n][i := load[i] + w];
      SumWith(load[..n], i, w);
    } else {
      assert more[..n] == load[..n];
    }
  }

  /** The loads are balanced: no shard has more than the mean and (1 - 1/n) times most. */
  ghost predicate Balanced(load: seq<real>, most: real) {
    forall i :: 0 <= i < |load| ==> Times(|load| as real, load[i]) <= Sum(load) + Times(|load| as real - 1.0, most)
  }

  lemma LightestStaysBalanced(load: seq<real>, w: real, most: real)
    requires load != [] && Balanced(load, most) && 0.0 <= w <= most
    ensures var slot := Lightest(load); Balanced(load[slot := load[slot] + w], most)
  {
    var slot := Lightest(load);
    SumWith(load, slot, w);
    LeastIsBelowMean(load, load[slot]);
    OneMoreFits(|load| as real, load[slot], w, Sum(load), most);
    hide Times, Sum, Lightest;
  }

  lemma OneMoreFits(n: real, x: real, w: real, total: real, most: real)
    requires n >= 1.0 && Times(n, x) <= total && w <= most
    ensures Times(n, x + w) <= total + w + Times(n - 1.0, most)
  {
    assert n * (x + w) == n * x + w + (n - 1.0) * w;
    MoreTimes(n - 1.0, w, most);
  }

  lemma MoreTimes(n: real, a: real, b: real)
    requires n >= 0.0 && a <= b
    ensures n * a <= n * b
  {
  }

  lemma {:induction false} AssignedIsBalanced(
      ws: Weights, modes: map<string, string>, order: seq<string>, shards: nat, most: real)
    requires shards > 0 && 0.0 <= most && forall x <- order :: 0.0 <= Effective(ws, modes, x) <= most
    ensures Balanced(Loads(ws, modes, Assigned(ws, modes, order, shards)), most)
  {
    hide Effective, Balanced, LoadOf;
    if order == [] {
      NoLoad(ws, modes, shards, most);
    } else {
      var before, name := order[..|order| - 1], order[|order| - 1];
      AssignedIsBalanced(ws, modes, before, shards, most);
      var buckets := Assigned(ws, modes, before, shards);
      var load := Loads(ws, modes, buckets);
      var slot := Lightest(load);
      assert name in order;
      LightestStaysBalanced(load, Effective(ws, modes, name), most);
      LoadsWith(ws, modes, buckets, slot, name);
    }
  }

  lemma LoadsWith(ws: Weights, modes: map<string, string>, buckets: Buckets, slot: nat, name: string)
    requires slot < |buckets|
    ensures var load := Loads(ws, modes, buckets);
      Loads(ws, modes, buckets[slot := buckets[slot] + [name]]) == load[slot := load[slot] + Effective(ws, modes, name)]
  {
    var more := buckets[slot] + [name];
    assert more[..|more| - 1] == buckets[slot];
  }

  lemma {:induction false} NoLoad(ws: Weights, modes: map<string, string>, shards: nat, most: real)
    requires 0.0 <= most
    ensures Balanced(Loads(ws, modes, seq(shards, i => [])), most)
  {
    var load := Loads(ws, modes, seq(shards, i => []));
    assert forall i :: 0 <= i < shards ==> load[i] == 0.0;
    LeastIsBelowMean(load, 0.0);
    if shards > 0 {
      MoreTimes(shards as real - 1.0, 0.0, most);
    }
  }

  lemma NothingLoaded(ws: Weights, modes: map<string, string>, shards: nat)
    ensures Sum(Loads(ws, modes, seq(shards, i => []))) == 0.0
  {
    hide Effective, Sum;
    var load := Loads(ws, modes, seq(shards, i => []));
    assert forall i :: 0 <= i < shards ==> load[i] == 0.0;
    SumOfZeros(load);
  }

  lemma {:induction false} SumOfLoads(ws: Weights, modes: map<string, string>, order: seq<string>, shards: nat)
    requires shards > 0
    ensures Sum(Loads(ws, modes, Assigned(ws, modes, order, shards))) == LoadOf(ws, modes, order)
  {
    hide Effective, Sum, Loads, Lightest;
    if order == [] {
      NothingLoaded(ws, modes, shards);
    } else {
      var before, name := order[..|order| - 1], order[|order| - 1];
      SumOfLoads(ws, modes, before, shards);
      var buckets := Assigned(ws, modes, before, shards);
      var load := Loads(ws, modes, buckets);
      LoadsWith(ws, modes, buckets, Lightest(load), name);
      SumWith(load, Lightest(load), Effective(ws, modes, name));
    }
  }

  lemma {:induction false} SumOfZeros(load: seq<real>)
    requires forall i :: 0 <= i < |load| ==> load[i] == 0.0
    ensures Sum(load) == 0.0
  {
    if load != [] {
      SumOfZeros(load[..|load| - 1]);
    }
  }

  /** At most the mean of the total and (1 - 1/n) times most. */
  predicate WithinBound(load: real, total: real, n: real, most: real)
    requires n >= 1.0
  {
    load <= total / n + (1.0 - 1.0 / n) * most
  }

  /** No shard's load is above the mean load and (1 - 1/n) times the largest effective
      weight, for weights that are not negative. */
  lemma LoadIsBounded(ws: Weights, modes: map<string, string>, names: seq<string>, shards: nat, most: real, i: nat)
    requires i < shards && 0.0 <= most && forall x <- names :: 0.0 <= Effective(ws, modes, x) <= most
    ensures WithinBound(
      LoadOf(ws, modes, Scheduled(ws, modes, names, shards)[i]), LoadOf(ws, modes, names), shards as real, most)
  {
    SortedLoad(ws, modes, names);
    var order := Sort(ws, names);
    assert forall x <- order :: x in multiset(names);
    hide Effective, Sort, Times, Assigned, Sum, WithinBound;
    AssignedIsBalanced(ws, modes, order, shards, most);
    SumOfLoads(ws, modes, order, shards);
    var n := shards as real;
    var load := Loads(ws, modes, Assigned(ws, modes, order, shards));
    DivideBy(n, load[i], Sum(load), most);
  }

  /** The order does not matter to the total. */
  lemma {:induction false} SortedLoad(ws: Weights, modes: map<string, string>, names: seq<string>)
    ensures LoadOf(ws, modes, Sort(ws, names)) == LoadOf(ws, modes, names)
  {
    hide Effective, LoadOf, Insert;
    if names != [] {
      assert names == [names[0]] + names[1..];
      SortedLoad(ws, modes, names[1..]);
      InsertedLoad(ws, modes, names[0], Sort(ws, names[1..]));
      LoadWithFirst(ws, modes, names[0], names[1..]);
    }
  }

  lemma {:induction false} InsertedLoad(ws: Weights, modes: map<string, string>, x: string, s: seq<string>)
    ensures LoadOf(ws, modes, Insert(ws, x, s)) == Effective(ws, modes, x) + LoadOf(ws, modes, s)
  {
    hide Effective, LoadOf;
    LoadWithFirst(ws, modes, x, s);
    if s != [] {
      assert s == [s[0]] + s[1..];
      InsertedLoad(ws, modes, x, s[1..]);
      LoadWithFirst(ws, modes, s[0], s[1..]);
      LoadWithFirst(ws, modes, s[0], Insert(ws, x, s[1..]));
    } else {
      assert [x] + s == [x];
    }
  }

  lemma {:induction false} LoadWithFirst(ws: Weights, modes: map<string, string>, x: string, s: seq<string>)
    ensures LoadOf(ws, modes, [x] + s) == Effective(ws, modes, x) + LoadOf(ws, modes, s)
  {
    hide Effective;
    if s == [] {
      assert [x] + s == [x] && [x][..0] == [];
    } else {
      var n := |s| - 1;
      assert ([x] + s)[..n + 1] == [x] + s[..n];
      LoadWithFirst(ws, modes, x, s[..n]);
    }
  }

  lemma DivideBy(n: real, load: real, total: real, most: real)
    requires n >= 1.0 && Times(n, load) <= total + Times(n - 1.0, most)
    ensures WithinBound(load, total, n, most)
  {
    var r := 1.0 / n;
    assert r * n == 1.0 && r > 0.0;
    assert total / n == total * r;
    MoreTimes(r, n * load, total + (n - 1.0) * most);
    assert r * (n * load) == load;
    assert r * (total + (n - 1.0) * most) == total * r + (1.0 - r) * most;
  }

  // -------------------------------------------------------------- the check

  datatype Selection = Selection(shard: int, shards: int, assignment: Buckets, names: seq<string>)

  datatype Problem = NoFiles | OtherAssignments | ShardsMissing | OtherMutants(shard: int)

  function ShardsOf(ss: seq<Selection>): (r: seq<int>)
    ensures |r| == |ss|
  {
    seq(|ss|, i requires 0 <= i < |ss| => ss[i].shard)
  }

  function UpTo(n: int): (r: seq<int>)
    ensures |r| == if n < 0 then 0 else n
  {
    if n <= 0 then [] else UpTo(n - 1) + [n]
  }

  predicate SelectsItsOwn(s: Selection) {
    1 <= s.shard <= |s.assignment| && multiset(s.names) == multiset(s.assignment[s.shard - 1])
  }

  /** The shards say the same of the run, each selects its own bucket, and each of the
      run's shards is there once. */
  predicate Clean(ss: seq<Selection>) {
    && ss != []
    && (forall s <- ss :: s.shards == ss[0].shards && s.assignment == ss[0].assignment && SelectsItsOwn(s))
    && multiset(ShardsOf(ss)) == multiset(UpTo(ss[0].shards))
  }

  /** Both sorted, the lists are one. */
  method SameMembers(a: seq<string>, b: seq<string>) returns (same: bool)
    ensures same <==> multiset(a) == multiset(b)
  {
    var x, y := Sort(map[], a), Sort(map[], b);
    SortIsSorted(map[], a);
    SortIsSorted(map[], b);
    if multiset(a) == multiset(b) {
      SortedIsUnique(map[], x, y);
    }
    same := x == y;
  }

  method CheckShards(ss: seq<Selection>) returns (problems: seq<Problem>)
    ensures problems == [] <==> Clean(ss)
  {
    if |ss| == 0 {
      return [NoFiles];
    }
    problems := [];
    for i := 0 to |ss|
      invariant problems == []
      invariant forall j :: 0 <= j < i ==> ss[j].shards == ss[0].shards && ss[j].assignment == ss[0].assignment
    {
      if ss[i].shards != ss[0].shards || ss[i].assignment != ss[0].assignment {
        assert ss[i] in ss;
        problems := [OtherAssignments];
        break;
      }
    }
    if multiset(ShardsOf(ss)) != multiset(UpTo(ss[0].shards)) {
      problems := problems + [ShardsMissing];
    }
    ghost var before := problems;
    for i := 0 to |ss|
      invariant problems == [] <==> before == [] && forall j :: 0 <= j < i ==> SelectsItsOwn(ss[j])
    {
      var s := ss[i];
      var own := 1 <= s.shard <= |s.assignment|;
      if own {
        own := SameMembers(s.names, s.assignment[s.shard - 1]);
      }
      if !own {
        assert s in ss;
        problems := problems + [OtherMutants(s.shard)];
      }
    }
  }

  /** How often a name is in each bucket. */
  function CountsOf(buckets: Buckets, x: string): (cs: seq<nat>)
    ensures |cs| == |buckets|
  {
    seq(|buckets|, i requires 0 <= i < |buckets| => multiset(buckets[i])[x])
  }

  predicate Numbers(n: nat, numbers: seq<int>) {
    forall j :: 0 <= j < |numbers| ==> 1 <= numbers[j] <= n
  }

  /** The sum of the counts with the given numbers. */
  function Gathered(cs: seq<nat>, numbers: seq<int>): nat
    requires Numbers(|cs|, numbers)
  {
    if numbers == [] then 0 else
      var n := |numbers| - 1;
      Gathered(cs, numbers[..n]) + cs[numbers[n] - 1]
  }

  function Selected(ss: seq<Selection>, x: string): nat {
    if ss == [] then 0 else Selected(ss[..|ss| - 1], x) + multiset(ss[|ss| - 1].names)[x]
  }

  function Dropped<T>(s: seq<T>, i: nat): (r: seq<T>)
    requires i < |s|
    ensures multiset(s) == multiset{s[i]} + multiset(r) && |r| == |s| - 1
    ensures forall x <- r :: x in s
  {
    assert s == s[..i] + [s[i]] + s[i + 1..];
    s[..i] + s[i + 1..]
  }

  lemma GatheredMore(cs: seq<nat>, numbers: seq<int>, k: int)
    requires Numbers(|cs|, numbers) && 1 <= k <= |cs|
    ensures Numbers(|cs|, numbers + [k]) && Gathered(cs, numbers + [k]) == Gathered(cs, numbers) + cs[k - 1]
  {
    assert (numbers + [k])[..|numbers|] == numbers;
  }

  lemma {:induction false} GatheredOfBoth(cs: seq<nat>, a: seq<int>, b: seq<int>)
    requires Numbers(|cs|, a) && Numbers(|cs|, b)
    ensures Numbers(|cs|, a + b) && Gathered(cs, a + b) == Gathered(cs, a) + Gathered(cs, b)
    decreases |b|
  {
    if b == [] {
      assert a + b == a;
    } else {
      var front, k := b[..|b| - 1], b[|b| - 1];
      assert b == front + [k] && a + b == (a + front) + [k];
      GatheredMore(cs, front, k);
      GatheredOfBoth(cs, a, front);
      GatheredMore(cs, a + front, k);
    }
  }

  lemma GatheredDropped(cs: seq<nat>, numbers: seq<int>, i: nat)
    requires i < |numbers| && Numbers(|cs|, numbers)
    ensures Numbers(|cs|, Dropped(numbers, i))
    ensures Gathered(cs, numbers) == Gathered(cs, Dropped(numbers, i)) + cs[numbers[i] - 1]
  {
    hide Gathered, Dropped;
    var a, k, b := numbers[..i], numbers[i], numbers[i + 1..];
    Around(numbers, i);
    GatheredMore(cs, a, k);
    GatheredOfBoth(cs, a + [k], b);
    GatheredOfBoth(cs, a, b);
  }

  lemma Around<T>(s: seq<T>, i: nat)
    requires i < |s|
    ensures s == (s[..i] + [s[i]]) + s[i + 1..] && Dropped(s, i) == s[..i] + s[i + 1..]
  {
  }

  /** The order of the numbers does not matter. */
  lemma {:induction false} GatheredPermutes(cs: seq<nat>, a: seq<int>, b: seq<int>)
    requires multiset(a) == multiset(b) && Numbers(|cs|, a) && Numbers(|cs|, b)
    ensures Gathered(cs, a) == Gathered(cs, b)
    decreases |a|
  {
    assert |multiset(a)| == |a| && |multiset(b)| == |b|;
    if a != [] {
      var i := PlaceOfLast(a, b);
      GatheredDropped(cs, b, i);
      hide Dropped;
      GatheredPermutes(cs, a[..|a| - 1], Dropped(b, i));
    }
  }

  lemma PlaceOfLast(a: seq<int>, b: seq<int>) returns (i: nat)
    requires multiset(a) == multiset(b) && a != []
    ensures i < |b| && b[i] == a[|a| - 1] && multiset(a[..|a| - 1]) == multiset(Dropped(b, i))
  {
    var n := |a| - 1;
    assert a[n] in multiset(b);
    i :| 0 <= i < |b| && b[i] == a[n];
    assert Dropped(a, n) == a[..n];
    CancelOne(multiset(a[..n]), multiset(Dropped(b, i)), a[n]);
  }

  lemma {:induction false} UpToIs(n: int)
    ensures forall j :: 0 <= j < |UpTo(n)| ==> 1 <= UpTo(n)[j] <= n
  {
    if n > 0 {
      UpToIs(n - 1);
    }
  }

  lemma UpToStep(n: int)
    ensures n > 0 ==> UpTo(n) == UpTo(n - 1) + [n]
    ensures n <= 0 ==> UpTo(n) == []
  {
  }

  lemma {:induction false} GatheredAll(buckets: Buckets, x: string)
    ensures Numbers(|buckets|, UpTo(|buckets|))
    ensures Gathered(CountsOf(buckets, x), UpTo(|buckets|)) == multiset(Concat(buckets))[x]
  {
    var n := |buckets|;
    UpToStep(n);
    UpToIs(n);
    hide UpTo, Concat;
    if n == 0 {
      assert Concat([]) == [] by { NothingAssigned(0); assert buckets == seq(0, i => []); }
    } else {
      var front := buckets[..n - 1];
      GatheredAll(front, x);
      ConcatStep(buckets, x);
      SameGathered(CountsOf(front, x), CountsOf(buckets, x), UpTo(n - 1));
      hide Gathered;
      GatheredMore(CountsOf(buckets, x), UpTo(n - 1), n);
    }
  }

  /** Later counts are not looked at. */
  lemma {:induction false} SameGathered(a: seq<nat>, b: seq<nat>, numbers: seq<int>)
    requires a <= b && Numbers(|a|, numbers)
    ensures Numbers(|b|, numbers) && Gathered(a, numbers) == Gathered(b, numbers)
  {
    if numbers != [] {
      SameGathered(a, b, numbers[..|numbers| - 1]);
    }
  }

  lemma ConcatStep(buckets: Buckets, x: string)
    requires buckets != []
    ensures var n := |buckets| - 1;
      multiset(Concat(buckets))[x] == multiset(Concat(buckets[..n]))[x] + multiset(buckets[n])[x]
  {
  }

  lemma {:induction false} SelectedIsGathered(ss: seq<Selection>, buckets: Buckets, x: string)
    requires forall i :: 0 <= i < |ss| ==> ss[i].assignment == buckets && SelectsItsOwn(ss[i])
    ensures Numbers(|buckets|, ShardsOf(ss))
    ensures Selected(ss, x) == Gathered(CountsOf(buckets, x), ShardsOf(ss))
    decreases |ss|
  {
    hide CountsOf, Selected, Gathered;
    if ss == [] {
      NoneSelected(CountsOf(buckets, x), x);
    } else {
      var n := |ss| - 1;
      SelectedIsGathered(ss[..n], buckets, x);
      ShardsStep(ss);
      SelectedStep(ss, x);
      GatheredMore(CountsOf(buckets, x), ShardsOf(ss[..n]), ss[n].shard);
      OwnCount(ss[n], x);
    }
  }

  lemma NoneSelected(cs: seq<nat>, x: string)
    ensures Selected([], x) == 0 && ShardsOf([]) == [] && Gathered(cs, []) == 0
  {
  }

  lemma ShardsStep(ss: seq<Selection>)
    requires ss != []
    ensures var n := |ss| - 1; ShardsOf(ss) == ShardsOf(ss[..n]) + [ss[n].shard]
  {
  }

  lemma SelectedStep(ss: seq<Selection>, x: string)
    requires ss != []
    ensures var n := |ss| - 1; Selected(ss, x) == Selected(ss[..n], x) + multiset(ss[n].names)[x]
  {
  }

  lemma OwnCount(s: Selection, x: string)
    requires SelectsItsOwn(s)
    ensures CountsOf(s.assignment, x)[s.shard - 1] == multiset(s.names)[x]
  {
  }

  lemma CleanShardsFit(ss: seq<Selection>)
    requires Clean(ss)
    ensures 0 < ss[0].shards <= |ss[0].assignment|
  {
    var n := ss[0].shards;
    assert |multiset(ShardsOf(ss))| == |ss| && |multiset(UpTo(n))| == |UpTo(n)|;
    UpToStep(n);
    assert UpTo(n)[n - 1] == n;
    assert n in multiset(ShardsOf(ss));
    var i :| 0 <= i < |ss| && ShardsOf(ss)[i] == n;
    assert ss[i] in ss;
  }

  /** Over shards without a problem a name is selected as often as it is in the buckets of
      the run's shards; what further buckets hold is selected nowhere. */
  lemma CleanShardsSelect(ss: seq<Selection>, x: string)
    requires Clean(ss)
    ensures 0 < ss[0].shards <= |ss[0].assignment|
    ensures Selected(ss, x) == multiset(Concat(ss[0].assignment[..ss[0].shards]))[x]
  {
    CleanShardsFit(ss);
    hide Concat, UpTo, ShardsOf, Gathered, CountsOf, Selected, SelectsItsOwn;
    var buckets, n := ss[0].assignment, ss[0].shards;
    assert forall i :: 0 <= i < |ss| ==> ss[i] in ss;
    SelectedIsGathered(ss, buckets, x);
    GatheredAll(buckets[..n], x);
    FirstCounts(buckets, n, x);
    SameGathered(CountsOf(buckets[..n], x), CountsOf(buckets, x), UpTo(n));
    GatheredPermutes(CountsOf(buckets, x), ShardsOf(ss), UpTo(n));
  }

  lemma FirstCounts(buckets: Buckets, n: nat, x: string)
    requires n <= |buckets|
    ensures CountsOf(buckets[..n], x) <= CountsOf(buckets, x)
  {
  }

  /** When the assignment is the schedule of the mutants, each is selected as often as it
      is planned: once, by one shard. */
  lemma CleanShardsSplit(ss: seq<Selection>, ws: Weights, modes: map<string, string>, names: seq<string>, x: string)
    requires Clean(ss) && ss[0].shards > 0 && ss[0].assignment == Scheduled(ws, modes, names, ss[0].shards)
    ensures Selected(ss, x) == multiset(names)[x]
  {
    hide Concat, Selected, Scheduled;
    var buckets, n := ss[0].assignment, ss[0].shards;
    CleanShardsSelect(ss, x);
    SchedulePartitions(ws, modes, names, n);
    assert buckets[..n] == buckets;
  }

  lemma {:induction false} OnceIsOne(ss: seq<Selection>, x: string) returns (k: nat)
    requires Selected(ss, x) == 1
    ensures k < |ss| && x in ss[k].names && forall j :: 0 <= j < |ss| && j != k ==> x !in ss[j].names
  {
    var n := |ss| - 1;
    if x in ss[n].names {
      k := n;
      NotSelected(ss[..n], x);
    } else {
      assert x !in multiset(ss[n].names);
      k := OnceIsOne(ss[..n], x);
    }
  }

  lemma {:induction false} NotSelected(ss: seq<Selection>, x: string)
    requires Selected(ss, x) == 0
    ensures forall s <- ss :: x !in s.names
  {
    if ss != [] {
      var n := |ss| - 1;
      NotSelected(ss[..n], x);
      assert ss == ss[..n] + [ss[n]];
      assert x !in multiset(ss[n].names);
    }
  }

  /** What the buckets of the run's shards hold once, exactly one shard selects. */
  lemma ExactlyOneShardSelects(ss: seq<Selection>, x: string) returns (k: nat)
    requires Clean(ss) && 0 < ss[0].shards <= |ss[0].assignment|
    requires multiset(Concat(ss[0].assignment[..ss[0].shards]))[x] == 1
    ensures k < |ss| && x in ss[k].names && forall j :: 0 <= j < |ss| && j != k ==> x !in ss[j].names
  {
    hide Clean, Concat, Selected;
    CleanShardsSelect(ss, x);
    k := OnceIsOne(ss, x);
  }

  /** So for scheduled mutants that are distinct. */
  lemma ExactlyOneShardTakes(
      ss: seq<Selection>, ws: Weights, modes: map<string, string>, names: seq<string>, x: string) returns (k: nat)
    requires Clean(ss) && ss[0].shards > 0 && ss[0].assignment == Scheduled(ws, modes, names, ss[0].shards)
    requires multiset(names)[x] == 1
    ensures k < |ss| && x in ss[k].names && forall j :: 0 <= j < |ss| && j != k ==> x !in ss[j].names
  {
    hide Selected, Scheduled;
    CleanShardsSplit(ss, ws, modes, names, x);
    k := OnceIsOne(ss, x);
  }
}
