/** The fixed-capacity LRU cache: a map over an intrusive doubly linked list, proved
    against the plain sequence of key-value pairs, most recently used first. */
module LruCache {
  import opened Options

  // --------------------------------------------- the recency sequence

  type Recency = seq<(string, string)>

  ghost predicate DistinctKeys(s: Recency) {
    forall i, j :: 0 <= i < j < |s| ==> s[i].0 != s[j].0
  }

  ghost predicate Holds(s: Recency, k: string) {
    exists i :: 0 <= i < |s| && s[i].0 == k
  }

  ghost function IndexOf(s: Recency, k: string): (i: nat)
    requires Holds(s, k)
    ensures i < |s| && s[i].0 == k
  {
    var i :| 0 <= i < |s| && s[i].0 == k; i
  }

  ghost function Without<T>(s: seq<T>, i: nat): (r: seq<T>)
    requires i < |s|
    ensures |r| == |s| - 1 && forall j :: 0 <= j < |r| ==> r[j] == if j < i then s[j] else s[j + 1]
  {
    s[..i] + s[i + 1..]
  }

  ghost function AfterGet(s: Recency, k: string): Recency {
    if !Holds(s, k) then s else
      var i := IndexOf(s, k); [s[i]] + Without(s, i)
  }

  ghost function AfterPut(s: Recency, capacity: nat, k: string, v: string): Recency {
    if Holds(s, k) then [(k, v)] + Without(s, IndexOf(s, k))
    else if |s| >= capacity > 0 then [(k, v)] + s[..|s| - 1]
    else [(k, v)] + s
  }

  ghost function Found(s: Recency, k: string): Option<string> {
    if Holds(s, k) then Some(s[IndexOf(s, k)].1) else None
  }

  datatype Op = DoGet(key: string) | DoPut(key: string, value: string)

  /** A run of operations, the last one last. */
  ghost function AfterRun(s: Recency, capacity: nat, ops: seq<Op>): Recency {
    if ops == [] then s else
      var t := AfterRun(s, capacity, ops[..|ops| - 1]);
      match ops[|ops| - 1]
      case DoGet(k) => AfterGet(t, k)
      case DoPut(k, v) => AfterPut(t, capacity, k, v)
  }

  lemma OnlyPlace(s: Recency, k: string, i: nat)
    requires DistinctKeys(s) && i < |s| && s[i].0 == k
    ensures Holds(s, k) && IndexOf(s, k) == i && Found(s, k) == Some(s[i].1)
  {
  }

  lemma {:induction false} RunKeepsBounds(s: Recency, capacity: nat, ops: seq<Op>)
    requires DistinctKeys(s) && |s| <= capacity && capacity > 0
    ensures DistinctKeys(AfterRun(s, capacity, ops)) && |AfterRun(s, capacity, ops)| <= capacity
  {
    if ops != [] {
      RunKeepsBounds(s, capacity, ops[..|ops| - 1]);
      StepKeepsBounds(AfterRun(s, capacity, ops[..|ops| - 1]), capacity, ops[|ops| - 1].key, "");
      match ops[|ops| - 1]
      case DoGet(_) =>
      case DoPut(k, v) => StepKeepsBounds(AfterRun(s, capacity, ops[..|ops| - 1]), capacity, k, v);
    }
  }

  lemma StepKeepsBounds(s: Recency, capacity: nat, k: string, v: string)
    requires DistinctKeys(s) && |s| <= capacity && capacity > 0
    ensures DistinctKeys(AfterGet(s, k)) && |AfterGet(s, k)| <= capacity
    ensures DistinctKeys(AfterPut(s, capacity, k, v)) && |AfterPut(s, capacity, k, v)| <= capacity
  {
    hide AfterGet, AfterPut;
    GetKeepsBounds(s, k);
    PutKeepsBounds(s, capacity, k, v);
  }

  lemma GetKeepsBounds(s: Recency, k: string)
    requires DistinctKeys(s)
    ensures DistinctKeys(AfterGet(s, k)) && |AfterGet(s, k)| == |s|
  {
  }

  lemma PutKeepsBounds(s: Recency, capacity: nat, k: string, v: string)
    requires DistinctKeys(s) && |s| <= capacity && capacity > 0
    ensures DistinctKeys(AfterPut(s, capacity, k, v)) && |AfterPut(s, capacity, k, v)| <= capacity
  {
  }

  /** A get changes no value and drops no key. */
  lemma GetKeepsAll(s: Recency, k: string, other: string)
    requires DistinctKeys(s)
    ensures Found(AfterGet(s, k), other) == Found(s, other)
  {
    var t := AfterGet(s, k);
    StepKeepsBounds(s, |s| + 1, k, "");
    if Holds(s, k) {
      var i := IndexOf(s, k);
      if Holds(s, other) {
        var j := IndexOf(s, other);
        OnlyPlace(t, other, if j < i then j + 1 else if j == i then 0 else j);
      } else {
        NothingComes(s, i, other);
      }
    }
  }

  /** Moving or dropping entries brings no key. */
  lemma NothingComes(s: Recency, i: nat, other: string)
    requires !Holds(s, other) && i < |s|
    ensures !Holds(Without(s, i), other) && !Holds([s[i]] + Without(s, i), other)
  {
  }

  /** A put makes its key found, and of the other keys drops exactly the last one, when
      the key is new and the cache full. */
  lemma PutDropsOnlyTheLast(s: Recency, capacity: nat, k: string, v: string, other: string)
    requires DistinctKeys(s) && |s| <= capacity && capacity > 0
    ensures Found(AfterPut(s, capacity, k, v), k) == Some(v)
    ensures other != k ==>
      Found(AfterPut(s, capacity, k, v), other)
        == if !Holds(s, k) && |s| == capacity && s[|s| - 1].0 == other then None else Found(s, other)
  {
    var t := AfterPut(s, capacity, k, v);
    StepKeepsBounds(s, capacity, k, v);
    OnlyPlace(t, k, 0);
    if other != k {
      var i := if Holds(s, k) then IndexOf(s, k) else |s|;
      if Holds(s, other) {
        var j := IndexOf(s, other);
        var at := if j < i then j + 1 else j;
        if at < |t| {
          assert t[at] == s[j];
          OnlyPlace(t, other, at);
        }
      } else if i < |s| {
        NothingComes(s, i, other);
      }
    }
  }

  function KeysOf(ops: seq<Op>): set<string> {
    set o | o in ops :: o.key
  }

  /** k is held with value v, and only keys of used are more recent. */
  ghost predicate Recent(s: Recency, k: string, v: string, used: set<string>) {
    exists i :: 0 <= i < |s| && s[i] == (k, v) && forall j :: 0 <= j < i ==> s[j].0 in used
  }

  /** The guarantee of the cache: a key just put is found with its value as long as
      fewer than capacity other keys were used since and it was not put again. */
  lemma {:induction false} RecentlyPutIsFound(s: Recency, capacity: nat, k: string, v: string, ops: seq<Op>)
    requires DistinctKeys(s) && |s| <= capacity && capacity > 0
    requires |KeysOf(ops) - {k}| < capacity && forall o <- ops :: o.DoPut? ==> o.key != k
    ensures Found(AfterRun(AfterPut(s, capacity, k, v), capacity, ops), k) == Some(v)
  {
    var start := AfterPut(s, capacity, k, v);
    StepKeepsBounds(s, capacity, k, v);
    RunKeepsBounds(start, capacity, ops);
    assert start[0] == (k, v);
    StaysRecent(start, capacity, k, v, ops);
    var t := AfterRun(start, capacity, ops);
    var i :| 0 <= i < |t| && t[i] == (k, v);
    OnlyPlace(t, k, i);
  }

  lemma {:induction false} StaysRecent(s: Recency, capacity: nat, k: string, v: string, ops: seq<Op>)
    requires DistinctKeys(s) && |s| <= capacity && capacity > 0 && s != [] && s[0] == (k, v)
    requires |KeysOf(ops) - {k}| < capacity && forall o <- ops :: o.DoPut? ==> o.key != k
    ensures Recent(AfterRun(s, capacity, ops), k, v, KeysOf(ops) - {k})
  {
    hide AfterRun, AfterGet, AfterPut, Recent, KeysOf, DistinctKeys;
    if ops == [] {
      StartsRecent(s, capacity, k, v);
    } else {
      var before, o := ops[..|ops| - 1], ops[|ops| - 1];
      KeysOfStep(ops, k);
      StaysRecent(s, capacity, k, v, before);
      RunKeepsBounds(s, capacity, before);
      RunStep(s, capacity, ops);
      var t := AfterRun(s, capacity, before);
      match o
      case DoGet(key) => GetStaysRecent(t, k, v, KeysOf(before) - {k}, key);
      case DoPut(key, value) => PutStaysRecent(t, capacity, k, v, KeysOf(before) - {k}, key, value);
    }
  }

  lemma StartsRecent(s: Recency, capacity: nat, k: string, v: string)
    requires s != [] && s[0] == (k, v)
    ensures AfterRun(s, capacity, []) == s && Recent(s, k, v, KeysOf([]) - {k})
  {
  }

  lemma RunStep(s: Recency, capacity: nat, ops: seq<Op>)
    requires ops != []
    ensures var t := AfterRun(s, capacity, ops[..|ops| - 1]);
      AfterRun(s, capacity, ops) == match ops[|ops| - 1]
                                    case DoGet(k) => AfterGet(t, k)
                                    case DoPut(k, v) => AfterPut(t, capacity, k, v)
  {
  }

  lemma KeysOfStep(ops: seq<Op>, k: string)
    requires ops != []
    ensures var before, o := ops[..|ops| - 1], ops[|ops| - 1];
      && o in ops && (forall x <- before :: x in ops)
      && KeysOf(ops) - {k} == (KeysOf(before) - {k}) + ({o.key} - {k})
      && |KeysOf(before) - {k}| <= |KeysOf(ops) - {k}|
      && (o.key != k ==> KeysOf(ops) - {k} == (KeysOf(before) - {k}) + {o.key})
  {
    var before, o := ops[..|ops| - 1], ops[|ops| - 1];
    assert ops == before + [o];
    KeysOfMore(before, o);
    hide KeysOf;
    OneMoreWithout(KeysOf(before), o.key, k);
    FewerKeys(KeysOf(before) - {k}, KeysOf(ops) - {k});
  }

  lemma KeysOfMore(ops: seq<Op>, o: Op)
    ensures KeysOf(ops + [o]) == KeysOf(ops) + {o.key}
  {
    assert forall x :: x in ops + [o] <==> x in ops || x == o;
  }

  lemma OneMoreWithout<T>(s: set<T>, x: T, k: T)
    ensures s + {x} - {k} == (s - {k}) + ({x} - {k})
    ensures x != k ==> {x} - {k} == {x}
  {
  }

  lemma {:induction false} FewerKeys<T>(a: set<T>, b: set<T>)
    requires a <= b
    ensures |a| <= |b|
  {
    assert b == a + (b - a);
  }

  lemma GetStaysRecent(s: Recency, k: string, v: string, used: set<string>, key: string)
    requires DistinctKeys(s) && Recent(s, k, v, used) && k !in used
    ensures Recent(AfterGet(s, key), k, v, used + ({key} - {k}))
  {
    var i :| 0 <= i < |s| && s[i] == (k, v) && forall j :: 0 <= j < i ==> s[j].0 in used;
    if Holds(s, key) {
      var at := IndexOf(s, key);
      if at == i {
        assert AfterGet(s, key)[0] == (k, v);
      } else {
        WithoutStaysRecent(s, i, at, k, v, used);
        InFrontStaysRecent(Without(s, at), s[at], k, v, used);
        assert key != k && {key} - {k} == {key};
      }
    }
  }

  lemma PutStaysRecent(s: Recency, capacity: nat, k: string, v: string, used: set<string>, key: string, value: string)
    requires DistinctKeys(s) && Recent(s, k, v, used) && k !in used && key != k
    requires |s| <= capacity && |used + {key}| < capacity
    ensures Recent(AfterPut(s, capacity, key, value), k, v, used + ({key} - {k}))
  {
    var i :| 0 <= i < |s| && s[i] == (k, v) && forall j :: 0 <= j < i ==> s[j].0 in used;
    assert {key} - {k} == {key};
    if Holds(s, key) {
      var at := IndexOf(s, key);
      WithoutStaysRecent(s, i, at, k, v, used);
      InFrontStaysRecent(Without(s, at), (key, value), k, v, used);
    } else {
      AheadAreFew(s, i, used, key);
      var rest := if |s| == capacity then s[..|s| - 1] else s;
      assert rest[i] == (k, v);
      InFrontStaysRecent(rest, (key, value), k, v, used);
    }
  }

  lemma WithoutStaysRecent(s: Recency, i: nat, at: nat, k: string, v: string, used: set<string>)
    requires i < |s| && s[i] == (k, v) && at < |s| && at != i && forall j :: 0 <= j < i ==> s[j].0 in used
    ensures Recent(Without(s, at), k, v, used)
  {
    assert Without(s, at)[if i < at then i else i - 1] == (k, v);
  }

  lemma InFrontStaysRecent(s: Recency, e: (string, string), k: string, v: string, used: set<string>)
    requires Recent(s, k, v, used)
    ensures Recent([e] + s, k, v, used + {e.0})
  {
    var i :| 0 <= i < |s| && s[i] == (k, v) && forall j :: 0 <= j < i ==> s[j].0 in used;
    assert ([e] + s)[i + 1] == (k, v);
  }

  /** The keys ahead of place i are distinct and all used; so is one more. */
  lemma AheadAreFew(s: Recency, i: nat, used: set<string>, key: string)
    requires DistinctKeys(s) && i <= |s| && (forall j :: 0 <= j < i ==> s[j].0 in used) && !Holds(s, key)
    ensures i + 1 <= |used + {key}|
  {
    var ahead := set j | 0 <= j < i :: s[j].0;
    KeysCount(s, i);
    assert key !in ahead;
    assert |ahead + {key}| == i + 1;
    FewerKeys(ahead + {key}, used + {key});
  }

  lemma {:induction false} KeysCount(s: Recency, i: nat)
    requires DistinctKeys(s) && i <= |s|
    ensures |set j | 0 <= j < i :: s[j].0| == i
  {
    if i > 0 {
      KeysCount(s, i - 1);
      assert (set j | 0 <= j < i :: s[j].0) == (set j | 0 <= j < i - 1 :: s[j].0) + {s[i - 1].0};
    }
  }

  // ------------------------------------------------------ what a use is worth

  /** What a run leaves in an empty cache. */
  ghost function Cached(capacity: nat, ops: seq<Op>): Recency {
    AfterRun([], capacity, ops)
  }

  /** A put of a key uses it, and a get that finds it. */
  ghost predicate Uses(capacity: nat, ops: seq<Op>, i: nat, k: string)
    requires i < |ops|
  {
    ops[i].key == k && (ops[i].DoPut? || Found(Cached(capacity, ops[..i]), k).Some?)
  }

  /** When the key was last used, or -1. */
  ghost function LastUse(capacity: nat, ops: seq<Op>, k: string): (last: int)
    ensures -1 <= last < |ops|
  {
    if ops == [] then -1 else
      var n := |ops| - 1;
      if Uses(capacity, ops, n, k) then n else LastUse(capacity, ops[..n], k)
  }

  lemma {:induction false} LastUseIs(capacity: nat, ops: seq<Op>, k: string)
    ensures var last := LastUse(capacity, ops, k);
      && (last >= 0 ==> Uses(capacity, ops, last, k))
      && forall i :: last < i < |ops| ==> !Uses(capacity, ops, i, k)
  {
    if ops != [] {
      var n := |ops| - 1;
      LastUseIs(capacity, ops[..n], k);
      forall i | 0 <= i < n ensures Uses(capacity, ops[..n], i, k) == Uses(capacity, ops, i, k) {
        assert ops[..n][..i] == ops[..i];
      }
      hide Found;
    }
  }

  predicate Puts(o: Op, k: string) {
    o.DoPut? && o.key == k
  }

  /** The value last put under the key. */
  ghost function LastPut(ops: seq<Op>, k: string): (last: Option<string>)
    ensures last.None? ==> forall o <- ops :: !Puts(o, k)
    ensures last.Some? ==> exists i ::
      0 <= i < |ops| && ops[i] == DoPut(k, last.value) && forall j :: i < j < |ops| ==> !Puts(ops[j], k)
  {
    if ops == [] then None else
      var n := |ops| - 1;
      assert ops == ops[..n] + [ops[n]];
      if Puts(ops[n], k) then Some(ops[n].value) else LastPut(ops[..n], k)
  }

  /** The other keys used since the key was. */
  ghost function UsedSince(capacity: nat, ops: seq<Op>, k: string): set<string> {
    set x | x in KeysOf(ops) && LastUse(capacity, ops, x) > LastUse(capacity, ops, k)
  }

  /** What a run leaves a key: the value last put, as long as fewer than capacity other
      keys were used since its own last use, and nothing from then on. */
  lemma FoundIs(capacity: nat, ops: seq<Op>, k: string)
    requires capacity > 0
    ensures Found(Cached(capacity, ops), k)
         == if LastUse(capacity, ops, k) >= 0 && |UsedSince(capacity, ops, k)| < capacity then LastPut(ops, k) else None
  {
    var s := Cached(capacity, ops);
    var use, put := x => LastUse(capacity, ops, x), x => LastPut(ops, x);
    RunIsByUse(capacity, ops);
    hide Cached, LastUse, LastPut, DistinctKeys;
    UsedAreKeys(capacity, ops);
    if Holds(s, k) {
      HeldUsedSince(s, capacity, use, put, k, UsedSince(capacity, ops, k));
    } else if use(k) >= 0 {
      LostUsedSince(s, capacity, use, put, k, UsedSince(capacity, ops, k));
    }
  }

  /** The key a put drops, when it is new and the cache full, is the one whose last use is
      oldest; otherwise it drops none. */
  lemma LeastRecentlyUsedIsDropped(capacity: nat, ops: seq<Op>, k: string, v: string, x: string)
    requires capacity > 0 && x != k && Found(Cached(capacity, ops), x).Some?
    ensures var s, t := Cached(capacity, ops), Cached(capacity, ops + [DoPut(k, v)]);
      Found(t, x).None? <==>
        && Found(s, k).None? && |s| == capacity
        && forall y :: Found(s, y).Some? && y != x ==> LastUse(capacity, ops, x) < LastUse(capacity, ops, y)
  {
    var s := Cached(capacity, ops);
    var more := ops + [DoPut(k, v)];
    assert more[..|ops|] == ops;
    var use, put := y => LastUse(capacity, ops, y), y => LastPut(ops, y);
    RunIsByUse(capacity, ops);
    PutDropsOnlyTheLast(s, capacity, k, v, x);
    assert Cached(capacity, more) == AfterPut(s, capacity, k, v);
    hide Cached, AfterPut, LastUse, LastPut;
    LastIsLeast(s, capacity, use, put, x);
  }

  /** The recency sequence holds, by falling last use, the keys used last. */
  ghost predicate ByUse(s: Recency, capacity: nat, use: string -> int, put: string -> Option<string>) {
    DistinctKeys(s) && |s| <= capacity && Falls(s, use) && LastPuts(s, use, put) && OthersAreOlder(s, capacity, use)
  }

  ghost predicate Falls(s: Recency, use: string -> int) {
    forall a, b :: 0 <= a < b < |s| ==> use(s[a].0) > use(s[b].0)
  }

  ghost predicate LastPuts(s: Recency, use: string -> int, put: string -> Option<string>) {
    forall a :: 0 <= a < |s| ==> use(s[a].0) >= 0 && put(s[a].0) == Some(s[a].1)
  }

  /** Keys once used are lost only to a full cache of keys used later. */
  ghost predicate OthersAreOlder(s: Recency, capacity: nat, use: string -> int) {
    forall k :: use(k) >= 0 && !Holds(s, k) ==>
      |s| == capacity && forall a :: 0 <= a < |s| ==> use(s[a].0) > use(k)
  }

  lemma {:induction false} RunIsByUse(capacity: nat, ops: seq<Op>)
    requires capacity > 0
    ensures ByUse(Cached(capacity, ops), capacity, k => LastUse(capacity, ops, k), k => LastPut(ops, k))
  {
    if ops != [] {
      var n := |ops| - 1;
      var before, o := ops[..n], ops[n];
      RunIsByUse(capacity, before);
      var s := Cached(capacity, before);
      var use, use' := k => LastUse(capacity, before, k), k => LastUse(capacity, ops, k);
      var put, put' := k => LastPut(before, k), k => LastPut(ops, k);
      assert Cached(capacity, ops) == match o
                                      case DoGet(k) => AfterGet(s, k)
                                      case DoPut(k, v) => AfterPut(s, capacity, k, v);
      assert forall k :: use'(k) == if k == o.key && (o.DoPut? || Found(s, k).Some?) then n else use(k);
      assert forall k :: put'(k) == if Puts(o, k) then Some(o.value) else put(k);
      hide Cached, LastUse, LastPut, ByUse;
      match o
      case DoGet(k) => GetIsByUse(s, capacity, use, put, use', put', k, n);
      case DoPut(k, v) => PutIsByUse(s, capacity, use, put, use', put', k, v, n);
    }
  }

  lemma GetIsByUse(
      s: Recency, capacity: nat, use: string -> int, put: string -> Option<string>,
      use': string -> int, put': string -> Option<string>, k: string, n: nat)
    requires ByUse(s, capacity, use, put) && forall x :: use(x) < n
    requires forall x :: use'(x) == (if x == k && Found(s, x).Some? then n else use(x)) && put'(x) == put(x)
    ensures ByUse(AfterGet(s, k), capacity, use', put')
  {
    if Holds(s, k) {
      var i := IndexOf(s, k);
      InFrontIsByUse(s, capacity, use, put, use', put', s[i], i, n);
    } else {
      assert forall a :: 0 <= a < |s| ==> use'(s[a].0) == use(s[a].0);
    }
  }

  /** A used entry comes to the front. */
  lemma InFrontIsByUse(
      s: Recency, capacity: nat, use: string -> int, put: string -> Option<string>,
      use': string -> int, put': string -> Option<string>, e: (string, string), i: nat, n: nat)
    requires ByUse(s, capacity, use, put) && (forall x :: use(x) < n) && i < |s| && s[i].0 == e.0
    requires forall x :: use'(x) == if x == e.0 then n else use(x)
    requires forall x :: put'(x) == if x == e.0 then Some(e.1) else put(x)
    ensures ByUse([e] + Without(s, i), capacity, use', put')
  {
    hide Holds, DistinctKeys, Behind;
    var t := [e] + Without(s, i);
    var from := a => if a <= i then a - 1 else a;
    FrontIsAhead(s, e, i, from);
    SameHeld(s, e, i);
    assert Holds(t, e.0) by { SelfHeld(t); }
    hide Without;
    FallsOn(s, t, from, use, use', put, put', n);
    OlderStay(s, t, capacity, from, use, use', n);
  }

  lemma SelfHeld(t: Recency)
    requires t != []
    ensures Holds(t, t[0].0)
  {
  }

  lemma FrontIsAhead(s: Recency, e: (string, string), i: nat, from: int -> int)
    requires DistinctKeys(s) && i < |s| && s[i].0 == e.0 && forall a :: from(a) == if a <= i then a - 1 else a
    ensures var t := [e] + Without(s, i); |t| == |s| && DistinctKeys(t) && Behind(s, t, from)
  {
    var t := [e] + Without(s, i);
    assert forall a :: 0 < a < |t| ==> t[a] == s[from(a)];
    hide Without;
  }

  lemma NewIsAhead(s: Recency, k: string, v: string, kept: nat, from: int -> int)
    requires DistinctKeys(s) && kept <= |s| && !Holds(s, k) && forall a :: from(a) == a - 1
    ensures var t := [(k, v)] + s[..kept]; DistinctKeys(t) && Behind(s, t, from)
  {
  }

  /** The entries behind the first are from before, in the same order. */
  ghost predicate Behind(s: Recency, t: Recency, from: int -> int) {
    && t != []
    && (forall a :: 0 < a < |t| ==> 0 <= from(a) < |s| && t[a] == s[from(a)] && t[a].0 != t[0].0)
    && (forall a, b :: 0 < a < b < |t| ==> from(a) < from(b))
  }

  lemma FallsOn(
      s: Recency, t: Recency, from: int -> int, use: string -> int, use': string -> int,
      put: string -> Option<string>, put': string -> Option<string>, n: nat)
    requires Behind(s, t, from) && Falls(s, use) && LastPuts(s, use, put) && forall x :: use(x) < n
    requires forall x :: use'(x) == if x == t[0].0 then n else use(x)
    requires forall x :: put'(x) == if x == t[0].0 then Some(t[0].1) else put(x)
    ensures Falls(t, use') && LastPuts(t, use', put')
  {
    forall a, b | 0 <= a < b < |t| ensures use'(t[a].0) > use'(t[b].0) {
      assert use'(t[b].0) == use(s[from(b)].0);
    }
  }

  lemma OlderStay(
      s: Recency, t: Recency, capacity: nat, from: int -> int, use: string -> int, use': string -> int, n: nat)
    requires Behind(s, t, from) && OthersAreOlder(s, capacity, use) && forall x :: use(x) < n
    requires forall x :: use'(x) == if x == t[0].0 then n else use(x)
    requires Holds(t, t[0].0) && |s| <= |t| <= capacity
    requires forall x :: Holds(s, x) && !Holds(t, x) ==>
      |t| == capacity && forall a :: 0 < a < |t| ==> use(s[from(a)].0) > use(x)
    ensures OthersAreOlder(t, capacity, use')
  {
    forall x | use'(x) >= 0 && !Holds(t, x)
      ensures |t| == capacity && forall a :: 0 <= a < |t| ==> use'(t[a].0) > use'(x)
    {
      assert use'(x) == use(x);
      assert forall a :: 0 < a < |t| ==> use'(t[a].0) == use(s[from(a)].0);
    }
  }

  lemma SameHeld(s: Recency, e: (string, string), i: nat)
    requires i < |s| && s[i].0 == e.0
    ensures forall x :: Holds([e] + Without(s, i), x) <==> Holds(s, x)
  {
    var t := [e] + Without(s, i);
    forall x | Holds(s, x) ensures Holds(t, x) {
      var a :| 0 <= a < |s| && s[a].0 == x;
      assert t[if a < i then a + 1 else if a == i then 0 else a].0 == x;
    }
    forall x | Holds(t, x) ensures Holds(s, x) {
      var a :| 0 <= a < |t| && t[a].0 == x;
      assert s[if a == 0 then i else if a <= i then a - 1 else a].0 == x;
    }
  }

  lemma PutIsByUse(
      s: Recency, capacity: nat, use: string -> int, put: string -> Option<string>,
      use': string -> int, put': string -> Option<string>, k: string, v: string, n: nat)
    requires ByUse(s, capacity, use, put) && capacity > 0 && forall x :: use(x) < n
    requires forall x :: use'(x) == if x == k then n else use(x)
    requires forall x :: put'(x) == if x == k then Some(v) else put(x)
    ensures ByUse(AfterPut(s, capacity, k, v), capacity, use', put')
  {
    if Holds(s, k) {
      InFrontIsByUse(s, capacity, use, put, use', put', (k, v), IndexOf(s, k), n);
    } else if |s| == capacity {
      NewIsByUse(s, capacity, use, put, use', put', k, v, n, |s| - 1);
    } else {
      assert s[..|s|] == s;
      NewIsByUse(s, capacity, use, put, use', put', k, v, n, |s|);
    }
  }

  lemma NewIsByUse(
      s: Recency, capacity: nat, use: string -> int, put: string -> Option<string>,
      use': string -> int, put': string -> Option<string>, k: string, v: string, n: nat, kept: nat)
    requires ByUse(s, capacity, use, put) && (forall x :: use(x) < n) && !Holds(s, k)
    requires kept <= |s| && (kept < |s| ==> kept == |s| - 1 == capacity - 1) && kept < capacity
    requires forall x :: use'(x) == if x == k then n else use(x)
    requires forall x :: put'(x) == if x == k then Some(v) else put(x)
    ensures ByUse([(k, v)] + s[..kept], capacity, use', put')
  {
    hide Holds, DistinctKeys, Behind;
    var t := [(k, v)] + s[..kept];
    var from := a => a - 1;
    NewIsAhead(s, k, v, kept, from);
    NewIsHeld(s, k, v, kept);
    FallsOn(s, t, from, use, use', put, put', n);
    OlderStay(s, t, capacity, from, use, use', n);
  }

  lemma NewIsHeld(s: Recency, k: string, v: string, kept: nat)
    requires kept <= |s|
    ensures var t := [(k, v)] + s[..kept];
      && Holds(t, k) && forall x :: Holds(s, x) ==> Holds(t, x) || exists a :: kept <= a < |s| && s[a].0 == x
  {
    var t := [(k, v)] + s[..kept];
    assert t[0].0 == k;
    forall x | Holds(s, x) ensures Holds(t, x) || exists a :: kept <= a < |s| && s[a].0 == x {
      var a :| 0 <= a < |s| && s[a].0 == x;
      if a < kept {
        assert t[a + 1] == s[a];
      }
    }
  }

  lemma UsedAreKeys(capacity: nat, ops: seq<Op>)
    ensures forall k :: LastUse(capacity, ops, k) >= 0 ==> k in KeysOf(ops)
  {
    forall k | LastUse(capacity, ops, k) >= 0 ensures k in KeysOf(ops) {
      LastUseIs(capacity, ops, k);
      assert ops[LastUse(capacity, ops, k)] in ops;
    }
  }

  /** Of a key held, those used since are the ones ahead of it. */
  lemma HeldUsedSince(
      s: Recency, capacity: nat, use: string -> int, put: string -> Option<string>, k: string, since: set<string>)
    requires ByUse(s, capacity, use, put) && Holds(s, k) && forall x :: x in since <==> use(x) > use(k)
    ensures use(k) >= 0 && |since| < capacity && Found(s, k) == put(k)
  {
    var i := IndexOf(s, k);
    forall x | x in since ensures exists j :: 0 <= j < i && s[j].0 == x {
      assert Holds(s, x);
      var j :| 0 <= j < |s| && s[j].0 == x;
      assert j < i;
    }
    var ahead := set j | 0 <= j < i :: s[j].0;
    KeysCount(s, i);
    FewerKeys(since, ahead);
  }

  /** Since the last use of a key lost, all that are held were used. */
  lemma LostUsedSince(
      s: Recency, capacity: nat, use: string -> int, put: string -> Option<string>, k: string, since: set<string>)
    requires ByUse(s, capacity, use, put) && !Holds(s, k) && use(k) >= 0
    requires forall x :: x in since <==> use(x) > use(k)
    ensures |since| >= capacity
  {
    var held := set j | 0 <= j < |s| :: s[j].0;
    KeysCount(s, |s|);
    FewerKeys(held, since);
  }

  /** The last entry is the one used before all others. */
  lemma LastIsLeast(s: Recency, capacity: nat, use: string -> int, put: string -> Option<string>, x: string)
    requires ByUse(s, capacity, use, put) && Found(s, x).Some?
    ensures s[|s| - 1].0 == x <==> forall y :: Found(s, y).Some? && y != x ==> use(x) < use(y)
  {
    var i, last := IndexOf(s, x), s[|s| - 1].0;
    assert Holds(s, last);
    if s[|s| - 1].0 == x {
      forall y | Found(s, y).Some? && y != x ensures use(x) < use(y) {
        assert s[IndexOf(s, y)].0 == y;
      }
    } else {
      assert Found(s, last).Some? && use(last) < use(x);
    }
  }

  // ------------------------------------------------------------ the cache

  class Entry {
    const key: string
    var value: string
    var prev: Entry?
    var next: Entry?

    constructor (key: string, value: string)
      ensures this.key == key && this.value == value && prev == null && next == null
    {
      this.key, this.value := key, value;
      prev, next := null, null;
    }
  }

  /** The map indexes exactly the list's entries by their keys. */
  ghost predicate Indexes(items: map<string, Entry>, order: seq<Entry>) {
    && |items| == |order|
    && (forall e <- order :: e.key in items && items[e.key] == e)
    && (forall k <- items :: items[k] in order && items[k].key == k)
  }

  ghost predicate Match(contents: Recency, order: seq<Entry>)
    reads order`value
  {
    |contents| == |order| && forall i :: 0 <= i < |order| ==> contents[i] == (order[i].key, order[i].value)
  }

  lemma AddedIsIndexed(items: map<string, Entry>, order: seq<Entry>, e: Entry)
    requires Indexes(items, order) && e.key !in items
    ensures Indexes(items[e.key := e], [e] + order) && e !in order
  {
    assert forall x <- [e] + order :: x == e || x in order;
    assert e in [e] + order && forall x <- order :: x in [e] + order;
  }

  lemma MovedIsIndexed(items: map<string, Entry>, order: seq<Entry>, i: nat)
    requires Indexes(items, order) && i < |order|
    ensures Indexes(items, [order[i]] + Without(order, i))
  {
    MovingKeepsMembers(order, i);
  }

  lemma MovedMatch(contents: Recency, order: seq<Entry>, i: nat)
    requires Match(contents, order) && i < |order|
    ensures Match([contents[i]] + Without(contents, i), [order[i]] + Without(order, i))
  {
  }

  lemma LastIsUnindexed(items: map<string, Entry>, order: seq<Entry>)
    requires Indexes(items, order) && order != [] && forall i, j :: 0 <= i < j < |order| ==> order[i] != order[j]
    ensures Indexes(items - {order[|order| - 1].key}, order[..|order| - 1])
  {
    var k := order[|order| - 1].key;
    assert order[|order| - 1] in order;
    assert (items - {k}).Keys == items.Keys - {k};
    forall e | e in order[..|order| - 1] ensures e.key != k {
      assert e in order;
    }
  }

  class Cache {
    const capacity: nat
    var items: map<string, Entry>
    /** The most and the least recently used entry. */
    var head: Entry?
    var tail: Entry?
    ghost var order: seq<Entry>
    ghost var contents: Recency

    /** A capacity below one is treated as one. */
    constructor (capacity: int)
      ensures Valid() && contents == [] && order == []
      ensures this.capacity == if capacity < 1 then 1 else capacity
    {
      this.capacity := if capacity < 1 then 1 else capacity;
      items := map[];
      head, tail := null, null;
      order, contents := [], [];
    }

    /** The list is the order, in both directions. */
    ghost predicate Linked()
      reads this`head, this`tail, this`order, order`prev, order`next
    {
      && (forall i, j :: 0 <= i < j < |order| ==> order[i] != order[j])
      && (order == [] ==> head == null && tail == null)
      && (order != [] ==> head == order[0] && tail == order[|order| - 1] && head.prev == null && tail.next == null)
      && (forall i, j :: 0 <= i < |order| && j == i + 1 < |order| ==>
            order[i].next == order[j] && order[j].prev == order[i])
    }

    ghost predicate Valid()
      reads this, order`prev, order`next, order`value
    {
      Linked() && Indexes(items, order) && Match(contents, order) && 1 <= capacity && |order| <= capacity
    }

    /** n steps of next from the head. */
    ghost function Ahead(n: nat): (e: Entry?)
      requires Linked()
      reads this, order
      ensures e == if n < |order| then order[n] else null
    {
      if n == 0 then head else
        var e := Ahead(n - 1); if e == null then null else assert n < |order| ==> order[n - 1].next == order[n]; e.next
    }

    /** n steps of prev from the tail. */
    ghost function Back(n: nat): (e: Entry?)
      requires Linked()
      reads this, order
      ensures e == if n < |order| then order[|order| - 1 - n] else null
    {
      if n == 0 then tail else
        var e := Back(n - 1);
        if e == null then null else
          assert n < |order| ==> order[|order| - n].prev == order[|order| - 1 - n];
          e.prev
    }

    method Get(key: string) returns (r: Option<string>)
      requires Valid()
      modifies this`head, this`tail, this`order, this`contents, order`prev, order`next
      ensures Valid() && (forall e <- order :: e in old(order))
      ensures r == Found(old(contents), key) && contents == AfterGet(old(contents), key)
    {
      if key !in items {
        NotHeld(key);
        return None;
      }
      var e := items[key];
      ghost var i := Position(e);
      MoveToFront(e, i);
      return Some(e.value);
    }

    method Put(key: string, value: string)
      requires Valid()
      modifies this, order
      ensures Valid() && (forall e <- order :: e in old(order) || fresh(e))
      ensures contents == AfterPut(old(contents), capacity, key, value)
    {
      hide Linked, Indexes, Match;
      Sizes();
      if key in items {
        Update(key, value);
        return;
      }
      NotHeld(key);
      if |items| >= capacity {
        EvictTail();
        Sizes();
      }
      assert forall i :: 0 <= i < |order| ==> order[i] in old(order);
      Add(key, value);
    }

    method Update(key: string, value: string)
      requires Valid() && key in items
      modifies this`head, this`tail, this`order, this`contents, order`prev, order`next, order`value
      ensures Valid() && (forall e <- order :: e in old(order)) && Holds(old(contents), key)
      ensures contents == [(key, value)] + Without(old(contents), IndexOf(old(contents), key))
    {
      hide Linked, Indexes;
      var e := Entry(key);
      ghost var i := Position(e);
      IsLinked();
      e.value := value;
      contents := contents[i := (key, value)];
      MoveToFront(e, i);
    }

    method Entry(key: string) returns (e: Entry)
      requires Valid() && key in items
      ensures e in order && e.key == key
    {
      e := items[key];
    }

    lemma Sizes()
      requires Valid()
      ensures |items| == |order| == |contents|
    {
    }

    /** The rest of an insertion, once there is room. */
    method Add(key: string, value: string)
      requires Valid() && |order| < capacity && key !in items
      modifies this`items, this`head, this`tail, this`order, this`contents, order`prev, order`next
      ensures Valid() && (forall e <- order :: e in old(order) || fresh(e))
      ensures contents == [(key, value)] + old(contents)
    {
      hide Indexes, Linked;
      var e := new Entry(key, value);
      AddedIsIndexed(items, order, e);
      items := items[key := e];
      PushFront(e);
      contents := [(key, value)] + contents;
    }

    method Len() returns (n: nat)
      requires Valid()
      ensures n == |contents| <= capacity
    {
      n := |items|;
    }

    /** The entry's place in the order is its key's place in the contents. */
    lemma Position(e: Entry) returns (i: nat)
      requires Valid() && e in order
      ensures i < |order| && order[i] == e
      ensures Holds(contents, e.key) && IndexOf(contents, e.key) == i && Found(contents, e.key) == Some(e.value)
    {
      i :| i < |order| && order[i] == e;
      assert contents[i].0 == e.key;
      var j := IndexOf(contents, e.key);
      assert order[j] in order && items[order[j].key] == order[j];
    }

    lemma NotHeld(key: string)
      requires Valid() && key !in items
      ensures !Holds(contents, key)
    {
      assert forall i :: 0 <= i < |order| ==> order[i] in order && contents[i].0 == order[i].key;
    }

    lemma HeadIs(i: nat)
      requires Linked() && i < |order|
      ensures head == order[i] <==> i == 0
    {
    }

    lemma IsLinked()
      requires Linked()
      ensures forall i, j :: 0 <= i < j < |order| ==> order[i] != order[j]
      ensures order == [] ==> head == null && tail == null
      ensures order != [] ==> head == order[0] && tail == order[|order| - 1]
    {
    }

    method PushFront(e: Entry)
      requires Linked() && e !in order
      modifies this`head, this`tail, this`order, e`prev, e`next, order`prev, order`next
      ensures Linked() && order == [e] + old(order)
    {
      e.prev := null;
      e.next := head;
      if head != null {
        head.prev := e;
      }
      head := e;
      if tail == null {
        tail := e;
      }
      order := [e] + order;
    }

    method Unlink(e: Entry, ghost i: nat)
      requires Linked() && i < |order| && order[i] == e
      modifies this`head, this`tail, this`order, order`prev, order`next
      ensures Linked() && order == Without(old(order), i) && e !in order
    {
      assert i > 0 ==> order[i - 1].next == order[i];
      assert i + 1 < |order| ==> order[i].next == order[i + 1];
      if e.prev != null {
        e.prev.next := e.next;
      } else {
        head := e.next;
      }
      if e.next != null {
        e.next.prev := e.prev;
      } else {
        tail := e.prev;
      }
      e.prev, e.next := null, null;
      order := Without(order, i);
    }

    method MoveToFront(e: Entry, ghost i: nat)
      requires Valid() && i < |order| && order[i] == e
      modifies this`head, this`tail, this`order, this`contents, order`prev, order`next
      ensures Valid() && order == [e] + Without(old(order), i)
      ensures contents == [old(contents)[i]] + Without(old(contents), i)
    {
      hide Indexes, Linked, Match, Without;
      HeadIs(i);
      Sizes();
      MovedIsIndexed(items, order, i);
      if head == e {
        FirstStays(order);
        FirstStays(contents);
        return;
      }
      ghost var was := order;
      Relink(e, i);
      MovedMatch(contents, was, i);
      contents := [contents[i]] + Without(contents, i);
    }

    /** The list half of a move. */
    method Relink(e: Entry, ghost i: nat)
      requires Linked() && i < |order| && order[i] == e
      modifies this`head, this`tail, this`order, order`prev, order`next
      ensures Linked() && order == [e] + Without(old(order), i)
    {
      hide Linked;
      ghost var was := order;
      WithoutIsPart(order, i);
      Unlink(e, i);
      assert forall j :: 0 <= j < |order| ==> order[j] in was;
      PushFront(e);
    }

    method EvictTail()
      requires Valid()
      modifies this`head, this`tail, this`order, this`items, this`contents, order`prev, order`next
      ensures Valid() && (forall e <- order :: e in old(order)) && items.Keys <= old(items.Keys)
      ensures contents == if old(contents) == [] then [] else old(contents[..|contents| - 1])
    {
      hide Indexes, Linked;
      IsLinked();
      var e := tail;
      if e == null {
        return;
      }
      ghost var last := |order| - 1;
      assert Without(order, last) == order[..last];
      LastIsUnindexed(items, order);
      ghost var was := order;
      Unlink(e, last);
      assert Match(contents, was);
      items := items - {e.key};
      contents := contents[..last];
    }
  }

  lemma WithoutIsPart<T>(s: seq<T>, i: nat)
    requires i < |s|
    ensures forall x <- Without(s, i) :: x in s
  {
  }

  lemma FirstStays<T>(s: seq<T>)
    requires s != []
    ensures [s[0]] + Without(s, 0) == s
  {
  }

  lemma MovingKeepsMembers<T>(s: seq<T>, i: nat)
    requires i < |s|
    ensures forall x :: x in s <==> x in [s[i]] + Without(s, i)
  {
    var m := [s[i]] + Without(s, i);
    forall x | x in s ensures x in m {
      var j :| 0 <= j < |s| && s[j] == x;
      assert j < i ==> m[j + 1] == x;
      assert j > i ==> m[j] == x;
      assert m[0] == s[i];
    }
  }
}
