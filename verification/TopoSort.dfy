/** Dependency order of shared fixtures, and the fixtures a suite reaches. */
module TopoSort {
  import opened StringOrder

  type Key = string

  datatype Fixture = Fixture(dependencies: seq<Key>, importPath: string)

  type Graph = map<Key, Fixture>

  datatype Result = Ok(order: seq<Fixture>) | Cycle(keys: seq<Key>)

  ghost predicate Sorted(s: seq<Key>) {
    forall i, j :: 0 <= i < j < |s| ==> !Below(s[j], s[i])
  }

  function Insert(k: Key, s: seq<Key>): (r: seq<Key>)
    ensures multiset(r) == multiset(s) + multiset{k}
    ensures forall x :: x in r <==> x == k || x in s
  {
    if s == [] then [k]
    else if Below(k, s[0]) then [k] + s
    else
      assert s == [s[0]] + s[1..];
      [s[0]] + Insert(k, s[1..])
  }

  lemma {:induction false} InsertIsSorted(k: Key, s: seq<Key>)
    requires Sorted(s)
    ensures Sorted(Insert(k, s))
  {
    if s != [] {
      if Below(k, s[0]) {
        forall i | 0 <= i < |s| ensures !Below(s[i], k) {
          if Below(s[i], k) {
            BelowIsTransitive(s[i], k, s[0]);
            BelowIsTotal(s[0], s[i]);
          }
        }
      } else {
        InsertIsSorted(k, s[1..]);
        assert forall x <- Insert(k, s[1..]) :: !Below(x, s[0]);
      }
    }
  }

  /** sort.Strings. */
  function Sort(s: seq<Key>): (r: seq<Key>)
    ensures Sorted(r) && multiset(r) == multiset(s)
    ensures forall x :: x in r <==> x in s
  {
    if s == [] then [] else
      assert s == [s[0]] + s[1..];
      InsertIsSorted(s[0], Sort(s[1..]));
      Insert(s[0], Sort(s[1..]))
  }

  // --------------------------------------------- always the least ready key

  function Range(s: seq<Key>): set<Key> {
    set k | k in s
  }

  ghost predicate DependenciesIn(g: Graph, k: Key, done: set<Key>)
    requires k in g
  {
    forall d <- g[k].dependencies :: d in done
  }

  ghost function Ready(g: Graph, done: set<Key>): set<Key> {
    set k | k in g && k !in done && DependenciesIn(g, k, done)
  }

  ghost predicate IsLeast(k: Key, s: set<Key>) {
    k in s && forall j <- s :: j == k || Below(k, j)
  }

  lemma {:induction false} LeastExists(s: set<Key>) returns (k: Key)
    requires s != {}
    ensures IsLeast(k, s)
  {
    k :| k in s;
    if s != {k} {
      var rest := s - {k};
      var j := LeastExists(rest);
      BelowIsTotal(j, k);
      if Below(j, k) {
        k := j;
      } else {
        forall x | x in s && x != k ensures Below(k, x) {
          if x != j {
            BelowIsTransitive(k, j, x);
          }
        }
      }
    }
  }

  ghost function Least(s: set<Key>): (k: Key)
    requires s != {}
    ensures IsLeast(k, s)
  {
    assert exists k :: IsLeast(k, s) by { var k := LeastExists(s); }
    var k :| IsLeast(k, s); k
  }

  lemma LeastIsUnique(s: set<Key>, k: Key)
    requires IsLeast(k, s)
    ensures Least(s) == k
  {
    BelowIsTotal(k, Least(s));
  }

  /** The order from what is done already: always the least ready key. */
  ghost function Order(g: Graph, done: seq<Key>): (order: seq<Key>)
    ensures done <= order && Ready(g, Range(order)) == {}
    decreases g.Keys - Range(done)
  {
    var ready := Ready(g, Range(done));
    if ready == {} then done else
      var k := Least(ready);
      assert k in Range(done + [k]) && Range(done) <= Range(done + [k]);
      Order(g, done + [k])
  }

  /** Keys of the graph, none twice, each after its dependencies. */
  ghost predicate Topological(g: Graph, order: seq<Key>) {
    && (forall i :: 0 <= i < |order| ==> order[i] in g && DependenciesIn(g, order[i], Range(order[..i])))
    && (forall i, j :: 0 <= i < j < |order| ==> order[i] != order[j])
  }

  lemma {:induction false} OrderIsTopological(g: Graph, done: seq<Key>)
    requires Topological(g, done)
    ensures Topological(g, Order(g, done))
    decreases g.Keys - Range(done)
  {
    var ready := Ready(g, Range(done));
    if ready != {} {
      var k := Least(ready);
      var next := done + [k];
      assert forall i :: 0 <= i <= |done| ==> next[..i] == done[..i];
      assert k in Range(next) && Range(done) <= Range(next);
      OrderIsTopological(g, next);
    }
  }

  // --------------------------------------------------- what can be ordered

  ghost predicate Link(g: Graph, k: Key, d: Key) {
    k in g && d in g[k].dependencies
  }

  /** Each key depends on the next. */
  ghost predicate Chain(g: Graph, p: seq<Key>) {
    p != [] && forall i :: 0 < i < |p| ==> Link(g, p[i - 1], p[i])
  }

  /** The chain leaves the graph or comes back to a key. */
  ghost predicate Bad(g: Graph, p: seq<Key>) {
    Chain(g, p) && (p[|p| - 1] !in g || exists i, j :: 0 <= i < j < |p| && p[i] == p[j])
  }

  /** Below an ordered key everything is ordered, and before it. */
  lemma {:induction false} ChainsDescend(g: Graph, order: seq<Key>, p: seq<Key>, at: nat) returns (end: nat)
    requires Topological(g, order) && Chain(g, p) && at < |order| && order[at] == p[0]
    ensures end + |p| <= at + 1 && order[end] == p[|p| - 1]
  {
    if |p| == 1 {
      end := at;
    } else {
      var q := p[..|p| - 1];
      var e := ChainsDescend(g, order, q, at);
      assert q[|q| - 1] == p[|p| - 2] && Link(g, p[|p| - 2], p[|p| - 1]);
      assert p[|p| - 1] in Range(order[..e]);
      end :| end < e && order[end] == p[|p| - 1];
    }
  }

  lemma SubChain(g: Graph, p: seq<Key>, i: nat, j: nat)
    requires Chain(g, p) && i < j <= |p|
    ensures Chain(g, p[i..j])
  {
    var q := p[i..j];
    forall a | 0 < a < |q| ensures Link(g, q[a - 1], q[a]) {
      assert q[a] == p[i + a] && q[a - 1] == p[i + a - 1];
    }
  }

  lemma OrderedIsNotBad(g: Graph, order: seq<Key>, p: seq<Key>)
    requires Topological(g, order) && Chain(g, p) && p[0] in order
    ensures !Bad(g, p)
  {
    var at :| 0 <= at < |order| && order[at] == p[0];
    var end := ChainsDescend(g, order, p, at);
    forall i, j | 0 <= i < j < |p| && p[i] == p[j] ensures false {
      SubChain(g, p, 0, i + 1);
      var a := ChainsDescend(g, order, p[0..i + 1], at);
      SubChain(g, p, i, j + 1);
      var b := ChainsDescend(g, order, p[i..j + 1], a);
    }
  }

  /** From a key that is left over, a chain of left-over keys of any length, unless it
      leaves the graph. */
  lemma {:induction false} LeftoverChain(g: Graph, done: set<Key>, k: Key, n: nat) returns (p: seq<Key>)
    requires Ready(g, done) == {} && k in g && k !in done
    ensures Chain(g, p) && p[0] == k
    ensures Bad(g, p) || (|p| == n + 1 && forall x <- p :: x in g)
    decreases n
  {
    p := [k];
    if n > 0 {
      assert k !in Ready(g, done);
      var d :| d in g[k].dependencies && d !in done;
      if d !in g {
        p := [k, d];
      } else {
        var q := LeftoverChain(g, done, d, n - 1);
        p := [k] + q;
        ChainBefore(g, k, q);
      }
    }
  }

  lemma ChainBefore(g: Graph, k: Key, q: seq<Key>)
    requires k in g && Chain(g, q) && q[0] in g[k].dependencies
    ensures Chain(g, [k] + q) && (Bad(g, q) ==> Bad(g, [k] + q))
  {
    var p := [k] + q;
    if i, j :| 0 <= i < j < |q| && q[i] == q[j] {
      assert p[i + 1] == p[j + 1];
    }
  }

  /** More keys than the graph has: one comes twice. */
  lemma {:induction false} Pigeonhole(s: set<Key>, p: seq<Key>)
    requires (forall x <- p :: x in s) && |p| > |s|
    ensures exists i, j :: 0 <= i < j < |p| && p[i] == p[j]
  {
    var last := p[|p| - 1];
    var q := p[..|p| - 1];
    if last in q {
      var i :| 0 <= i < |q| && q[i] == last;
      assert p[i] == p[|p| - 1];
    } else {
      Pigeonhole(s - {last}, q);
      var i, j :| 0 <= i < j < |q| && q[i] == q[j];
      assert p[i] == p[j];
    }
  }

  /** A key is ordered exactly when no chain of dependencies from it leaves the graph
      or runs in a circle. */
  lemma OrderedIffNotBad(g: Graph, k: Key)
    requires k in g
    ensures k in Order(g, []) <==> forall p :: Chain(g, p) && p[0] == k ==> !Bad(g, p)
  {
    var order := Order(g, []);
    OrderIsTopological(g, []);
    if k in order {
      forall p | Chain(g, p) && p[0] == k ensures !Bad(g, p) {
        OrderedIsNotBad(g, order, p);
      }
    } else {
      var p := LeftoverChain(g, Range(order), k, |g.Keys|);
      if !Bad(g, p) {
        Pigeonhole(g.Keys, p);
      }
      assert Chain(g, p) && p[0] == k && Bad(g, p);
    }
  }

  ghost predicate Closed(g: Graph) {
    forall k <- g :: DependenciesIn(g, k, g.Keys)
  }

  ghost predicate Cyclic(g: Graph) {
    exists p :: Chain(g, p) && |p| > 1 && p[0] == p[|p| - 1]
  }

  /** Every key is ordered exactly when the graph is closed and acyclic. */
  lemma AllOrderedIff(g: Graph)
    ensures (forall k <- g :: k in Order(g, [])) <==> Closed(g) && !Cyclic(g)
  {
    hide Order, Closed, Cyclic;
    if forall k <- g :: k in Order(g, []) {
      AllOrderedIsSound(g);
    } else {
      LeftoverIsUnsound(g);
    }
  }

  lemma AllOrderedIsSound(g: Graph)
    requires forall k <- g :: k in Order(g, [])
    ensures Closed(g) && !Cyclic(g)
  {
    hide Order;
    forall k, d | k in g && d in g[k].dependencies ensures d in g {
      OrderedIffNotBad(g, k);
      assert Chain(g, [k, d]) && [k, d][0] == k;
    }
    forall p | Chain(g, p) && |p| > 1 && p[0] == p[|p| - 1] ensures false {
      assert Link(g, p[0], p[1]);
      assert Bad(g, p);
      OrderedIffNotBad(g, p[0]);
    }
  }

  lemma LeftoverIsUnsound(g: Graph)
    requires exists k <- g :: k !in Order(g, [])
    ensures !(Closed(g) && !Cyclic(g))
  {
    hide Order, Bad, Closed, Cyclic;
    var k :| k in g && k !in Order(g, []);
    OrderedIffNotBad(g, k);
    var p :| Chain(g, p) && p[0] == k && Bad(g, p);
    BadIsUnsound(g, p);
  }

  lemma BadIsUnsound(g: Graph, p: seq<Key>)
    requires Chain(g, p) && p[0] in g && Bad(g, p)
    ensures !(Closed(g) && !Cyclic(g))
  {
    hide Cyclic;
    if i, j :| 0 <= i < j < |p| && p[i] == p[j] {
      ComesBack(g, p, i, j);
    } else {
      assert |p| > 1;
      assert Link(g, p[|p| - 2], p[|p| - 1]);
    }
  }

  lemma ComesBack(g: Graph, p: seq<Key>, i: nat, j: nat)
    requires Chain(g, p) && i < j < |p| && p[i] == p[j]
    ensures Cyclic(g)
  {
    hide Chain;
    SubChain(g, p, i, j + 1);
    var q := p[i..j + 1];
    assert Chain(g, q) && |q| > 1 && q[0] == q[|q| - 1];
  }

  /** The key depends on itself, directly or not. */
  ghost predicate OnCycle(g: Graph, k: Key) {
    exists p :: Chain(g, p) && |p| > 1 && p[0] == k && p[|p| - 1] == k
  }

  /** Whoever depends on a key on a cycle, or on a missing one, is on a cycle too. */
  ghost predicate CyclesAreShut(g: Graph) {
    forall k, d :: Link(g, k, d) && (d !in g || OnCycle(g, d)) ==> OnCycle(g, k)
  }

  /** The keys left over, which the error names, are all on cycles exactly when nothing
      off the cycles depends on one, or on a missing fixture. */
  lemma OnlyCyclesAreNamedIff(g: Graph)
    ensures (forall k <- g.Keys - Range(Order(g, [])) :: OnCycle(g, k)) <==> CyclesAreShut(g)
  {
    hide Order, OnCycle, Bad;
    if CyclesAreShut(g) {
      forall k | k in g.Keys - Range(Order(g, [])) ensures OnCycle(g, k) {
        OrderedIffNotBad(g, k);
        var p :| Chain(g, p) && p[0] == k && Bad(g, p);
        BadIsOnCycle(g, p);
      }
    }
    if forall k <- g.Keys - Range(Order(g, [])) :: OnCycle(g, k) {
      forall k, d | Link(g, k, d) && (d !in g || OnCycle(g, d)) ensures OnCycle(g, k) {
        var p := BadAbove(g, k, d);
        OrderedIffNotBad(g, k);
      }
    }
  }

  lemma BadAbove(g: Graph, k: Key, d: Key) returns (p: seq<Key>)
    requires Link(g, k, d) && (d !in g || OnCycle(g, d))
    ensures Chain(g, p) && p[0] == k && Bad(g, p)
  {
    if d !in g {
      p := [k, d];
    } else {
      var q :| Chain(g, q) && |q| > 1 && q[0] == d && q[|q| - 1] == d;
      p := [k] + q;
      ChainBefore(g, k, q);
      assert p[1] == q[0] && p[|q|] == q[|q| - 1];
    }
  }

  lemma {:induction false} BadIsOnCycle(g: Graph, p: seq<Key>)
    requires CyclesAreShut(g) && Bad(g, p) && p[0] in g
    ensures OnCycle(g, p[0])
    decreases |p|
  {
    hide OnCycle;
    if j :| 0 < j < |p| && p[j] == p[0] {
      SubChain(g, p, 0, j + 1);
      ComesBackToFirst(g, p[0..j + 1]);
    } else {
      var q := p[1..];
      assert |p| > 1;
      assert Link(g, p[0], p[1]);
      if p[1] in g {
        SubChain(g, p, 1, |p|);
        BadWithoutFirst(g, p);
        BadIsOnCycle(g, q);
      }
    }
  }

  lemma BadWithoutFirst(g: Graph, p: seq<Key>)
    requires Bad(g, p) && |p| > 1 && Chain(g, p[1..]) && forall j :: 0 < j < |p| ==> p[j] != p[0]
    ensures Bad(g, p[1..])
  {
    hide Chain;
    var q := p[1..];
    if i, j :| 0 <= i < j < |p| && p[i] == p[j] {
      assert q[i - 1] == q[j - 1];
    }
  }

  lemma ComesBackToFirst(g: Graph, p: seq<Key>)
    requires Chain(g, p) && |p| > 1 && p[0] == p[|p| - 1]
    ensures OnCycle(g, p[0])
  {
  }

  /** With a depending on itself and b on a, the error names b, which is on no cycle. */
  lemma OffCycleIsNamed()
    ensures var g := map["a" := Fixture(["a"], ""), "b" := Fixture(["a"], "")];
      "b" in g.Keys - Range(Order(g, [])) && !OnCycle(g, "b")
  {
    var g := map["a" := Fixture(["a"], ""), "b" := Fixture(["a"], "")];
    hide Order;
    OrderedIffNotBad(g, "b");
    assert Link(g, "b", "a") && Link(g, "a", "a");
    var p := ["b", "a", "a"];
    assert p[1] == p[2] && Bad(g, p);
    forall q | Chain(g, q) && |q| > 1 ensures q[|q| - 1] != "b" {
      assert Link(g, q[|q| - 2], q[|q| - 1]);
    }
  }

  /** The order holds as many keys as the graph exactly when it holds all. */
  lemma CountsAll(g: Graph, order: seq<Key>)
    requires Topological(g, order)
    ensures |order| <= |g| && (|order| == |g| <==> forall k <- g :: k in order)
  {
    DistinctCount(order);
    assert Range(order) <= g.Keys;
    SubsetCount(Range(order), g.Keys);
  }

  lemma {:induction false} DistinctCount(s: seq<Key>)
    requires forall i, j :: 0 <= i < j < |s| ==> s[i] != s[j]
    ensures |Range(s)| == |s|
  {
    if s != [] {
      var t := s[..|s| - 1];
      DistinctCount(t);
      assert Range(s) == Range(t) + {s[|s| - 1]};
    }
  }

  lemma {:induction false} SubsetCount(a: set<Key>, b: set<Key>)
    requires a <= b
    ensures |a| <= |b| && (|a| == |b| <==> a == b)
  {
    if a != {} {
      var x :| x in a;
      SubsetCount(a - {x}, b - {x});
    }
  }

  // ---------------------------------------------------------- the algorithm

  /** How many entries of a dependency list are not done yet. */
  function Missing(deps: seq<Key>, done: set<Key>): nat {
    if deps == [] then 0 else (if deps[0] in done then 0 else 1) + Missing(deps[1..], done)
  }

  lemma {:induction false} NoneMissing(deps: seq<Key>, done: set<Key>)
    ensures Missing(deps, done) == 0 <==> forall d <- deps :: d in done
    ensures Missing(deps, {}) == |deps|
  {
    if deps != [] {
      NoneMissing(deps[1..], done);
      assert deps == [deps[0]] + deps[1..];
    }
  }

  lemma {:induction false} OneMoreDone(deps: seq<Key>, done: set<Key>, k: Key)
    requires k !in done
    ensures Missing(deps, done + {k}) + multiset(deps)[k] == Missing(deps, done)
  {
    if deps != [] {
      OneMoreDone(deps[1..], done, k);
      assert deps == [deps[0]] + deps[1..];
    }
  }

  lemma {:induction false} SomeMissing(deps: seq<Key>, done: set<Key>, k: Key)
    requires k !in done
    ensures multiset(deps)[k] <= Missing(deps, done)
  {
    OneMoreDone(deps, done, k);
  }

  lemma SortKeepsDistinct(s: seq<Key>, t: seq<Key>)
    requires multiset(s) == multiset(t) && forall i, j :: 0 <= i < j < |s| ==> s[i] != s[j]
    ensures |t| == |s| && forall i, j :: 0 <= i < j < |t| ==> t[i] != t[j]
  {
    assert |multiset(s)| == |s| && |multiset(t)| == |t|;
    forall i, j | 0 <= i < j < |t| && t[i] == t[j] ensures false {
      TwiceCounts(t, i, j);
      OnceCounts(s, t[i]);
    }
  }

  lemma TwiceCounts(t: seq<Key>, i: nat, j: nat)
    requires i < j < |t| && t[i] == t[j]
    ensures multiset(t)[t[i]] >= 2
  {
    assert t == t[..j] + t[j..] && t[i] in t[..j] && t[i] in t[j..];
    assert t[..j][i] == t[i] && t[j..][0] == t[j];
  }

  lemma {:induction false} OnceCounts(s: seq<Key>, k: Key)
    requires forall i, j :: 0 <= i < j < |s| ==> s[i] != s[j]
    ensures multiset(s)[k] <= 1
  {
    if s != [] {
      assert s == s[..|s| - 1] + [s[|s| - 1]];
      OnceCounts(s[..|s| - 1], k);
      assert k == s[|s| - 1] ==> k !in s[..|s| - 1];
    }
  }

  /** The keys of a map in ascending order. */
  method SortedKeys(g: Graph) returns (keys: seq<Key>)
    ensures Range(keys) == g.Keys && |keys| == |g|
    ensures Sorted(keys) && Distinct(keys)
  {
    keys := [];
    var rest := g.Keys;
    while rest != {}
      invariant rest <= g.Keys && Range(keys) == g.Keys - rest && |keys| + |rest| == |g.Keys|
      invariant forall i, j :: 0 <= i < j < |keys| ==> keys[i] != keys[j]
      decreases |rest|
    {
      var k :| k in rest;
      rest := rest - {k};
      RangeWith(keys, k);
      keys := keys + [k];
    }
    ghost var was := keys;
    keys := Sort(keys);
    SortKeepsDistinct(was, keys);
    assert Range(keys) == Range(was);
  }

  lemma RangeWith(keys: seq<Key>, k: Key)
    ensures Range(keys + [k]) == Range(keys) + {k}
  {
  }

  /** Dependency counts over the keys not done: what inDegree holds. */
  ghost predicate Counts(g: Graph, inDegree: map<Key, nat>, done: set<Key>) {
    inDegree.Keys == g.Keys && forall k <- g :: inDegree[k] == Missing(g[k].dependencies, done)
  }

  ghost predicate Distinct(s: seq<Key>) {
    forall i, j :: 0 <= i < j < |s| ==> s[i] != s[j]
  }

  /** The queue holds exactly the ready keys, ascending. */
  ghost predicate Queued(g: Graph, queue: seq<Key>, done: set<Key>) {
    Sorted(queue) && Distinct(queue) && Range(queue) == Ready(g, done)
  }

  /** Each key's dependents, once for each time they name it. */
  ghost predicate Lists(g: Graph, children: map<Key, seq<Key>>) {
    forall d, k :: multiset(ListOf(children, d))[k] == if k in g then multiset(g[k].dependencies)[d] else 0
  }

  function ListOf(children: map<Key, seq<Key>>, d: Key): seq<Key> {
    if d in children then children[d] else []
  }

  method Children(g: Graph, keys: seq<Key>) returns (children: map<Key, seq<Key>>)
    requires Distinct(keys) && Range(keys) == g.Keys
    ensures Lists(g, children)
  {
    children := map[];
    ghost var all := g.Keys;
    assert forall k :: k in g <==> k in keys;
    hide Distinct, Lists;
    for i := 0 to |keys|
      invariant ListsOf(g, children, keys[..i])
    {
      var k := keys[i];
      assert k in keys && keys[..i + 1] == keys[..i] + [k];
      NotBefore(keys, i);
      var deps := g[k].dependencies;
      ghost var was := children;
      children := Append(children, deps, k);
      OneMoreListed(g, was, children, keys[..i], k);
    }
    assert keys[..|keys|] == keys;
    AllListed(g, children, keys);
  }

  /** The lists, of the given dependents only. */
  ghost predicate ListsOf(g: Graph, children: map<Key, seq<Key>>, keys: seq<Key>) {
    forall d, k :: multiset(ListOf(children, d))[k] == if k in keys && k in g then multiset(g[k].dependencies)[d] else 0
  }

  ghost predicate Appended(was: map<Key, seq<Key>>, now: map<Key, seq<Key>>, deps: seq<Key>, k: Key) {
    forall d, x :: multiset(ListOf(now, d))[x] == multiset(ListOf(was, d))[x] + if x == k then multiset(deps)[d] else 0
  }

  lemma NotBefore(keys: seq<Key>, i: nat)
    requires Distinct(keys) && i < |keys|
    ensures keys[i] !in keys[..i]
  {
  }

  lemma OneMoreListed(g: Graph, was: map<Key, seq<Key>>, now: map<Key, seq<Key>>, keys: seq<Key>, k: Key)
    requires k in g && k !in keys && ListsOf(g, was, keys) && Appended(was, now, g[k].dependencies, k)
    ensures ListsOf(g, now, keys + [k])
  {
    hide ListOf;
  }

  lemma AllListed(g: Graph, children: map<Key, seq<Key>>, keys: seq<Key>)
    requires ListsOf(g, children, keys) && forall k :: k in g <==> k in keys
    ensures Lists(g, children)
  {
    hide ListOf;
  }

  method Append(children: map<Key, seq<Key>>, deps: seq<Key>, k: Key) returns (r: map<Key, seq<Key>>)
    ensures Appended(children, r, deps, k)
  {
    hide Appended;
    r := children;
    AppendedNothing(children, k);
    assert deps[..0] == [];
    for j := 0 to |deps|
      invariant Appended(children, r, deps[..j], k)
    {
      assert deps[..j + 1] == deps[..j] + [deps[j]];
      AppendedOne(children, r, deps[..j], deps[j], k);
      r := r[deps[j] := ListOf(r, deps[j]) + [k]];
    }
    assert deps[..|deps|] == deps;
  }

  lemma AppendedNothing(children: map<Key, seq<Key>>, k: Key)
    ensures Appended(children, children, [], k)
  {
  }

  lemma AppendedOne(was: map<Key, seq<Key>>, now: map<Key, seq<Key>>, deps: seq<Key>, d: Key, k: Key)
    requires Appended(was, now, deps, k)
    ensures Appended(was, now[d := ListOf(now, d) + [k]], deps + [d], k)
  {
    hide ListOf;
    var next := now[d := ListOf(now, d) + [k]];
    forall e, x
      ensures multiset(ListOf(next, e))[x]
           == multiset(ListOf(was, e))[x] + if x == k then multiset(deps + [d])[e] else 0
    {
      OneMore(deps, d, e);
      AppendedAt(now, d, k, e, x);
    }
  }

  lemma AppendedAt(now: map<Key, seq<Key>>, d: Key, k: Key, e: Key, x: Key)
    ensures multiset(ListOf(now[d := ListOf(now, d) + [k]], e))[x]
         == multiset(ListOf(now, e))[x] + if x == k && e == d then 1 else 0
  {
    OneMore(ListOf(now, d), k, x);
  }

  lemma OneMore(s: seq<Key>, d: Key, x: Key)
    ensures multiset(s + [d])[x] == multiset(s)[x] + if x == d then 1 else 0
  {
  }

  /** topoSortSharedFixtures: all fixtures in the order that always takes the least ready
      key, or the keys left over, ascending. */
  method TopoSort(g: Graph) returns (r: Result)
    ensures var order := Order(g, []);
      match r
      case Ok(fixtures) => (forall k <- g :: k in order) && |order| == |g| && FixturesOf(g, order, fixtures)
      case Cycle(keys) => keys != [] && Sorted(keys) && Distinct(keys) && Range(keys) == g.Keys - Range(order)
  {
    hide Order, Topological, Counts, Queued, Lists, Range, Ready, DoneFirst, Sorted, Distinct;
    if |g| == 0 {
      EmptyOrder(g);
      return Ok([]);
    }
    var keys := SortedKeys(g);
    var inDegree: map<Key, nat> := map k | k in g :: |g[k].dependencies|;
    var children := Children(g, keys);
    var queue := InitialQueue(g, keys, inDegree);
    var result: seq<Fixture> := [];
    ghost var done: seq<Key> := [];
    StartCounts(g, inDegree);
    while queue != []
      invariant Topological(g, done) && Order(g, done) == Order(g, [])
      invariant Counts(g, inDegree, Range(done)) && Queued(g, queue, Range(done))
      invariant FixturesOf(g, done, result)
      decreases |g| - |done|
    {
      var node := queue[0];
      TakeLeast(g, queue, done);
      ListsAt(g, children, node);
      result := result + [g[node]];
      inDegree, queue := Release(g, ListOf(children, node), inDegree, queue[1..], Range(done), node);
      RangeOfMore(done, node);
      done := done + [node];
      CountsAll(g, done);
    }
    QueueEnds(g, done);
    if |result| < |g| {
      var cycled := Leftover(g, keys, inDegree, done);
      return Cycle(cycled);
    }
    return Ok(result);
  }

  ghost predicate FixturesOf(g: Graph, done: seq<Key>, result: seq<Fixture>) {
    |result| == |done| && forall i :: 0 <= i < |done| ==> done[i] in g && result[i] == g[done[i]]
  }

  lemma EmptyOrder(g: Graph)
    requires |g| == 0
    ensures Order(g, []) == [] && forall k :: k !in g
  {
    assert g.Keys == {} && Ready(g, Range([])) == {};
  }

  /** With nothing ready, what is done is the order. */
  lemma QueueEnds(g: Graph, done: seq<Key>)
    requires Queued(g, [], Range(done)) && Topological(g, done) && Order(g, done) == Order(g, [])
    ensures Order(g, []) == done && Ready(g, Range(done)) == {}
    ensures |done| <= |g| && (|done| == |g| <==> forall k <- g :: k in done)
    ensures g.Keys - Range(done) == {} <==> |done| == |g|
  {
    assert Ready(g, Range(done)) == Range([]) == {};
    CountsAll(g, done);
  }

  lemma ListsAt(g: Graph, children: map<Key, seq<Key>>, node: Key)
    requires Lists(g, children)
    ensures Dependents(g, ListOf(children, node), node)
  {
  }

  lemma RangeOfMore(s: seq<Key>, k: Key)
    ensures Range(s + [k]) == Range(s) + {k}
  {
  }

  lemma StartCounts(g: Graph, inDegree: map<Key, nat>)
    requires inDegree.Keys == g.Keys && forall k <- g :: inDegree[k] == |g[k].dependencies|
    ensures Counts(g, inDegree, Range([])) && Topological(g, [])
  {
    assert Range([]) == {};
    forall k | k in g ensures inDegree[k] == Missing(g[k].dependencies, {}) {
      NoneMissing(g[k].dependencies, {});
    }
  }

  /** The head of the queue is the key the order takes next. */
  lemma TakeLeast(g: Graph, queue: seq<Key>, done: seq<Key>)
    requires Queued(g, queue, Range(done)) && queue != [] && Topological(g, done)
    ensures var node := queue[0];
      && node in Ready(g, Range(done)) && node in g && node !in Range(done)
      && Sorted(queue[1..]) && Distinct(queue[1..]) && Range(queue[1..]) == Ready(g, Range(done)) - {node}
      && DoneFirst(g, Range(done))
      && Topological(g, done + [node]) && Order(g, done + [node]) == Order(g, done)
  {
    var node := queue[0];
    var ready := Ready(g, Range(done));
    assert node in Range(queue);
    forall j | j in ready && j != node ensures Below(node, j) {
      assert j in Range(queue);
      var i :| 0 <= i < |queue| && queue[i] == j;
      BelowIsTotal(node, j);
    }
    assert IsLeast(node, ready);
    LeastIsUnique(ready, node);
    TopologicalIsDoneFirst(g, done);
    assert queue == [node] + queue[1..];
    var next := done + [node];
    assert forall i :: 0 <= i <= |done| ==> next[..i] == done[..i];
  }

  method InitialQueue(g: Graph, keys: seq<Key>, inDegree: map<Key, nat>) returns (queue: seq<Key>)
    requires Sorted(keys) && Distinct(keys) && Range(keys) == g.Keys
    requires inDegree.Keys == g.Keys && forall k <- g :: inDegree[k] == |g[k].dependencies|
    ensures Queued(g, queue, Range([]))
  {
    queue := [];
    for i := 0 to |keys|
      invariant Sorted(queue) && Distinct(queue) && forall q <- queue :: q in keys[..i]
      invariant forall k <- keys[..i] :: k in queue <==> k in Ready(g, {})
    {
      var k := keys[i];
      assert k in keys && keys[..i + 1] == keys[..i] + [k] && k in g;
      assert inDegree[k] == 0 <==> k in Ready(g, {}) by {
        assert g[k].dependencies != [] ==> g[k].dependencies[0] in g[k].dependencies;
      }
      if inDegree[k] == 0 {
        AppendSorted(queue, keys, i);
        queue := queue + [k];
      }
    }
    assert keys[..|keys|] == keys;
    assert Range([]) == {};
    assert forall k :: k in g <==> k in keys;
  }

  lemma AppendSorted(queue: seq<Key>, keys: seq<Key>, i: nat)
    requires Sorted(queue) && Distinct(queue) && i < |keys| && Sorted(keys) && Distinct(keys)
    requires forall q <- queue :: q in keys[..i]
    ensures Sorted(queue + [keys[i]]) && Distinct(queue + [keys[i]])
  {
    forall a | 0 <= a < |queue| ensures queue[a] != keys[i] && !Below(keys[i], queue[a]) {
      assert queue[a] in keys[..i];
      var j :| 0 <= j < i && keys[j] == queue[a];
    }
  }

  /** The keys still waiting for a dependency are those the order left out. */
  method Leftover(g: Graph, keys: seq<Key>, inDegree: map<Key, nat>, ghost done: seq<Key>) returns (cycled: seq<Key>)
    requires Sorted(keys) && Distinct(keys) && Range(keys) == g.Keys
    requires Counts(g, inDegree, Range(done)) && Ready(g, Range(done)) == {} && Topological(g, done)
    ensures Sorted(cycled) && Distinct(cycled) && Range(cycled) == g.Keys - Range(done)
    ensures cycled == [] ==> g.Keys - Range(done) == {}
  {
    hide Ready, Topological, Below, Missing;
    cycled := [];
    for i := 0 to |keys|
      invariant Sorted(cycled) && Distinct(cycled) && forall q <- cycled :: q in keys[..i]
      invariant forall k <- keys[..i] :: k in cycled <==> k !in done
    {
      var k := keys[i];
      assert k in keys && keys[..i + 1] == keys[..i] + [k] && k in g;
      WaitingIff(g, inDegree, done, k);
      if inDegree[k] > 0 {
        AppendSorted(cycled, keys, i);
        cycled := cycled + [k];
      }
    }
    assert keys[..|keys|] == keys;
    assert forall k :: k in g <==> k in keys;
  }

  lemma WaitingIff(g: Graph, inDegree: map<Key, nat>, done: seq<Key>, k: Key)
    requires Counts(g, inDegree, Range(done)) && Ready(g, Range(done)) == {} && Topological(g, done) && k in g
    ensures inDegree[k] > 0 <==> k !in done
  {
    NoneMissing(g[k].dependencies, Range(done));
    if k in done {
      var i :| 0 <= i < |done| && done[i] == k;
      assert DependenciesIn(g, k, Range(done[..i]));
      assert Range(done[..i]) <= Range(done);
    } else {
      assert k !in Ready(g, Range(done));
    }
  }

  /** Counts one dependency of each dependent off and queues those that have none
      left. */
  method Release(
      g: Graph, list: seq<Key>, inDegree0: map<Key, nat>, queue0: seq<Key>, ghost done: set<Key>, ghost node: Key)
    returns (inDegree: map<Key, nat>, queue: seq<Key>)
    requires Counts(g, inDegree0, done) && node in Ready(g, done) && node !in done && DoneFirst(g, done)
    requires Dependents(g, list, node)
    requires Sorted(queue0) && Distinct(queue0) && Range(queue0) == Ready(g, done) - {node}
    ensures Counts(g, inDegree, done + {node}) && Queued(g, queue, done + {node})
  {
    hide Counts, Queued, Halfway, Dependents, Sorted, Distinct, DoneFirst, Ready, Range;
    var deps := Sort(list);
    assert multiset(deps) == multiset(list);
    SameDependents(g, list, deps, node);
    inDegree, queue := inDegree0, queue0;
    assert deps[..0] == [];
    HalfwayStarts(g, inDegree, queue, done, node);
    for j := 0 to |deps|
      invariant Halfway(g, deps[..j], inDegree, queue, done, node)
    {
      var child := deps[j];
      HalfwayOn(g, deps, j, inDegree, queue, done, node);
      inDegree := inDegree[child := inDegree[child] - 1];
      if inDegree[child] == 0 {
        queue := Sort(queue + [child]);
      }
    }
    assert deps[..|deps|] == deps;
    HalfwayEnds(g, list, deps, inDegree, queue, done, node);
  }

  ghost predicate DoneFirst(g: Graph, done: set<Key>) {
    forall k <- done :: k in g && DependenciesIn(g, k, done)
  }

  lemma TopologicalIsDoneFirst(g: Graph, done: seq<Key>)
    requires Topological(g, done)
    ensures DoneFirst(g, Range(done))
  {
    forall k | k in Range(done) ensures k in g && DependenciesIn(g, k, Range(done)) {
      var i :| 0 <= i < |done| && done[i] == k;
      assert DependenciesIn(g, k, Range(done[..i])) && Range(done[..i]) <= Range(done);
    }
  }

  /** The dependents seen so far are counted off. */
  ghost predicate Halfway(
      g: Graph, seen: seq<Key>, inDegree: map<Key, nat>, queue: seq<Key>, done: set<Key>, node: Key) {
    && inDegree.Keys == g.Keys
    && (forall k <- g :: inDegree[k] + multiset(seen)[k] == Missing(g[k].dependencies, done))
    && Sorted(queue) && Distinct(queue)
    && (forall k :: k in queue <==> k in g && k !in done && k != node && inDegree[k] == 0)
  }

  lemma HalfwayOn(g: Graph, deps: seq<Key>, j: nat, inDegree: map<Key, nat>, queue: seq<Key>, done: set<Key>, node: Key)
    requires j < |deps| && Halfway(g, deps[..j], inDegree, queue, done, node) && node !in done
    requires Dependents(g, deps, node)
    requires node in Ready(g, done) && DoneFirst(g, done)
    ensures var child := deps[j];
      && child in g && child in inDegree && inDegree[child] > 0
      && var next := inDegree[child := inDegree[child] - 1];
         Halfway(g, deps[..j + 1], next, if next[child] == 0 then Sort(queue + [child]) else queue, done, node)
  {
    hide Ready, DoneFirst, Missing, Sort, Sorted, Distinct, Dependents, DependenciesIn;
    var child := deps[j];
    var seen := deps[..j];
    assert deps[..j + 1] == seen + [child];
    NextDependent(g, deps, j, node);
    ChildWaits(g, seen, child, inDegree, done, node);
    CountOff(g, seen, child, inDegree, queue, done, node);
  }

  /** Each dependent as many times as it names the node. */
  ghost predicate Dependents(g: Graph, list: seq<Key>, node: Key) {
    forall k :: multiset(list)[k] == if k in g then multiset(g[k].dependencies)[node] else 0
  }

  lemma SameDependents(g: Graph, list: seq<Key>, deps: seq<Key>, node: Key)
    requires Dependents(g, list, node) && multiset(deps) == multiset(list)
    ensures Dependents(g, deps, node)
  {
  }

  lemma NextDependent(g: Graph, deps: seq<Key>, j: nat, node: Key)
    requires Dependents(g, deps, node) && j < |deps|
    ensures deps[j] in g && multiset(deps[..j])[deps[j]] < multiset(g[deps[j]].dependencies)[node]
  {
    assert deps == deps[..j] + [deps[j]] + deps[j + 1..];
    assert multiset(deps[..j])[deps[j]] < multiset(deps)[deps[j]];
  }

  lemma CountOff(
      g: Graph, seen: seq<Key>, child: Key, inDegree: map<Key, nat>, queue: seq<Key>, done: set<Key>, node: Key)
    requires Halfway(g, seen, inDegree, queue, done, node)
    requires child in g && child in inDegree && inDegree[child] > 0 && child !in done && child != node
    ensures var next := inDegree[child := inDegree[child] - 1];
      Halfway(g, seen + [child], next, if next[child] == 0 then Sort(queue + [child]) else queue, done, node)
  {
    hide Missing, Sorted, Distinct, Sort;
    var next := inDegree[child := inDegree[child] - 1];
    assert multiset(seen + [child]) == multiset(seen) + multiset{child};
    assert child !in queue;
    SortsInto(queue, child);
    assert forall k :: k in queue + [child] <==> k == child || k in queue;
  }

  lemma SortsInto(queue: seq<Key>, child: Key)
    requires Distinct(queue) && child !in queue
    ensures var q := Sort(queue + [child]);
      Sorted(q) && Distinct(q) && forall k :: k in q <==> k == child || k in queue
  {
    var more := queue + [child];
    assert Distinct(more);
    SortKeepsDistinct(more, Sort(more));
    assert forall k :: k in more <==> k == child || k in queue;
  }

  /** A dependent not counted off yet waits for the node at least. */
  lemma ChildWaits(g: Graph, seen: seq<Key>, child: Key, inDegree: map<Key, nat>, done: set<Key>, node: Key)
    requires child in g && multiset(seen)[child] < multiset(g[child].dependencies)[node]
    requires node in Ready(g, done) && DoneFirst(g, done)
    requires inDegree.Keys == g.Keys && inDegree[child] + multiset(seen)[child] == Missing(g[child].dependencies, done)
    ensures inDegree[child] > 0 && child !in done && child != node
  {
    var d := g[child].dependencies;
    SomeMissing(d, done, node);
    assert node in d;
  }

  lemma HalfwayStarts(g: Graph, inDegree: map<Key, nat>, queue: seq<Key>, done: set<Key>, node: Key)
    requires Counts(g, inDegree, done) && node in Ready(g, done)
    requires Sorted(queue) && Distinct(queue) && Range(queue) == Ready(g, done) - {node}
    ensures Halfway(g, [], inDegree, queue, done, node)
  {
    hide Missing, Sorted, Distinct;
    forall k | k in g ensures inDegree[k] == 0 <==> DependenciesIn(g, k, done) {
      NoneMissing(g[k].dependencies, done);
    }
    assert forall k :: k in queue <==> k in Range(queue);
  }

  lemma HalfwayEnds(
      g: Graph, list: seq<Key>, deps: seq<Key>, inDegree: map<Key, nat>, queue: seq<Key>, done: set<Key>, node: Key)
    requires Halfway(g, deps, inDegree, queue, done, node) && node !in done && multiset(deps) == multiset(list)
    requires Dependents(g, list, node)
    ensures Counts(g, inDegree, done + {node}) && Queued(g, queue, done + {node})
  {
    forall k | k in g
      ensures inDegree[k] == Missing(g[k].dependencies, done + {node})
      ensures inDegree[k] == 0 <==> DependenciesIn(g, k, done + {node})
    {
      OneMoreDone(g[k].dependencies, done, node);
      NoneMissing(g[k].dependencies, done + {node});
    }
  }

  // ------------------------------------------- the fixtures a suite reaches

  /** The parents of each known fixture. */
  type Parents = map<Key, seq<Key>>

  ghost predicate ParentOf(ps: Parents, k: Key, q: Key) {
    k in ps && q in ps[k]
  }

  /** A walk from parent to parent. */
  ghost predicate Ascent(ps: Parents, p: seq<Key>) {
    p != [] && forall i :: 0 < i < |p| ==> ParentOf(ps, p[i - 1], p[i])
  }

  ghost predicate Reaches(ps: Parents, from: Key, to: Key) {
    exists p :: Ascent(ps, p) && p[0] == from && p[|p| - 1] == to
  }

  ghost predicate ClosedUp(ps: Parents, keys: set<Key>, within: set<Key>) {
    forall k, q :: k in keys && ParentOf(ps, k, q) ==> q in within
  }

  lemma ReachesItself(ps: Parents, k: Key)
    ensures Reaches(ps, k, k)
  {
    assert Ascent(ps, [k]) && [k][0] == k;
  }

  lemma ReachesOn(ps: Parents, k: Key, q: Key, to: Key)
    requires ParentOf(ps, k, q) && Reaches(ps, q, to)
    ensures Reaches(ps, k, to)
  {
    var p :| Ascent(ps, p) && p[0] == q && p[|p| - 1] == to;
    var r := [k] + p;
    forall i | 0 < i < |r| ensures ParentOf(ps, r[i - 1], r[i]) {
      if i > 1 {
        assert r[i] == p[i - 1] && r[i - 1] == p[i - 2];
      }
    }
    assert r[0] == k && r[|r| - 1] == to;
  }

  lemma {:induction false} ClosedHoldsAscents(ps: Parents, keys: set<Key>, p: seq<Key>)
    requires Ascent(ps, p) && p[0] in keys && ClosedUp(ps, keys, keys)
    ensures p[|p| - 1] in keys
  {
    if |p| > 1 {
      var q := p[..|p| - 1];
      ClosedHoldsAscents(ps, keys, q);
      assert ParentOf(ps, p[|p| - 2], p[|p| - 1]);
    }
  }

  method Visit(ps: Parents, needed: set<Key>, id: Key) returns (r: set<Key>)
    ensures needed <= r && id in r
    ensures forall k <- r - needed :: Reaches(ps, id, k)
    ensures ClosedUp(ps, r - needed, r)
    decreases |ps.Keys - needed|
  {
    if id in needed {
      return needed;
    }
    r := needed + {id};
    ReachesItself(ps, id);
    if id !in ps {
      return;
    }
    var parents := ps[id];
    assert ps.Keys - r == (ps.Keys - needed) - {id};
    hide Reaches;
    for j := 0 to |parents|
      invariant needed + {id} <= r && forall q <- parents[..j] :: q in r
      invariant forall k <- r - needed :: Reaches(ps, id, k)
      invariant ClosedUp(ps, r - needed - {id}, r)
    {
      assert parents[..j + 1] == parents[..j] + [parents[j]];
      assert ParentOf(ps, id, parents[j]);
      SubsetCount(ps.Keys - r, ps.Keys - needed - {id});
      var next := Visit(ps, r, parents[j]);
      forall k | k in next - r ensures Reaches(ps, id, k) {
        ReachesOn(ps, id, parents[j], k);
      }
      r := next;
    }
    assert parents[..|parents|] == parents;
  }

  /** collectTransitiveDepsRF: exactly what the suite's bindings reach. */
  method CollectTransitive(ps: Parents, bindings: seq<Key>) returns (needed: set<Key>)
    ensures forall k :: k in needed <==> exists b <- bindings :: Reaches(ps, b, k)
  {
    needed := {};
    hide Reaches;
    for j := 0 to |bindings|
      invariant forall b <- bindings[..j] :: b in needed
      invariant forall k <- needed :: exists b <- bindings :: Reaches(ps, b, k)
      invariant ClosedUp(ps, needed, needed)
    {
      assert bindings[..j + 1] == bindings[..j] + [bindings[j]];
      ghost var before := needed;
      needed := Visit(ps, needed, bindings[j]);
      assert bindings[j] in bindings;
      forall k | k in needed ensures exists b <- bindings :: Reaches(ps, b, k) {
        if k !in before {
          assert Reaches(ps, bindings[j], k);
        }
      }
    }
    assert bindings[..|bindings|] == bindings;
    forall b, k | b in bindings && Reaches(ps, b, k) ensures k in needed {
      ReachedIsHeld(ps, needed, b, k);
    }
  }

  lemma ReachedIsHeld(ps: Parents, needed: set<Key>, b: Key, k: Key)
    requires b in needed && ClosedUp(ps, needed, needed) && Reaches(ps, b, k)
    ensures k in needed
  {
    var p :| Ascent(ps, p) && p[0] == b && p[|p| - 1] == k;
    ClosedHoldsAscents(ps, needed, p);
  }
}
