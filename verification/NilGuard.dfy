module NilGuard {
  /** The nil-guard analysis of hook bodies: which places of a body are reached only
      with the subject non-nil. Whatever the analysis does not look into, loops and
      switches and calls, runs its parts in any order and number, as an oracle says.
      The subject is never reassigned, so it is nil for a whole run or never. */

  datatype Node =
    /** subject == nil, or subject != nil. */
    | NilTest(equal: bool)
    | Paren(x: Node)
    | And(x: Node, y: Node)
    | Or(x: Node, y: Node)
    /** An absent init or else. */
    | Absent
    | If(init: Node, cond: Node, body: Node, els: Node)
    | Block(list: seq<Node>)
    | Return(results: seq<Node>)
    /** break or continue. */
    | Jump
    /** Anything else. In a function literal a return ends. */
    | Any(parts: seq<Node>, literal: bool)

  /** From a node down to a place in it, child by child. */
  type Path = seq<nat>

  function Children(n: Node): (cs: seq<Node>)
    ensures forall c <- cs :: c < n
  {
    match n
    case Paren(x) => [x]
    case And(x, y) => [x, y]
    case Or(x, y) => [x, y]
    case If(init, cond, body, els) => [init, cond, body, els]
    case Block(list) => list
    case Return(results) => results
    case Any(parts, _) => parts
    case _ => []
  }

  predicate IsPlace(n: Node, p: Path) {
    p == [] || (p[0] < |Children(n)| && IsPlace(Children(n)[p[0]], p[1..]))
  }

  function At(n: Node, p: Path): Node
    requires IsPlace(n, p)
  {
    if p == [] then n else At(Children(n)[p[0]], p[1..])
  }

  // ------------------------------------------------------------- running it

  type Oracle = seq<nat>

  /** How a node ends: normally, with a value where it has one, by leaving its
      function or loop, or not at all within the oracle. */
  datatype Outcome = Normal(value: bool) | Returned | Jumped | Halted

  datatype Run = Run(out: Outcome, seen: set<Path>, rest: Oracle)

  function Below(i: nat, seen: set<Path>): set<Path> {
    set p | p in seen :: [i] + p
  }

  /** Goes on with what comes next if r ended normally. */
  function Then(r: Run, i: nat, next: Run): Run {
    Run(next.out, Below(i, r.seen) + next.seen, next.rest)
  }

  function Stopped(r: Run, i: nat): Run {
    Run(r.out, Below(i, r.seen), r.rest)
  }

  /** One run of a node, the places it evaluates among what is seen. */
  function Exec(n: Node, isNil: bool, o: Oracle): (r: Run)
    ensures |r.rest| <= |o|
    decreases n, 2
  {
    var r := ExecInner(n, isNil, o);
    Run(r.out, {[]} + r.seen, r.rest)
  }

  function ExecInner(n: Node, isNil: bool, o: Oracle): (r: Run)
    ensures |r.rest| <= |o|
    decreases n, 1
  {
    match n
    case NilTest(equal) => Run(Normal(equal == isNil), {}, o)
    case Paren(x) => Stopped(Exec(x, isNil, o), 0)
    case And(x, y) =>
      var r := Exec(x, isNil, o);
      if r.out == Normal(true) then Then(r, 0, Stopped(Exec(y, isNil, r.rest), 1)) else Stopped(r, 0)
    case Or(x, y) =>
      var r := Exec(x, isNil, o);
      if r.out == Normal(false) then Then(r, 0, Stopped(Exec(y, isNil, r.rest), 1)) else Stopped(r, 0)
    case Absent => Run(Normal(false), {}, o)
    case If(init, cond, body, els) =>
      var ri := Exec(init, isNil, o);
      if !ri.out.Normal? then Stopped(ri, 0) else
        var rc := Exec(cond, isNil, ri.rest);
        if !rc.out.Normal? then Then(ri, 0, Stopped(rc, 1))
        else if rc.out.value then Then(ri, 0, Then(rc, 1, Stopped(Exec(body, isNil, rc.rest), 2)))
        else Then(ri, 0, Then(rc, 1, Stopped(Exec(els, isNil, rc.rest), 3)))
    case Block(list) => ExecList(list, 0, isNil, o)
    case Return(results) =>
      var r := ExecList(results, 0, isNil, o);
      if r.out.Normal? then r.(out := Returned) else r
    case Jump => Run(Jumped, {}, o)
    case Any(parts, literal) => ExecAny(parts, literal, isNil, o)
  }

  /** One after the other, from the i-th on. */
  function ExecList(list: seq<Node>, i: nat, isNil: bool, o: Oracle): (r: Run)
    requires i <= |list|
    ensures |r.rest| <= |o|
    decreases list, 0, |list| - i
  {
    if i == |list| then Run(Normal(false), {}, o) else
      var r := Exec(list[i], isNil, o);
      if r.out.Normal? then Then(r, i, ExecList(list, i + 1, isNil, r.rest)) else Stopped(r, i)
  }

  /** Parts as the oracle picks them, until it picks none. A jump out of a part may
      end here or go on outwards; a return ends here in a function literal. */
  function ExecAny(parts: seq<Node>, literal: bool, isNil: bool, o: Oracle): (r: Run)
    ensures |r.rest| <= |o|
    decreases parts, 0, |o|
  {
    if o == [] then Run(Halted, {}, o)
    else if o[0] >= |parts| then Run(Normal(o[0] % 2 == 0), {}, o[1..])
    else
      var r := Exec(parts[o[0]], isNil, o[1..]);
      match r.out
      case Normal(_) => Then(r, o[0], ExecAny(parts, literal, isNil, r.rest))
      case Returned => if literal then Then(r, o[0], ExecAny(parts, literal, isNil, r.rest)) else Stopped(r, o[0])
      case Jumped =>
        if r.rest != [] && r.rest[0] == 0 then Then(r, o[0], ExecAny(parts, literal, isNil, r.rest[1..]))
        else Stopped(r, o[0])
      case Halted => Stopped(r, o[0])
  }

  // ----------------------------------------------------------- the analysis

  function Unparen(n: Node): (u: Node)
    ensures !u.Paren? && (u == n || u < n)
  {
    if n.Paren? then Unparen(n.x) else n
  }

  /** cond being true proves the subject non-nil. */
  predicate NonNilIf(cond: Node) {
    var c := Unparen(cond);
    if c.And? then NonNilIf(c.x) || NonNilIf(c.y) else c == NilTest(false)
  }

  /** cond being false proves the subject non-nil. */
  predicate NonNilUnless(cond: Node) {
    var c := Unparen(cond);
    if c.Or? then NonNilUnless(c.x) || NonNilUnless(c.y) else c == NilTest(true)
  }

  predicate EndsInReturn(b: Node) {
    b.Block? && b.list != [] && b.list[|b.list| - 1].Return?
  }

  /** if subject == nil { ...; return }. */
  predicate IsGuard(n: Node) {
    n.If? && n.els == Absent && NonNilUnless(n.cond) && EndsInReturn(n.body)
  }

  /** The i-th child of the node is reached only with the subject non-nil. */
  predicate Proven(n: Node, i: nat) {
    match n
    case If(_, cond, _, _) => (i == 2 && NonNilIf(cond)) || (i == 3 && NonNilUnless(cond))
    case And(x, _) => i == 1 && NonNilIf(x)
    case Or(x, _) => i == 1 && NonNilUnless(x)
    case Block(list) => exists j :: 0 <= j < i && j < |list| && IsGuard(list[j])
    case _ => false
  }

  /** Some step down to the place is proven. */
  predicate ProvenOnTheWay(n: Node, p: Path)
    requires IsPlace(n, p)
  {
    p != [] && (Proven(n, p[0]) || ProvenOnTheWay(Children(n)[p[0]], p[1..]))
  }

  // -------------------------------------------------- what is accepted, outright

  /** A subject comparison in the condition under parentheses and && only, or for a
      comparison with == under parentheses and || only. */
  ghost predicate Compares(cond: Node, equal: bool, q: Path) {
    && IsPlace(cond, q) && At(cond, q) == NilTest(equal)
    && forall j :: 0 <= j < |q| ==> IsPlace(cond, q[..j]) && Joins(At(cond, q[..j]), equal)
  }

  predicate Joins(n: Node, equal: bool) {
    n.Paren? || (if equal then n.Or? else n.And?)
  }

  ghost predicate Tests(cond: Node, equal: bool) {
    exists q :: Compares(cond, equal, q)
  }

  /** A comparison in the condition is the condition itself or one in an operand. */
  lemma TestsIff(cond: Node, equal: bool)
    ensures Tests(cond, equal) <==>
      cond == NilTest(equal) || (Joins(cond, equal) && exists c <- Children(cond) :: Tests(c, equal))
  {
    if q :| Compares(cond, equal, q) && q != [] {
      ComparesBelow(cond, equal, q);
      assert Children(cond)[q[0]] in Children(cond) && Tests(Children(cond)[q[0]], equal);
    }
    if cond == NilTest(equal) {
      assert Compares(cond, equal, []);
    }
    if Joins(cond, equal) {
      forall c | c in Children(cond) && Tests(c, equal) ensures Tests(cond, equal) {
        var i :| 0 <= i < |Children(cond)| && Children(cond)[i] == c;
        var q :| Compares(c, equal, q);
        ComparesAbove(cond, equal, i, q);
      }
    }
  }

  lemma ComparesBelow(cond: Node, equal: bool, q: Path)
    requires q != [] && Compares(cond, equal, q)
    ensures Joins(cond, equal) && q[0] < |Children(cond)| && Compares(Children(cond)[q[0]], equal, q[1..])
  {
    assert q[..0] == [];
    forall j | 0 <= j < |q| - 1
      ensures IsPlace(Children(cond)[q[0]], q[1..][..j]) && Joins(At(Children(cond)[q[0]], q[1..][..j]), equal)
    {
      assert q[..j + 1][1..] == q[1..][..j] && q[..j + 1][0] == q[0];
    }
  }

  lemma ComparesAbove(cond: Node, equal: bool, i: nat, q: Path)
    requires Joins(cond, equal) && i < |Children(cond)| && Compares(Children(cond)[i], equal, q)
    ensures Compares(cond, equal, [i] + q)
  {
    var p := [i] + q;
    assert p[1..] == q;
    forall j | 0 <= j < |p| ensures IsPlace(cond, p[..j]) && Joins(At(cond, p[..j]), equal) {
      if j > 0 {
        assert p[..j][1..] == q[..j - 1] && p[..j][0] == i;
      }
    }
  }

  /** nonNilIf accepts exactly the conditions with such a comparison with !=, and
      nonNilUnless those with one with ==. */
  lemma {:induction false} NonNilIffTests(cond: Node)
    ensures NonNilIf(cond) <==> Tests(cond, false)
    ensures NonNilUnless(cond) <==> Tests(cond, true)
    decreases cond
  {
    TestsIff(cond, false);
    TestsIff(cond, true);
    hide Tests;
    forall c | c in Children(cond) && (cond.Paren? || cond.And? || cond.Or?)
      ensures (NonNilIf(c) <==> Tests(c, false)) && (NonNilUnless(c) <==> Tests(c, true))
    {
      NonNilIffTests(c);
    }
    if cond.Paren? {
      assert cond.x in Children(cond);
    } else if cond.And? || cond.Or? {
      assert cond.x in Children(cond) && cond.y in Children(cond);
    }
  }

  /** An if without else whose condition compares the subject with nil and whose body ends
      in a return. */
  ghost predicate ReturnsOnNil(n: Node) {
    && n.If? && n.els == Absent && Tests(n.cond, true)
    && n.body.Block? && n.body.list != [] && n.body.list[|n.body.list| - 1].Return?
  }

  /** The child is the body of an if that tests the subject or the else of one, the right
      operand of such a && or ||, or a later statement than an early return. */
  ghost predicate Guarded(n: Node, child: nat) {
    || (n.If? && child == 2 && Tests(n.cond, false))
    || (n.If? && child == 3 && Tests(n.cond, true))
    || (n.And? && child == 1 && Tests(n.x, false))
    || (n.Or? && child == 1 && Tests(n.x, true))
    || (n.Block? && exists j :: 0 <= j < child && j < |n.list| && ReturnsOnNil(n.list[j]))
  }

  lemma ProvenIff(n: Node, i: nat)
    ensures Proven(n, i) <==> Guarded(n, i)
  {
    hide NonNilIf, NonNilUnless, Tests;
    match n
    case If(_, cond, _, _) => NonNilIffTests(cond);
    case And(x, _) => NonNilIffTests(x);
    case Or(x, _) => NonNilIffTests(x);
    case Block(list) =>
      forall j | 0 <= j < |list| ensures IsGuard(list[j]) <==> ReturnsOnNil(list[j]) {
        if list[j].If? {
          NonNilIffTests(list[j].cond);
        }
      }
    case _ =>
  }

  ghost predicate GuardedAt(root: Node, place: Path, k: nat) {
    k < |place| && IsPlace(root, place[..k]) && Guarded(At(root, place[..k]), place[k])
  }

  ghost predicate GuardedOnTheWay(root: Node, place: Path) {
    exists k :: GuardedAt(root, place, k)
  }

  /** What the analysis accepts: the places some step down to which is guarded. */
  lemma {:induction false} AcceptedIff(root: Node, place: Path)
    requires IsPlace(root, place)
    ensures ProvenOnTheWay(root, place) <==> GuardedOnTheWay(root, place)
    decreases |place|
  {
    hide Guarded, GuardedOnTheWay, Proven, IsPlace, At;
    if place != [] {
      var n := |place| - 1;
      LastStep(root, place);
      AcceptedIff(root, place[..n]);
      ProvenIff(At(root, place[..n]), place[n]);
      GuardedSplit(root, place);
    } else {
      NothingGuarded(root);
    }
  }

  lemma NothingGuarded(root: Node)
    ensures !ProvenOnTheWay(root, []) && !GuardedOnTheWay(root, [])
  {
  }

  lemma GuardedSplit(root: Node, place: Path)
    requires place != [] && IsPlace(root, place[..|place| - 1])
    ensures var n := |place| - 1;
      GuardedOnTheWay(root, place) <==>
      GuardedOnTheWay(root, place[..n]) || Guarded(At(root, place[..n]), place[n])
  {
    hide Guarded, GuardedAt, IsPlace, At;
    var n := |place| - 1;
    LastGuard(root, place);
    forall k: nat ensures k < n ==> GuardedAt(root, place[..n], k) == GuardedAt(root, place, k)
                  ensures GuardedAt(root, place[..n], k) ==> k < n
                  ensures GuardedAt(root, place, k) ==> k <= n
    {
      SameGuard(root, place, n, k);
    }
  }

  lemma SameGuard(root: Node, place: Path, n: nat, k: nat)
    requires n <= |place|
    ensures k < n ==> GuardedAt(root, place[..n], k) == GuardedAt(root, place, k)
    ensures GuardedAt(root, place[..n], k) ==> k < n
    ensures GuardedAt(root, place, k) ==> k < |place|
  {
    hide Guarded, IsPlace, At;
    assert k < n ==> place[..n][..k] == place[..k];
  }

  lemma LastGuard(root: Node, place: Path)
    requires place != [] && IsPlace(root, place[..|place| - 1])
    ensures var n := |place| - 1; GuardedAt(root, place, n) == Guarded(At(root, place[..n]), place[n])
  {
    hide Guarded, IsPlace, At;
  }

  /** checked: walks from the place to the root, looking at each parent. */
  method Checked(root: Node, place: Path) returns (checked: bool)
    requires IsPlace(root, place)
    ensures checked == ProvenOnTheWay(root, place)
    ensures checked <==> GuardedOnTheWay(root, place)
  {
    hide IsPlace, GuardedOnTheWay, NonNilIf, NonNilUnless, EndsInReturn, IsGuard;
    AcceptedIff(root, place);
    var k := |place|;
    assert place[..k] == place;
    while k > 0
      invariant k <= |place| && IsPlace(root, place[..k])
      invariant ProvenOnTheWay(root, place) == ProvenOnTheWay(root, place[..k])
    {
      k := k - 1;
      LastStep(root, place[..k + 1]);
      assert place[..k + 1][..k] == place[..k];
      var p, child := At(root, place[..k]), place[k];
      match p
      case If(_, cond, _, _) =>
        if (child == 2 && NonNilIf(cond)) || (child == 3 && NonNilUnless(cond)) {
          return true;
        }
      case And(x, _) =>
        if child == 1 && NonNilIf(x) {
          return true;
        }
      case Or(x, _) =>
        if child == 1 && NonNilUnless(x) {
          return true;
        }
      case Block(list) =>
        var guarded := GuardBefore(list, child);
        if guarded {
          return true;
        }
      case _ =>
    }
    return false;
  }

  /** An early return among the statements before one. */
  method GuardBefore(list: seq<Node>, child: nat) returns (guarded: bool)
    requires child <= |list|
    ensures guarded <==> exists j :: 0 <= j < child && IsGuard(list[j])
  {
    hide NonNilUnless, EndsInReturn;
    for j := 0 to child
      invariant forall i :: 0 <= i < j ==> !IsGuard(list[i])
    {
      if list[j].If? && list[j].els == Absent && NonNilUnless(list[j].cond) && EndsInReturn(list[j].body) {
        assert IsGuard(list[j]);
        return true;
      }
    }
    return false;
  }

  lemma {:induction false} LastStep(n: Node, p: Path)
    requires IsPlace(n, p) && p != []
    ensures var q := p[..|p| - 1];
      && IsPlace(n, q) && p[|p| - 1] < |Children(At(n, q))|
      && (ProvenOnTheWay(n, p) <==> ProvenOnTheWay(n, q) || Proven(At(n, q), p[|p| - 1]))
    decreases |p|
  {
    if |p| > 1 {
      LastStep(Children(n)[p[0]], p[1..]);
      assert p[1..][..|p| - 2] == p[..|p| - 1][1..];
      assert p[..|p| - 1][0] == p[0];
    }
  }

  // -------------------------------------------------------------- soundness

  lemma {:induction false} ParensKeepValue(n: Node, isNil: bool, o: Oracle)
    ensures Exec(n, isNil, o).out == Exec(Unparen(n), isNil, o).out
  {
    if n.Paren? {
      ParensKeepValue(n.x, isNil, o);
    }
  }

  lemma {:induction false} NonNilIfIsSound(cond: Node, o: Oracle)
    requires NonNilIf(cond)
    ensures Exec(cond, true, o).out != Normal(true)
    decreases cond
  {
    ParensKeepValue(cond, true, o);
    var c := Unparen(cond);
    if c.And? {
      if NonNilIf(c.x) {
        NonNilIfIsSound(c.x, o);
      } else {
        NonNilIfIsSound(c.y, Exec(c.x, true, o).rest);
      }
    }
  }

  lemma {:induction false} NonNilUnlessIsSound(cond: Node, o: Oracle)
    requires NonNilUnless(cond)
    ensures Exec(cond, true, o).out != Normal(false)
    decreases cond
  {
    ParensKeepValue(cond, true, o);
    var c := Unparen(cond);
    if c.Or? {
      if NonNilUnless(c.x) {
        NonNilUnlessIsSound(c.x, o);
      } else {
        NonNilUnlessIsSound(c.y, Exec(c.x, true, o).rest);
      }
    }
  }

  /** A list that ends in a return does not end normally. */
  lemma {:induction false} ReturnLeaves(list: seq<Node>, i: nat, o: Oracle)
    requires i < |list| && list[|list| - 1].Return?
    ensures !ExecList(list, i, true, o).out.Normal?
    decreases |list| - i
  {
    var r := Exec(list[i], true, o);
    if i + 1 < |list| {
      ReturnLeaves(list, i + 1, r.rest);
    } else {
      assert !ExecInner(list[i], true, o).out.Normal?;
    }
  }

  /** With the subject nil a guard is not passed. */
  lemma GuardLeaves(n: Node, o: Oracle)
    requires IsGuard(n)
    ensures !Exec(n, true, o).out.Normal?
  {
    var ri := Exec(n.init, true, o);
    var rc := Exec(n.cond, true, ri.rest);
    NonNilUnlessIsSound(n.cond, ri.rest);
    ReturnLeaves(n.body.list, 0, rc.rest);
    assert Exec(n.body, true, rc.rest).out == ExecInner(n.body, true, rc.rest).out
      == ExecList(n.body.list, 0, true, rc.rest).out;
    assert !ExecInner(n, true, o).out.Normal?;
  }

  /** A place below the i-th child is seen only by a run of that child. */
  ghost predicate SeenBy(n: Node, p: Path) {
    && p != [] && p[0] < |Children(n)| && !Proven(n, p[0])
    && exists o: Oracle :: p[1..] in Exec(Children(n)[p[0]], true, o).seen
  }

  lemma BelowIs(i: nat, seen: set<Path>, p: Path)
    ensures p in Below(i, seen) <==> p != [] && p[0] == i && p[1..] in seen
  {
    if p != [] && p[0] == i && p[1..] in seen {
      assert p == [i] + p[1..];
    }
  }

  lemma SeenInChild(n: Node, i: nat, o: Oracle, p: Path)
    requires i < |Children(n)| && !Proven(n, i) && p in Below(i, Exec(Children(n)[i], true, o).seen)
    ensures SeenBy(n, p)
  {
    BelowIs(i, Exec(Children(n)[i], true, o).seen, p);
  }

  /** Every place a run of the list sees is below an item no guard stands before. */
  lemma {:induction false} ListSees(n: Node, list: seq<Node>, i: nat, o: Oracle, p: Path)
    requires Children(n) == list && i <= |list| && (n.Block? || n.Return?)
    requires n.Block? ==> forall j :: 0 <= j < i ==> !IsGuard(list[j])
    requires p in ExecList(list, i, true, o).seen
    ensures SeenBy(n, p)
    decreases |list| - i
  {
    var r := Exec(list[i], true, o);
    if p in Below(i, r.seen) {
      SeenInChild(n, i, o, p);
    } else {
      if IsGuard(list[i]) {
        GuardLeaves(list[i], o);
      }
      ListSees(n, list, i + 1, r.rest, p);
    }
  }

  lemma {:induction false} AnySees(n: Node, o: Oracle, p: Path)
    requires n.Any? && p in ExecAny(n.parts, n.literal, true, o).seen
    ensures SeenBy(n, p)
    decreases |o|
  {
    var r := Exec(n.parts[o[0]], true, o[1..]);
    if p in Below(o[0], r.seen) {
      SeenInChild(n, o[0], o[1..], p);
    } else if r.out.Jumped? {
      AnySees(n, r.rest[1..], p);
    } else {
      AnySees(n, r.rest, p);
    }
  }

  lemma IfSees(n: Node, o: Oracle, p: Path)
    requires n.If? && p in ExecInner(n, true, o).seen
    ensures SeenBy(n, p)
  {
    var ri := Exec(n.init, true, o);
    var rc := Exec(n.cond, true, ri.rest);
    if p in Below(0, ri.seen) {
      SeenInChild(n, 0, o, p);
    } else if p in Below(1, rc.seen) {
      SeenInChild(n, 1, ri.rest, p);
    } else if rc.out.value {
      if NonNilIf(n.cond) {
        NonNilIfIsSound(n.cond, ri.rest);
      }
      SeenInChild(n, 2, rc.rest, p);
    } else {
      if NonNilUnless(n.cond) {
        NonNilUnlessIsSound(n.cond, ri.rest);
      }
      SeenInChild(n, 3, rc.rest, p);
    }
  }

  lemma TestSees(n: Node, o: Oracle, p: Path)
    requires (n.And? || n.Or?) && p in ExecInner(n, true, o).seen
    ensures SeenBy(n, p)
  {
    var r := Exec(n.x, true, o);
    if p in Below(0, r.seen) {
      SeenInChild(n, 0, o, p);
    } else {
      if n.And? && NonNilIf(n.x) {
        NonNilIfIsSound(n.x, o);
      }
      if n.Or? && NonNilUnless(n.x) {
        NonNilUnlessIsSound(n.x, o);
      }
      SeenInChild(n, 1, r.rest, p);
    }
  }

  lemma OneSees(n: Node, o: Oracle, p: Path)
    requires p in ExecInner(n, true, o).seen
    ensures SeenBy(n, p)
  {
    match n
    case If(_, _, _, _) => IfSees(n, o, p);
    case And(_, _) => TestSees(n, o, p);
    case Or(_, _) => TestSees(n, o, p);
    case Block(list) => ListSees(n, list, 0, o, p);
    case Return(results) => ListSees(n, results, 0, o, p);
    case Any(_, _) => AnySees(n, o, p);
    case Paren(_) => SeenInChild(n, 0, o, p);
    case _ =>
  }

  /** With the subject nil, no run evaluates a place the analysis calls checked. */
  lemma {:induction false} CheckedIsSafe(root: Node, place: Path, o: Oracle)
    requires IsPlace(root, place) && ProvenOnTheWay(root, place)
    ensures place !in Exec(root, true, o).seen
    decreases |place|
  {
    if place in Exec(root, true, o).seen {
      OneSees(root, o, place);
      var o' :| place[1..] in Exec(Children(root)[place[0]], true, o').seen;
      CheckedIsSafe(Children(root)[place[0]], place[1..], o');
    }
  }

  /** Whatever a run evaluates is a place of the body. */
  lemma {:induction false} SeenIsPlace(root: Node, place: Path, o: Oracle)
    requires place in Exec(root, true, o).seen
    ensures IsPlace(root, place)
    decreases |place|
  {
    if place != [] {
      OneSees(root, o, place);
      var o' :| place[1..] in Exec(Children(root)[place[0]], true, o').seen;
      SeenIsPlace(Children(root)[place[0]], place[1..], o');
    }
  }

  // ---------------------------------------------------------------- aliases

  /** An assignment of one variable to another. */
  datatype Assign = Assign(to: string, from: string)

  /** Assigned from a self variable, over any number of assignments. */
  ghost predicate IsAlias(body: seq<Assign>, self: set<string>, v: string) {
    exists chain: seq<string> ::
      chain != [] && chain[0] in self && chain[|chain| - 1] == v
      && forall i :: 0 < i < |chain| ==> Assign(chain[i], chain[i - 1]) in body
  }

  ghost predicate AllAliases(body: seq<Assign>, self: set<string>, vars: set<string>) {
    forall v <- vars :: IsAlias(body, self, v)
  }

  lemma AliasOn(body: seq<Assign>, self: set<string>, a: Assign)
    requires a in body && IsAlias(body, self, a.from)
    ensures IsAlias(body, self, a.to)
  {
    var chain :| chain != [] && chain[0] in self && chain[|chain| - 1] == a.from
      && forall i :: 0 < i < |chain| ==> Assign(chain[i], chain[i - 1]) in body;
    var more := chain + [a.to];
    assert more[0] == chain[0] && more[|chain| - 1] == a.from;
    assert forall i :: 0 < i < |more| ==> Assign(more[i], more[i - 1]) in body;
  }

  lemma {:induction false} ClosedHoldsChain(body: seq<Assign>, vars: set<string>, chain: seq<string>)
    requires chain != [] && chain[0] in vars && forall a <- body :: a.from in vars ==> a.to in vars
    requires forall i :: 0 < i < |chain| ==> Assign(chain[i], chain[i - 1]) in body
    ensures chain[|chain| - 1] in vars
  {
    if |chain| > 1 {
      ClosedHoldsChain(body, vars, chain[..|chain| - 1]);
      assert Assign(chain[|chain| - 1], chain[|chain| - 2]) in body;
    }
  }

  /** followAliases: walks the body again as long as a walk adds a variable. */
  method FollowAliases(body: seq<Assign>, self0: set<string>) returns (self: set<string>)
    ensures forall v :: v in self <==> IsAlias(body, self0, v)
  {
    self := self0;
    ghost var targets := set a | a in body :: a.to;
    forall v | v in self0 ensures IsAlias(body, self0, v) {
      assert [v][0] in self0;
    }
    hide IsAlias;
    var grown := true;
    while grown
      invariant self0 <= self <= self0 + targets && AllAliases(body, self0, self)
      invariant !grown ==> forall a <- body :: a.from in self ==> a.to in self
      decreases (self0 + targets) - self, grown
    {
      ghost var before := self;
      grown, self := Walk(body, self0, self);
    }
    forall v | IsAlias(body, self0, v) ensures v in self {
      AliasIsHeld(body, self0, self, v);
    }
  }

  lemma AliasIsHeld(body: seq<Assign>, self0: set<string>, self: set<string>, v: string)
    requires IsAlias(body, self0, v) && self0 <= self && forall a <- body :: a.from in self ==> a.to in self
    ensures v in self
  {
    var chain :| chain != [] && chain[0] in self0 && chain[|chain| - 1] == v
      && forall i :: 0 < i < |chain| ==> Assign(chain[i], chain[i - 1]) in body;
    ClosedHoldsChain(body, self, chain);
  }

  /** One walk over the body. */
  method Walk(body: seq<Assign>, ghost self0: set<string>, before: set<string>) returns (grown: bool, self: set<string>)
    requires AllAliases(body, self0, before)
    ensures before <= self <= before + (set a | a in body :: a.to) && AllAliases(body, self0, self)
    ensures grown <==> self != before
    ensures !grown ==> forall a <- body :: a.from in self ==> a.to in self
  {
    grown, self := false, before;
    hide IsAlias;
    for i := 0 to |body|
      invariant before <= self <= before + (set a | a in body :: a.to) && AllAliases(body, self0, self)
      invariant grown <==> self != before
      invariant !grown ==> forall j :: 0 <= j < i && body[j].from in self ==> body[j].to in self
    {
      var a := body[i];
      if a.from in self && a.to !in self {
        AliasOn(body, self0, a);
        assert a.to !in before;
        self, grown := self + {a.to}, true;
      }
    }
  }
}
