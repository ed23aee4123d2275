/** One fuzz target: the tuple of a callback's argument types. Its explode function
    turns a seed into the leaves of all positions, its register function fans the
    leaves back and calls the callback. */
module FuzzTarget {
  import opened Options
  import opened GoTypes
  import opened FuzzCodec
  import opened TypeNames
  import opened FuzzProgram
  import opened FuzzWalk
  import opened FuzzEmitter

  datatype Target = Target(params: seq<LeafKind>, ins: seq<InExpr>, outs: seq<OutExpr>, literal: bool)

  /** The positions of a tuple, as fields. */
  function Positions(ts: seq<Type>): (fs: seq<Field>)
    ensures |fs| == |ts|
  {
    seq(|ts|, i requires 0 <= i < |ts| => Field("", true, ts[i]))
  }

  /** A passed-through position is handed over as the engine gives it, empty blobs
      included. */
  function TopSlot(defs: Defs, t: Type, at: nat, n: nat): InExpr {
    if Passthrough(t) then Arg(at) else CallIn(Shown(defs, t), at, n)
  }

  ghost function TopSlots(defs: Defs, fs: seq<Field>): (r: seq<InExpr>)
    requires AllAccepted(defs, fs)
    ensures |r| == |fs|
  {
    if fs == [] then [] else
      var before, f := fs[..|fs| - 1], fs[|fs| - 1];
      TopSlots(defs, before) + [TopSlot(defs, f.ty, |LeavesOfAll(defs, before)|, |LeavesOf(defs, f.ty)|)]
  }

  ghost predicate AllFanned(defs: Defs, p: Program, fs: seq<Field>) {
    forall f <- fs :: HasFan(defs, p, f.ty)
  }

  // ------------------------------------------------- the target as a function

  /** The leaves of each position, emitting their fans. */
  function FanEach(defs: Defs, p: Program, ts: seq<Type>): (r: (Option<seq<seq<LeafKind>>>, Program))
    ensures r.0.Some? ==> |r.0.value| == |ts|
  {
    if ts == [] then (Some([]), p) else
      var (infos, q) := FanEach(defs, p, ts[..|ts| - 1]);
      if infos.None? then (None, q) else
        var (leaves, r) := FanWalk(defs, q, [], ts[|ts| - 1]);
        (if leaves.None? then None else Some(infos.value + [leaves.value]), r)
  }

  /** Each position takes the next leaves. */
  function Laid(defs: Defs, ts: seq<Type>, infos: seq<seq<LeafKind>>): Slots
    requires |infos| == |ts|
  {
    if ts == [] then NO_SLOTS else
      var n := |ts| - 1;
      Lay(defs, Laid(defs, ts[..n], infos[..n]), ts[n], infos[n])
  }

  function Lay(defs: Defs, s: Slots, t: Type, leaves: seq<LeafKind>): Slots {
    Slots(s.params + leaves, s.ins + [TopSlot(defs, t, |s.params|, |leaves|)], s.outs + [OutSlot(defs, t)])
  }

  predicate GetsLiteral(defs: Defs, ts: seq<Type>) {
    (exists t <- ts :: !Passthrough(t)) && forall t <- ts :: LiteralForm(defs, [], t)
  }

  function TargetWalk(defs: Defs, p: Program, ts: seq<Type>): (Option<Target>, Program) {
    var (infos, q) := FanEach(defs, p, ts);
    if infos.None? then (None, q) else
      var s := Laid(defs, ts, infos.value);
      (if s.params == [] then None else Some(Target(s.params, s.ins, s.outs, GetsLiteral(defs, ts))), q)
  }

  // -------------------------------------------------------------- emitting it

  /** emitTarget: none when a position is refused or the tuple has no leaf at all. */
  method EmitTarget(e: Emitter, ts: seq<Type>) returns (target: Option<Target>)
    requires e.Valid() && e.stack == e.fanStack == e.litStack == []
    modifies e`fans, e`fanInfos, e`hybrids, e`helpers, e`fanStack, e`stack, e`litStack, e`idents, e`taken
    ensures e.Valid() && e.stack == e.fanStack == e.litStack == []
    ensures (target, e.Emitted()) == TargetWalk(e.defs, old(e.Emitted()), ts)
  {
    hide Emitter.Valid, Emitter.Emitted, FanEach, Laid, GetsLiteral;
    var infos := FanAll(e, ts);
    if infos.None? {
      return None;
    }
    var s := LayAll(e.defs, ts, infos.value);
    if |s.params| == 0 {
      return None;
    }
    var literal := LiteralOf(e, ts);
    return Some(Target(s.params, s.ins, s.outs, literal));
  }

  method FanAll(e: Emitter, ts: seq<Type>) returns (r: Option<seq<seq<LeafKind>>>)
    requires e.Valid() && e.stack == e.fanStack == []
    modifies e`fans, e`fanInfos, e`hybrids, e`helpers, e`fanStack, e`stack, e`idents, e`taken
    ensures e.Valid() && e.stack == e.fanStack == []
    ensures (r, e.Emitted()) == FanEach(e.defs, old(e.Emitted()), ts)
  {
    var infos: seq<seq<LeafKind>> := [];
    ghost var p := e.Emitted();
    assert Stack(e.defs, []) == [];
    UpToNone(e.defs, p, ts);
    hide Emitter.Valid, Emitter.Emitted, FanEach, FanWalk;
    for i := 0 to |ts|
      invariant e.Valid() && e.stack == e.fanStack == []
      invariant (Some(infos), e.Emitted()) == FanEach(e.defs, p, ts[..i])
    {
      OnePosition(e.defs, p, ts, i);
      var leaves := e.Fan(ts[i], []);
      if leaves.None? {
        EachStops(e.defs, p, ts, i + 1);
        return None;
      }
      infos := infos + [leaves.value];
    }
    return Some(infos);
  }

  lemma UpToNone(defs: Defs, p: Program, ts: seq<Type>)
    ensures ts[..0] == [] && FanEach(defs, p, []) == (Some([]), p) && ts[..|ts|] == ts
  {
  }

  lemma OnePosition(defs: Defs, p: Program, ts: seq<Type>, i: nat)
    requires i < |ts| && FanEach(defs, p, ts[..i]).0.Some?
    ensures var w := FanEach(defs, p, ts[..i]);
      var r := FanWalk(defs, w.1, [], ts[i]);
      FanEach(defs, p, ts[..i + 1]) == (if r.0.None? then None else Some(w.0.value + [r.0.value]), r.1)
  {
    hide FanWalk;
    assert ts[..i + 1][..i] == ts[..i];
  }

  lemma {:induction false} EachStops(defs: Defs, p: Program, ts: seq<Type>, k: nat)
    requires k <= |ts| && FanEach(defs, p, ts[..k]).0.None?
    ensures FanEach(defs, p, ts) == FanEach(defs, p, ts[..k])
    decreases |ts|
  {
    hide FanWalk;
    if k == |ts| {
      assert ts[..k] == ts;
    } else {
      var n := |ts| - 1;
      assert ts[..n][..k] == ts[..k];
      EachStops(defs, p, ts[..n], k);
    }
  }

  method LayAll(defs: Defs, ts: seq<Type>, infos: seq<seq<LeafKind>>) returns (s: Slots)
    requires |infos| == |ts|
    ensures s == Laid(defs, ts, infos)
  {
    s := NO_SLOTS;
    hide TopSlot, OutSlot;
    for i := 0 to |ts|
      invariant s == Laid(defs, ts[..i], infos[..i])
    {
      assert ts[..i + 1][..i] == ts[..i] && infos[..i + 1][..i] == infos[..i];
      s := Slots(
        s.params + infos[i], s.ins + [TopSlot(defs, ts[i], |s.params|, |infos[i]|)], s.outs + [OutSlot(defs, ts[i])]);
    }
    assert ts[..|ts|] == ts && infos[..|ts|] == infos;
  }

  /** A literal is built when some position is decoded and every one has a literal form. */
  method LiteralOf(e: Emitter, ts: seq<Type>) returns (literal: bool)
    requires e.litStack == []
    modifies e`litStack
    ensures e.litStack == [] && literal == GetsLiteral(e.defs, ts)
  {
    literal := false;
    hide Passthrough, LiteralForm;
    for i := 0 to |ts|
      invariant literal == exists t <- ts[..i] :: !Passthrough(t)
    {
      assert ts[..i + 1] == ts[..i] + [ts[i]];
      if !Passthrough(ts[i]) {
        literal := true;
      }
    }
    assert ts[..|ts|] == ts;
    var decoded := literal;
    for i := 0 to |ts|
      invariant e.litStack == []
      invariant literal == (decoded && forall t <- ts[..i] :: LiteralForm(e.defs, [], t))
    {
      assert ts[..i + 1] == ts[..i] + [ts[i]] && Stack(e.defs, []) == [];
      var supported := e.LiteralSupported(ts[i], []);
      if !supported {
        literal := false;
      }
    }
  }

  // ----------------------------------------------- for types shown apart

  /** Accepted types shown apart have literal forms. */
  lemma ApartHasForm(defs: Defs, scope: iset<Type>, t: Type)
    requires ShownApart(defs, scope) && HoldsParts(defs, scope) && t in scope && Accepted(defs, t)
    ensures LiteralForm(defs, [], t)
  {
    hide Shown, LiteralForm, Accepted, Steps, ShownApart, ShowsTwice, Recurs;
    assert !ShowsTwice(defs, []) by {
      NothingRecurs();
      OnceIsShownOnce(defs, scope, []);
    }
    LiteralFormIff(defs, [], t);
    forall q | IsWalk(defs, q) && q[0] == t ensures !ShowsTwice(defs, [] + q) {
      assert [] + q == q;
      WalkIsPath(defs, scope, q);
      AcceptedPathsAreGood(defs, q);
      OnceIsShownOnce(defs, scope, q);
    }
  }

  lemma NothingRecurs()
    ensures !Recurs([])
  {
  }

  lemma OnceIsShownOnce(defs: Defs, scope: iset<Type>, q: seq<Type>)
    requires ShownApart(defs, scope) && (forall t <- q :: t in scope) && !Recurs(q)
    ensures !ShowsTwice(defs, q)
  {
    hide Shown;
    forall i, j | 0 <= i < j < |q| ensures Shown(defs, q[i]) != Shown(defs, q[j]) {
      assert q[i] in scope && q[j] in scope && q[i] != q[j];
    }
  }

  lemma {:induction false} WalkIsPath(defs: Defs, scope: iset<Type>, q: seq<Type>)
    requires HoldsParts(defs, scope) && IsWalk(defs, q) && q[0] in scope
    ensures IsPath(defs, q) && forall t <- q :: t in scope
    decreases |q|
  {
    hide Steps, Parts;
    var n := |q| - 1;
    if n > 0 {
      WalkIsPath(defs, scope, q[..n]);
      StepIsPart(defs, q[n - 1], q[n]);
      assert q == q[..n] + [q[n]];
    }
  }

  ghost predicate IsInfos(defs: Defs, ts: seq<Type>, infos: seq<seq<LeafKind>>) {
    |infos| == |ts| && forall j :: 0 <= j < |ts| ==> Accepted(defs, ts[j]) && infos[j] == LeavesOf(defs, ts[j])
  }

  lemma {:induction false} EachIsRight(defs: Defs, scope: iset<Type>, p: Program, ts: seq<Type>)
    requires Scope(defs, scope, p) && forall t <- ts :: t in scope
    ensures var (infos, q) := FanEach(defs, p, ts);
      && Scope(defs, scope, q) && Extends(p, q)
      && (infos.Some? <==> forall t <- ts :: Accepted(defs, t))
      && (infos.Some? ==> IsInfos(defs, ts, infos.value) && forall t <- ts :: HasFan(defs, q, t))
    decreases |ts|
  {
    hide Scope, FanWalk, Accepted, LeavesOf, HasFan;
    if ts != [] {
      var n := |ts| - 1;
      EachIsRight(defs, scope, p, ts[..n]);
      var q := FanEach(defs, p, ts[..n]).1;
      TopIsBelow(defs, scope, ts[n]);
      FanIsRight(defs, scope, q, [], ts[n]);
      var r := FanWalk(defs, q, [], ts[n]).1;
      ExtendsOn(p, q, r);
      forall t | HasFan(defs, q, t) ensures HasFan(defs, r, t) {
        FanStays(defs, q, r, t);
      }
      assert ts == ts[..n] + [ts[n]];
    }
  }

  lemma TopIsBelow(defs: Defs, scope: iset<Type>, t: Type)
    requires t in scope
    ensures Below(defs, scope, [], t)
  {
  }

  lemma FanStays(defs: Defs, p: Program, q: Program, t: Type)
    requires HasFan(defs, p, t) && Extends(p, q)
    ensures HasFan(defs, q, t)
  {
    hide Shown, Passthrough;
  }

  lemma {:induction false} LaidIs(defs: Defs, ts: seq<Type>, infos: seq<seq<LeafKind>>)
    requires IsInfos(defs, ts, infos)
    ensures AllAccepted(defs, Positions(ts))
    ensures Laid(defs, ts, infos)
         == Slots(LeavesOfAll(defs, Positions(ts)), TopSlots(defs, Positions(ts)), OutSlots(defs, Positions(ts)))
    decreases |ts|
  {
    hide Accepted, LeavesOfAll, LeavesOf, OutSlots, TopSlot, OutSlot;
    NoPositions(defs);
    if ts == [] {
      assert Positions(ts) == [];
    } else {
      var n := |ts| - 1;
      LaidIs(defs, ts[..n], infos[..n]);
      assert Positions(ts) == Positions(ts[..n]) + [Field("", true, ts[n])];
      TopSlotsOfMore(defs, Positions(ts[..n]), Field("", true, ts[n]));
    }
  }

  lemma NoPositions(defs: Defs)
    ensures AllAccepted(defs, []) && LeavesOfAll(defs, []) == [] && TopSlots(defs, []) == [] && OutSlots(defs, []) == []
  {
  }

  lemma TopSlotsOfMore(defs: Defs, fs: seq<Field>, f: Field)
    requires AllAccepted(defs, fs) && Accepted(defs, f.ty)
    ensures AllAccepted(defs, fs + [f])
    ensures LeavesOfAll(defs, fs + [f]) == LeavesOfAll(defs, fs) + LeavesOf(defs, f.ty)
    ensures TopSlots(defs, fs + [f])
      == TopSlots(defs, fs) + [TopSlot(defs, f.ty, |LeavesOfAll(defs, fs)|, |LeavesOf(defs, f.ty)|)]
    ensures OutSlots(defs, fs + [f]) == OutSlots(defs, fs) + [OutSlot(defs, f.ty)]
  {
    LeavesGrow(defs, fs, f);
    assert OutSlots(defs, fs + [f]) == OutSlots(defs, fs) + [OutSlot(defs, f.ty)];
    hide Accepted, LeavesOfAll, LeavesOf, OutSlots, TopSlot, OutSlot;
    assert (fs + [f])[..|fs|] == fs;
  }

  /** For types shown apart a target is refused exactly when a position is not accepted
      or there is no leaf at all; its leaves, slots and fans are those of the positions,
      and it gets its literal when some position does not pass through. */
  lemma TargetIsRight(defs: Defs, scope: iset<Type>, p: Program, ts: seq<Type>)
    requires Scope(defs, scope, p) && forall t <- ts :: t in scope
    ensures var (target, q) := TargetWalk(defs, p, ts); var fs := Positions(ts);
      && Scope(defs, scope, q) && Extends(p, q)
      && (target.Some? <==> AllAccepted(defs, fs) && LeavesOfAll(defs, fs) != [])
      && (target.Some? ==>
          && target.value == Target(
               LeavesOfAll(defs, fs), TopSlots(defs, fs), OutSlots(defs, fs), exists t <- ts :: !Passthrough(t))
          && AllFanned(defs, q, fs))
  {
    hide FanEach, Accepted, LeavesOfAll, LeavesOf, TopSlots, OutSlots, HasFan, Passthrough, LiteralForm, Laid,
         IsInfos, Sound;
    EachIsRight(defs, scope, p, ts);
    PositionsAre(ts);
    var infos := FanEach(defs, p, ts).0;
    if infos.Some? {
      LaidIs(defs, ts, infos.value);
      forall t | t in ts ensures LiteralForm(defs, [], t) {
        ApartHasForm(defs, scope, t);
      }
    }
  }

  lemma PositionsAre(ts: seq<Type>)
    ensures forall f <- Positions(ts) :: f.ty in ts
    ensures forall t <- ts :: Field("", true, t) in Positions(ts)
  {
    forall t | t in ts ensures Field("", true, t) in Positions(ts) {
      var i :| 0 <= i < |ts| && ts[i] == t;
      assert Positions(ts)[i] == Field("", true, t);
    }
  }

  /** So does one target emitted alone, when the types it leads to are shown apart. */
  lemma FreshTargetIsRight(defs: Defs, ts: seq<Type>)
    requires WellFormed(defs) && ShownApart(defs, Reach(defs, ts))
    ensures var (target, q) := TargetWalk(defs, EMPTY, ts); var fs := Positions(ts);
      && ProgramOk(defs, q)
      && (target.Some? <==> AllAccepted(defs, fs) && LeavesOfAll(defs, fs) != [])
      && (target.Some? ==> AllFanned(defs, q, fs))
      && (target.Some? ==>
            target.value == Target(
              LeavesOfAll(defs, fs), TopSlots(defs, fs), OutSlots(defs, fs), exists t <- ts :: !Passthrough(t)))
  {
    hide TargetWalk, ShownApart, HoldsParts, ProgramOk, LeavesOfAll, TopSlots, OutSlots, AllFanned, Passthrough,
         Accepted;
    ReachIsScope(defs, ts);
    TargetIsRight(defs, Reach(defs, ts), EMPTY, ts);
  }

  // ----------------------------------------------------------- round trip

  ghost predicate Fits(defs: Defs, fs: seq<Field>, vs: seq<Value>) {
    AllAccepted(defs, fs) && |vs| == |fs| && forall i :: 0 <= i < |fs| ==> Has(ShapeOf(defs, fs[i].ty), vs[i])
  }

  /** What a seed becomes: a passed-through argument stays as it is. */
  ghost function SeedKept(defs: Defs, fs: seq<Field>, vs: seq<Value>): seq<Value>
    requires Fits(defs, fs, vs)
  {
    seq(|fs|, i requires 0 <= i < |fs| =>
      if Passthrough(fs[i].ty) then vs[i] else FanKept(ShapeOf(defs, fs[i].ty), vs[i]))
  }

  /** Exploding a seed gives leaves of the declared number and kinds, and registering
      them calls the callback with the seed, but for what the codec cuts. */
  lemma TargetFansBack(defs: Defs, p: Program, fs: seq<Field>, vs: seq<Value>, d: nat)
    requires ProgramOk(defs, p) && AllFanned(defs, p, fs) && Fits(defs, fs, vs)
    requires TallestOf(FieldShapes(defs, fs)) < d
    ensures var out := RunOuts(defs, p, OutSlots(defs, fs), vs, d);
      && out.Some? && Kinds(out.value) == LeavesOfAll(defs, fs)
      && RunIns(p, TopSlots(defs, fs), out.value, d) == Some(SeedKept(defs, fs, vs))
  {
    var ss := FieldShapes(defs, fs);
    EmittedFansOutAll(defs, p, fs, vs, d);
    OutFieldsHasLeaves(ss, vs);
    var ls := OutFields(ss, vs);
    assert ls[..|ls|] == ls;
    hide ProgramOk, HasFan, RunOut, RunIn, Out, Kinds, Height, Has, TopSlots, OutSlots;
    TopsFanBack(defs, p, fs, vs, ls, d);
  }

  lemma {:induction false} TopsFanBack(defs: Defs, p: Program, fs: seq<Field>, vs: seq<Value>, ls: seq<Leaf>, d: nat)
    requires ProgramOk(defs, p) && AllFanned(defs, p, fs) && Fits(defs, fs, vs)
    requires forall s <- FieldShapes(defs, fs) :: Height(s) < d
    requires OutFields(FieldShapes(defs, fs), vs) <= ls
    ensures RunIns(p, TopSlots(defs, fs), ls, d) == Some(SeedKept(defs, fs, vs))
    decreases |fs|
  {
    hide ProgramOk, HasFan, Kinds, Leaves, Out, OutFields, RunIn, Height, Has, FanKept, Accepted, TopSlot, Passthrough;
    if fs != [] {
      var before, f := fs[..|fs| - 1], fs[|fs| - 1];
      var ws, v := vs[..|fs| - 1], vs[|fs| - 1];
      LastSlot(defs, fs, vs, ls);
      TopsFanBack(defs, p, before, ws, ls, d);
      TopFansBack(defs, p, f.ty, v, ls, |LeavesOfAll(defs, before)|, d);
      assert SeedKept(defs, fs, vs) == SeedKept(defs, before, ws)
        + [if Passthrough(f.ty) then v else FanKept(ShapeOf(defs, f.ty), v)];
    }
  }

  /** The leaves of the last position come after those of the others. */
  lemma LastSlot(defs: Defs, fs: seq<Field>, vs: seq<Value>, ls: seq<Leaf>)
    requires Fits(defs, fs, vs) && fs != [] && OutFields(FieldShapes(defs, fs), vs) <= ls
    ensures var before, f, ws, v := fs[..|fs| - 1], fs[|fs| - 1], vs[..|fs| - 1], vs[|fs| - 1];
      var s := ShapeOf(defs, f.ty);
      && Fits(defs, before, ws) && FieldShapes(defs, fs) == FieldShapes(defs, before) + [s] && Has(s, v)
      && |LeavesOfAll(defs, before)| <= |ls|
      && OutFields(FieldShapes(defs, before), ws) <= ls
      && Out(s, v) <= ls[|LeavesOfAll(defs, before)|..]
  {
    hide Accepted, ShapeOf, Has, Out, Leaves, Kinds, OutFields, LeavesOfFields;
    var before, f, ws, v := fs[..|fs| - 1], fs[|fs| - 1], vs[..|fs| - 1], vs[|fs| - 1];
    var ss, s := FieldShapes(defs, before), ShapeOf(defs, f.ty);
    assert FieldShapes(defs, fs) == ss + [s] && vs == ws + [v];
    OutOfMore(ss, s, ws, v);
    OutFieldsHasLeaves(ss, ws);
    KindsCount(OutFields(ss, ws));
    AfterFirst(OutFields(ss, ws), Out(s, v), ls);
  }

  lemma AfterFirst(a: seq<Leaf>, b: seq<Leaf>, ls: seq<Leaf>)
    requires a + b <= ls
    ensures a <= ls && b <= ls[|a|..]
  {
  }

  lemma TopFansBack(defs: Defs, p: Program, t: Type, v: Value, ls: seq<Leaf>, at: nat, d: nat)
    requires ProgramOk(defs, p) && HasFan(defs, p, t) && Accepted(defs, t) && Has(ShapeOf(defs, t), v)
    requires Height(ShapeOf(defs, t)) < d
    requires at <= |ls| && Out(ShapeOf(defs, t), v) <= ls[at..]
    ensures RunIn(p, TopSlot(defs, t, at, |LeavesOf(defs, t)|), ls, d)
         == Some(if Passthrough(t) then v else FanKept(ShapeOf(defs, t), v))
  {
    hide ProgramOk, HasFan, Kinds, Out, In, RunIn, Has, Height, ShapeOf, Accepted, LeavesOf, FanKept, TopSlot,
         Passthrough;
    if Passthrough(t) {
      LeafFansBack(defs, p, t, v, ls, at, d);
    } else {
      CallFansBack(defs, p, t, v, ls, at, d);
    }
  }

  lemma LeafFansBack(defs: Defs, p: Program, t: Type, v: Value, ls: seq<Leaf>, at: nat, d: nat)
    requires Passthrough(t) && Accepted(defs, t) && Has(ShapeOf(defs, t), v)
    requires at <= |ls| && Out(ShapeOf(defs, t), v) <= ls[at..]
    ensures RunIn(p, TopSlot(defs, t, at, |LeavesOf(defs, t)|), ls, d) == Some(v)
  {
    PassthroughIs(defs, t);
    assert ls[at] == ls[at..][0] == Out(ShapeOf(defs, t), v)[0];
    hide ShapeOf, Accepted, LeavesOf;
  }

  lemma CallFansBack(defs: Defs, p: Program, t: Type, v: Value, ls: seq<Leaf>, at: nat, d: nat)
    requires ProgramOk(defs, p) && HasFan(defs, p, t) && Accepted(defs, t) && Has(ShapeOf(defs, t), v)
    requires Height(ShapeOf(defs, t)) < d && !Passthrough(t)
    requires at <= |ls| && Out(ShapeOf(defs, t), v) <= ls[at..]
    ensures RunIn(p, TopSlot(defs, t, at, |LeavesOf(defs, t)|), ls, d) == Some(FanKept(ShapeOf(defs, t), v))
  {
    hide ProgramOk, HasFan, Kinds, Out, In, RunIn, Has, Height, ShapeOf, Accepted, Leaves, FanKept, Passthrough;
    var out := Out(ShapeOf(defs, t), v);
    FansBack(ShapeOf(defs, t), v);
    KindsCount(out);
    assert ls[at..at + |out|] == ls[at..][..|out|] == out;
    EmittedFansIn(defs, p, t, ls, at, d);
  }

  lemma {:induction false} OutOfMore(ss: seq<Shape>, s: Shape, vs: seq<Value>, v: Value)
    requires |ss| == |vs| && (forall i :: 0 <= i < |ss| ==> Has(ss[i], vs[i])) && Has(s, v)
    ensures forall i :: 0 <= i < |ss| + 1 ==> Has((ss + [s])[i], (vs + [v])[i])
    ensures OutFields(ss + [s], vs + [v]) == OutFields(ss, vs) + Out(s, v)
  {
    hide Out, Has;
    if ss == [] {
      assert ss + [s] == [s] && vs + [v] == [v] && OutFields([s], [v]) == Out(s, v) + [];
    } else {
      OutOfMore(ss[1..], s, vs[1..], v);
      assert (ss + [s])[1..] == ss[1..] + [s] && (vs + [v])[1..] == vs[1..] + [v];
    }
  }
}
