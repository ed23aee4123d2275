module FuzzWalk {
  /** The generator's walks as functions: from what has been emitted and a type to
      whether the type is taken and what has been emitted then. Everything is kept and
      looked up by the string a type is shown as. When the types to be met are shown
      apart, the walks take exactly the accepted types and emit a correct program; when
      two are shown alike, they may take what is not accepted, and refuse what is. */

  import opened Options
  import opened GoTypes
  import opened TypeNames
  import opened FuzzCodec
  import opened FuzzProgram

  const EMPTY := Program(map[], map[], map[])

  // ------------------------------------------------------ readers and writers

  /** readCall, or writeStmt, which takes the same types. */
  function Visit(defs: Defs, p: Program, path: seq<Type>, t: Type): (bool, Program)
    decreases defs.under.Keys - NamesOn(path), t, 2
  {
    match Underlying(defs, t)
    case Basic(k) => (!k.Unsupported?, p)
    case Slice(e) => if IsByte(e) then (true, p) else VisitHelper(defs, p, path, t)
    case Other(_) => (false, p)
    case Named(_) => (false, p)
    case _ => VisitHelper(defs, p, path, t)
  }

  function VisitHelper(defs: Defs, p: Program, path: seq<Type>, t: Type): (bool, Program)
    requires Composite(defs, t)
    decreases defs.under.Keys - NamesOn(path), t, 1
  {
    var s := Shown(defs, t);
    if s in Stack(defs, path) then (false, p)
    else if s in p.helpers then (true, p)
    else
      NotOnPath(defs, path, t);
      var (ok, q) := VisitFields(defs, p, path, t, FieldsOf(defs, t));
      (ok, if ok then q.(helpers := q.helpers[s := HelperFn(t, BodyOf(defs, t), BodyOf(defs, t))]) else q)
  }

  predicate PartFields(defs: Defs, t: Type, fs: seq<Field>) {
    forall f <- fs :: f.ty in Parts(defs, t)
  }

  function VisitFields(defs: Defs, p: Program, path: seq<Type>, t: Type, fs: seq<Field>): (bool, Program)
    requires t !in path && PartFields(defs, t, fs)
    decreases defs.under.Keys - NamesOn(path), t, 0, |fs|
  {
    if fs == [] then (true, p) else
      var f := fs[|fs| - 1];
      var (ok, q) := VisitFields(defs, p, path, t, fs[..|fs| - 1]);
      if !ok || !f.exported then (false, q) else
        PartDescends(defs, path, t, f.ty);
        Visit(defs, q, path + [t], f.ty)
  }

  /** The fields of a struct but for blank ones, or the element as one field. */
  function FieldsOf(defs: Defs, t: Type): (fs: seq<Field>)
    ensures PartFields(defs, t, fs)
  {
    match Underlying(defs, t)
    case Struct(fs) => LiveFieldsAreParts(defs, t, fs); Live(fs)
    case Slice(e) => [Field("", true, e)]
    case Array(_, e) => [Field("", true, e)]
    case Pointer(e) => [Field("", true, e)]
    case _ => []
  }

  lemma LiveFieldsAreParts(defs: Defs, t: Type, fs: seq<Field>)
    requires Underlying(defs, t) == Struct(fs)
    ensures PartFields(defs, t, Live(fs))
  {
    PartsAreFields(defs, t, fs);
  }

  lemma NotOnPath(defs: Defs, path: seq<Type>, t: Type)
    requires Shown(defs, t) !in Stack(defs, path)
    ensures t !in path
  {
    if t in path {
      StackHolds(defs, path, t);
    }
  }

  // ------------------------------------------------------------------- fans

  function HybridWalk(defs: Defs, p: Program, t: Type): (bool, Program) {
    var s := Shown(defs, t);
    if s in p.hybrids then (true, p) else
      var (ok, q) := Visit(defs, p, [], t);
      (ok, if ok then q.(hybrids := q.hybrids[s := HybridFn(t, AccessOf(defs, t), AccessOf(defs, t))]) else q)
  }

  /** fan: the leaves, or none for a type refused. */
  function FanWalk(defs: Defs, p: Program, path: seq<Type>, t: Type): (Option<seq<LeafKind>>, Program)
    decreases defs.under.Keys - NamesOn(path), t, 2
  {
    var s := Shown(defs, t);
    if Passthrough(t) then (Some([PassthroughParam(t)]), p)
    else if s in p.fans then (Some(p.fans[s].params), p)
    else if s in Stack(defs, path) then (None, p)
    else
      NotOnPath(defs, path, t);
      var (fn, q) := FanSourceWalk(defs, p, path, t);
      if fn.None? then (None, q) else (Some(fn.value.params), q.(fans := q.fans[s := fn.value]))
  }

  function FanSourceWalk(defs: Defs, p: Program, path: seq<Type>, t: Type): (Option<FanFn>, Program)
    requires t !in path
    decreases defs.under.Keys - NamesOn(path), t, 1
  {
    match Underlying(defs, t)
    case Basic(k) =>
      (if k.Unsupported? then None
       else if k.Bool? then Some(FanFn(t, [BoolLeaf], Converted))
       else if k.String? then Some(FanFn(t, [StringLeaf], Converted))
       else Some(FanFn(t, [BytesLeaf], Numbered(k))), p)
    case Slice(e) => if IsByte(e) then (Some(FanFn(t, [BytesLeaf], Blob)), p) else HybridFanWalk(defs, p, t)
    case Array(n, e) =>
      if IsByte(e) then (Some(FanFn(t, [BytesLeaf], Filled(n))), p) else
        PartDescends(defs, path, t, e);
        var (elem, q) := FanWalk(defs, p, path + [t], e);
        if elem.None? then (None, q)
        else if n > 0 && n * |elem.value| <= ARRAY_FAN_LIMIT then
          var s := CopySlots(defs, e, elem.value, n);
          (Some(FanFn(t, s.params, ArrayOf(s.ins, s.outs))), q)
        else HybridFanWalk(defs, q, t)
    case Struct(fs) =>
      LiveFieldsAreParts(defs, t, fs);
      var (s, q) := FanFieldsWalk(defs, p, path, t, Live(fs));
      (if s.None? then None else Some(FanFn(t, s.value.params, StructOf(s.value.ins, s.value.outs))), q)
    case Pointer(e) =>
      PartDescends(defs, path, t, e);
      var (elem, q) := FanWalk(defs, p, path + [t], e);
      (if elem.None? then None else
         Some(FanFn(t, [BoolLeaf] + elem.value, PointerTo(e, InSlot(defs, e, 1, |elem.value|), OutSlot(defs, e)))), q)
    case _ => (None, p)
  }

  function HybridFanWalk(defs: Defs, p: Program, t: Type): (Option<FanFn>, Program) {
    var (ok, q) := HybridWalk(defs, p, t);
    (if ok then Some(FanFn(t, [BytesLeaf], Hybrid)) else None, q)
  }

  /** The leaves of the parts so far, and how each part is fanned. */
  datatype Slots = Slots(params: seq<LeafKind>, ins: seq<InExpr>, outs: seq<OutExpr>) {
    function Then(defs: Defs, t: Type, leaves: seq<LeafKind>): Slots {
      Slots(params + leaves, ins + [InSlot(defs, t, |params|, |leaves|)], outs + [OutSlot(defs, t)])
    }
  }

  const NO_SLOTS := Slots([], [], [])

  function CopySlots(defs: Defs, e: Type, elem: seq<LeafKind>, n: nat): Slots {
    if n == 0 then NO_SLOTS else CopySlots(defs, e, elem, n - 1).Then(defs, e, elem)
  }

  function FanFieldsWalk(defs: Defs, p: Program, path: seq<Type>, t: Type, fs: seq<Field>): (Option<Slots>, Program)
    requires t !in path && PartFields(defs, t, fs)
    decreases defs.under.Keys - NamesOn(path), t, 0, |fs|
  {
    if fs == [] then (Some(NO_SLOTS), p) else
      var f := fs[|fs| - 1];
      var (s, q) := FanFieldsWalk(defs, p, path, t, fs[..|fs| - 1]);
      if s.None? || !f.exported then (None, q) else
        PartDescends(defs, path, t, f.ty);
        var (sub, r) := FanWalk(defs, q, path + [t], f.ty);
        (if sub.None? then None else Some(s.value.Then(defs, f.ty, sub.value)), r)
  }

  // ------------------------------------------------- types that are shown apart

  ghost predicate ShownApart(defs: Defs, scope: iset<Type>) {
    forall t, u :: t in scope && u in scope && Shown(defs, t) == Shown(defs, u) ==> t == u
  }

  ghost predicate HoldsParts(defs: Defs, scope: iset<Type>) {
    forall t, u :: t in scope && u in Parts(defs, t) ==> u in scope
  }

  /** A correct program of functions for types in scope. */
  ghost predicate Sound(defs: Defs, scope: iset<Type>, p: Program) {
    && ProgramOk(defs, p)
    && (forall s <- p.fans :: p.fans[s].ty in scope)
    && (forall s <- p.hybrids :: p.hybrids[s].ty in scope)
    && (forall s <- p.helpers :: p.helpers[s].ty in scope)
  }

  ghost predicate Scope(defs: Defs, scope: iset<Type>, p: Program) {
    ShownApart(defs, scope) && HoldsParts(defs, scope) && Sound(defs, scope, p)
  }

  /** What the generator works below: a path in scope. */
  ghost predicate Below(defs: Defs, scope: iset<Type>, path: seq<Type>, t: Type) {
    t in scope && (forall u <- path :: u in scope) && IsPath(defs, path + [t])
  }

  lemma GoesBelow(defs: Defs, scope: iset<Type>, path: seq<Type>, t: Type, u: Type)
    requires HoldsParts(defs, scope) && Below(defs, scope, path, t) && u in Parts(defs, t)
    ensures Below(defs, scope, path + [t], u)
  {
    PartExtendsPath(defs, path, t, u);
    hide IsPath, Parts;
  }

  /** A type in scope shown like one on the path is that one, and contains itself. */
  lemma StackedIsRecursive(defs: Defs, scope: iset<Type>, path: seq<Type>, t: Type)
    requires ShownApart(defs, scope) && Below(defs, scope, path, t) && Shown(defs, t) in Stack(defs, path)
    ensures !Accepted(defs, t)
  {
    var i :| 0 <= i < |path| && Stack(defs, path)[i] == Shown(defs, t);
    assert path[i] in path && path[i] == t;
    var cycle := (path + [t])[i..];
    assert cycle[0] == cycle[|cycle| - 1] && Recurs(cycle);
    if Accepted(defs, t) {
      AcceptedPathsAreGood(defs, cycle);
    }
  }

  // ------------------------------------------------- adding a correct function

  lemma CallsStayEmitted(defs: Defs, p: Program, q: Program, t: Type, fn: FanFn)
    requires Extends(p, q) && CallsEmitted(defs, p, t, fn)
    ensures CallsEmitted(defs, q, t, fn)
  {
  }

  lemma FansStayOk(defs: Defs, p: Program, q: Program)
    requires FansOk(defs, p) && Extends(p, q) && q.fans == p.fans
    ensures FansOk(defs, q)
  {
    hide CallsEmitted, FanOf, Accepted, Shown, Passthrough;
    forall s | s in q.fans ensures FanOk(defs, q, s, q.fans[s]) {
      assert FanOk(defs, p, s, p.fans[s]);
      CallsStayEmitted(defs, p, q, q.fans[s].ty, q.fans[s]);
    }
  }

  lemma HelpersStayOk(defs: Defs, p: Program, q: Program)
    requires HelpersOk(defs, p) && Extends(p, q) && q.helpers == p.helpers
    ensures HelpersOk(defs, q)
  {
    hide Accepted, Shown, BodyOf, Composite, Parts;
    forall s | s in q.helpers ensures HelperOk(defs, q, s, q.helpers[s]) {
      assert HelperOk(defs, p, s, p.helpers[s]);
    }
  }

  lemma HybridsStayOk(defs: Defs, p: Program, q: Program)
    requires HybridsOk(defs, p) && Extends(p, q) && q.hybrids == p.hybrids
    ensures HybridsOk(defs, q)
  {
    hide Accepted, Shown, AccessOf;
    forall s | s in q.hybrids ensures HybridOk(defs, q, s, q.hybrids[s]) {
      assert HybridOk(defs, p, s, p.hybrids[s]);
    }
  }

  /** What is emitted under the string of a type in scope is that type's function. */
  lemma FanInScope(defs: Defs, scope: iset<Type>, p: Program, t: Type)
    requires Scope(defs, scope, p) && t in scope && Shown(defs, t) in p.fans
    ensures Accepted(defs, t) && p.fans[Shown(defs, t)] == FanOf(defs, t) && HasFan(defs, p, t)
    ensures p.fans[Shown(defs, t)].params == LeavesOf(defs, t)
  {
    hide Shown, Accepted, LeavesOf, CallsEmitted, FanOf;
    assert FanOk(defs, p, Shown(defs, t), p.fans[Shown(defs, t)]);
    FanOfHasLeaves(defs, t);
  }

  lemma HelperInScope(defs: Defs, scope: iset<Type>, p: Program, t: Type)
    requires Scope(defs, scope, p) && t in scope && Shown(defs, t) in p.helpers
    ensures Accepted(defs, t) && Composite(defs, t) && HasHelper(defs, p, t)
    ensures p.helpers[Shown(defs, t)] == HelperFn(t, BodyOf(defs, t), BodyOf(defs, t))
  {
    hide Shown, Accepted, BodyOf;
    assert HelperOk(defs, p, Shown(defs, t), p.helpers[Shown(defs, t)]);
  }

  lemma HybridInScope(defs: Defs, scope: iset<Type>, p: Program, t: Type)
    requires Scope(defs, scope, p) && t in scope && Shown(defs, t) in p.hybrids
    ensures Accepted(defs, t) && HasHybrid(defs, p, t)
    ensures p.hybrids[Shown(defs, t)] == HybridFn(t, AccessOf(defs, t), AccessOf(defs, t))
  {
    hide Shown, Accepted, AccessOf;
    assert HybridOk(defs, p, Shown(defs, t), p.hybrids[Shown(defs, t)]);
  }

  lemma OneFanMore(defs: Defs, p: Program, s: string, fn: FanFn)
    requires ProgramOk(defs, p) && s !in p.fans && FanOk(defs, p, s, fn)
    ensures var q := p.(fans := p.fans[s := fn]); ProgramOk(defs, q) && Extends(p, q)
  {
    hide Shown, CallsEmitted, Accepted, Passthrough, HelpersOk, HybridsOk, FanOf;
    var q := p.(fans := p.fans[s := fn]);
    HelpersStayOk(defs, p, q);
    HybridsStayOk(defs, p, q);
    forall r | r in q.fans ensures FanOk(defs, q, r, q.fans[r]) {
      assert r in p.fans ==> FanOk(defs, p, r, p.fans[r]);
      CallsStayEmitted(defs, p, q, q.fans[r].ty, q.fans[r]);
    }
  }

  lemma OneHelperMore(defs: Defs, p: Program, s: string, fn: HelperFn)
    requires ProgramOk(defs, p) && s !in p.helpers && HelperOk(defs, p, s, fn)
    ensures var q := p.(helpers := p.helpers[s := fn]); ProgramOk(defs, q) && Extends(p, q)
  {
    hide Shown, Accepted, Composite, FansOk, HybridsOk, BodyOf, AccessOf, Parts;
    var q := p.(helpers := p.helpers[s := fn]);
    FansStayOk(defs, p, q);
    HybridsStayOk(defs, p, q);
    forall r | r in q.helpers ensures HelperOk(defs, q, r, q.helpers[r]) {
      assert r in p.helpers ==> HelperOk(defs, p, r, p.helpers[r]);
    }
  }

  lemma OneHybridMore(defs: Defs, p: Program, s: string, fn: HybridFn)
    requires ProgramOk(defs, p) && s !in p.hybrids && HybridOk(defs, p, s, fn)
    ensures var q := p.(hybrids := p.hybrids[s := fn]); ProgramOk(defs, q) && Extends(p, q)
  {
    hide Shown, Accepted, FansOk, HelpersOk, AccessOf;
    var q := p.(hybrids := p.hybrids[s := fn]);
    FansStayOk(defs, p, q);
    HelpersStayOk(defs, p, q);
  }

  /** A fan for a type in scope, whose calls are there, can be added. */
  lemma FanAdded(defs: Defs, scope: iset<Type>, p: Program, t: Type)
    requires Scope(defs, scope, p) && t in scope
    requires Accepted(defs, t) && !Passthrough(t) && CallsEmitted(defs, p, t, FanOf(defs, t))
    ensures var q := p.(fans := p.fans[Shown(defs, t) := FanOf(defs, t)]);
      Scope(defs, scope, q) && Extends(p, q) && HasFan(defs, q, t)
  {
    hide Shown, CallsEmitted, Accepted, Passthrough, ProgramOk, FanOf, HoldsParts, ShownApart;
    var s := Shown(defs, t);
    FanOfIsFor(defs, t);
    if s in p.fans {
      FanInScope(defs, scope, p, t);
      assert p.fans[s := FanOf(defs, t)] == p.fans;
    } else {
      OneFanMore(defs, p, s, FanOf(defs, t));
    }
  }

  lemma FanOfIsFor(defs: Defs, t: Type)
    requires Accepted(defs, t)
    ensures FanOf(defs, t).ty == t
  {
  }

  lemma HelperAdded(defs: Defs, scope: iset<Type>, p: Program, t: Type)
    requires Scope(defs, scope, p) && t in scope
    requires Accepted(defs, t) && Composite(defs, t) && forall u <- Parts(defs, t) :: HasHelper(defs, p, u)
    ensures var q := p.(helpers := p.helpers[Shown(defs, t) := HelperFn(t, BodyOf(defs, t), BodyOf(defs, t))]);
      Scope(defs, scope, q) && Extends(p, q) && HasHelper(defs, q, t)
  {
    hide Shown, Accepted, Composite, ProgramOk, BodyOf, AccessOf, HoldsParts, ShownApart, Parts;
    var s, fn := Shown(defs, t), HelperFn(t, BodyOf(defs, t), BodyOf(defs, t));
    if s in p.helpers {
      HelperInScope(defs, scope, p, t);
      assert p.helpers[s := fn] == p.helpers;
    } else {
      OneHelperMore(defs, p, s, fn);
    }
  }

  lemma HybridAdded(defs: Defs, scope: iset<Type>, p: Program, t: Type)
    requires Scope(defs, scope, p) && t in scope && Accepted(defs, t) && HasHelper(defs, p, t)
    ensures var q := p.(hybrids := p.hybrids[Shown(defs, t) := HybridFn(t, AccessOf(defs, t), AccessOf(defs, t))]);
      Scope(defs, scope, q) && Extends(p, q) && HasHybrid(defs, q, t)
  {
    hide Shown, Accepted, ProgramOk, AccessOf, HoldsParts, ShownApart, HasHelper;
    var s, fn := Shown(defs, t), HybridFn(t, AccessOf(defs, t), AccessOf(defs, t));
    if s in p.hybrids {
      HybridInScope(defs, scope, p, t);
      assert p.hybrids[s := fn] == p.hybrids;
    } else {
      OneHybridMore(defs, p, s, fn);
    }
  }

  // ------------------------------------------- the walks take what is accepted

  /** The helper walk below a path takes t exactly when it is accepted, and t then has
      its helper. */
  ghost predicate VisitRight(defs: Defs, scope: iset<Type>, p: Program, t: Type, r: (bool, Program)) {
    && Scope(defs, scope, r.1) && Extends(p, r.1)
    && (r.0 <==> Accepted(defs, t))
    && (r.0 ==> HasHelper(defs, r.1, t))
  }

  lemma {:induction false} VisitIsRight(defs: Defs, scope: iset<Type>, p: Program, path: seq<Type>, t: Type)
    requires Scope(defs, scope, p) && Below(defs, scope, path, t)
    ensures VisitRight(defs, scope, p, t, Visit(defs, p, path, t))
    decreases defs.under.Keys - NamesOn(path), t, 2
  {
    hide Scope, Below, HelpersOk, FansOk, HybridsOk, Live, Shown, NamesOn, Unfold;
    AcceptedParts(defs, t);
    match Underlying(defs, t)
    case Slice(e) =>
      if IsByte(e) {
        AcceptedParts(defs, e);
      } else {
        VisitHelperIsRight(defs, scope, p, path, t);
      }
    case Array(_, _) => VisitHelperIsRight(defs, scope, p, path, t);
    case Struct(_) => VisitHelperIsRight(defs, scope, p, path, t);
    case Pointer(_) => VisitHelperIsRight(defs, scope, p, path, t);
    case Basic(_) => AcceptedLeaf(defs, t);
    case _ =>
  }

  lemma {:induction false} VisitHelperIsRight(defs: Defs, scope: iset<Type>, p: Program, path: seq<Type>, t: Type)
    requires Scope(defs, scope, p) && Below(defs, scope, path, t) && Composite(defs, t)
    ensures VisitRight(defs, scope, p, t, VisitHelper(defs, p, path, t))
    decreases defs.under.Keys - NamesOn(path), t, 1
  {
    hide IsPath, HelpersOk, FansOk, HybridsOk, Parts, Live, Shown, NamesOn, FieldsOf, VisitFields, Accepted, BodyOf,
         AccessOf, HoldsParts;
    var s := Shown(defs, t);
    if s in Stack(defs, path) {
      StackedIsRecursive(defs, scope, path, t);
    } else if s in p.helpers {
      HelperInScope(defs, scope, p, t);
    } else {
      NotOnPath(defs, path, t);
      VisitFieldsIsRight(defs, scope, p, path, t, FieldsOf(defs, t));
      var (ok, q) := VisitFields(defs, p, path, t, FieldsOf(defs, t));
      FieldsAreParts(defs, q, t);
      if ok {
        HelperAdded(defs, scope, q, t);
      }
    }
  }

  /** The fields seen so far can be set, are accepted and have their helpers. */
  ghost predicate FieldsDone(defs: Defs, p: Program, fs: seq<Field>) {
    forall f <- fs :: f.exported && Accepted(defs, f.ty) && HasHelper(defs, p, f.ty)
  }

  ghost predicate FieldsTaken(defs: Defs, fs: seq<Field>) {
    forall f <- fs :: f.exported && Accepted(defs, f.ty)
  }

  lemma FieldsAreParts(defs: Defs, p: Program, t: Type)
    requires Composite(defs, t)
    ensures Accepted(defs, t) <==> FieldsTaken(defs, FieldsOf(defs, t))
    ensures FieldsDone(defs, p, FieldsOf(defs, t)) ==> forall u <- Parts(defs, t) :: HasHelper(defs, p, u)
  {
    hide Accepted, HasHelper;
    match Underlying(defs, t)
    case Struct(fs) =>
      AcceptedStruct(defs, t, fs);
      PartsAreFields(defs, t, fs);
    case Slice(e) => AcceptedElem(defs, t, e);
    case Array(_, e) => AcceptedElem(defs, t, e);
    case Pointer(e) => AcceptedElem(defs, t, e);
  }

  lemma {:induction false} VisitFieldsIsRight(
      defs: Defs, scope: iset<Type>, p: Program, path: seq<Type>, t: Type, fs: seq<Field>)
    requires Scope(defs, scope, p) && Below(defs, scope, path, t)
    requires t !in path && PartFields(defs, t, fs)
    ensures var (ok, q) := VisitFields(defs, p, path, t, fs);
      && Scope(defs, scope, q) && Extends(p, q)
      && (ok <==> FieldsTaken(defs, fs))
      && (ok ==> FieldsDone(defs, q, fs))
    decreases defs.under.Keys - NamesOn(path), t, 0, |fs|
  {
    hide Scope, Below, Parts, Live, Shown, NamesOn, Visit, Accepted, HasHelper;
    if fs != [] {
      var before, f := fs[..|fs| - 1], fs[|fs| - 1];
      VisitFieldsIsRight(defs, scope, p, path, t, before);
      var (ok, q) := VisitFields(defs, p, path, t, before);
      FieldsSplit(defs, before, f);
      assert fs == before + [f];
      if ok && f.exported {
        PartDescends(defs, path, t, f.ty);
        PartIsBelow(defs, scope, q, path, t, f.ty);
        VisitIsRight(defs, scope, q, path + [t], f.ty);
        FieldsStayDone(defs, q, Visit(defs, q, path + [t], f.ty).1, before);
        ExtendsOn(p, q, Visit(defs, q, path + [t], f.ty).1);
      }
    }
  }

  lemma PartIsBelow(defs: Defs, scope: iset<Type>, p: Program, path: seq<Type>, t: Type, u: Type)
    requires Scope(defs, scope, p) && Below(defs, scope, path, t) && u in Parts(defs, t)
    ensures Below(defs, scope, path + [t], u)
  {
    GoesBelow(defs, scope, path, t, u);
  }

  lemma FieldsSplit(defs: Defs, fs: seq<Field>, f: Field)
    ensures FieldsTaken(defs, fs + [f]) <==> FieldsTaken(defs, fs) && f.exported && Accepted(defs, f.ty)
    ensures forall p ::
      FieldsDone(defs, p, fs + [f]) <==>
      FieldsDone(defs, p, fs) && f.exported && Accepted(defs, f.ty) && HasHelper(defs, p, f.ty)
  {
    hide Accepted, HasHelper;
    assert forall g :: g in fs + [f] <==> g in fs || g == f;
  }

  lemma FieldsStayDone(defs: Defs, p: Program, q: Program, fs: seq<Field>)
    requires FieldsDone(defs, p, fs) && Extends(p, q)
    ensures FieldsDone(defs, q, fs)
  {
    hide Accepted, Shown, AccessOf;
  }

  lemma ExtendsOn(p: Program, q: Program, r: Program)
    requires Extends(p, q) && Extends(q, r)
    ensures Extends(p, r)
  {
  }

  ghost predicate FanRight(defs: Defs, scope: iset<Type>, p: Program, t: Type, r: (Option<seq<LeafKind>>, Program)) {
    && Scope(defs, scope, r.1) && Extends(p, r.1)
    && (r.0.Some? <==> Accepted(defs, t))
    && (r.0.Some? ==> r.0.value == LeavesOf(defs, t) && HasFan(defs, r.1, t))
  }

  /** The fan walk takes exactly the accepted types, whose leaves it finds and whose fans
      are then there. */
  lemma {:induction false} FanIsRight(defs: Defs, scope: iset<Type>, p: Program, path: seq<Type>, t: Type)
    requires Scope(defs, scope, p) && Below(defs, scope, path, t)
    ensures FanRight(defs, scope, p, t, FanWalk(defs, p, path, t))
    decreases defs.under.Keys - NamesOn(path), t, 3
  {
    hide IsPath, HelpersOk, FansOk, HybridsOk, Parts, Shown, NamesOn, FanSourceWalk, Accepted, LeavesOf, FanOf,
         HoldsParts,
      CallsEmitted, Passthrough, ShownApart;
    var s := Shown(defs, t);
    if Passthrough(t) {
      PassthroughIs(defs, t);
    } else if s in p.fans {
      FanInScope(defs, scope, p, t);
    } else if s in Stack(defs, path) {
      StackedIsRecursive(defs, scope, path, t);
    } else {
      NotOnPath(defs, path, t);
      FanSourceIsRight(defs, scope, p, path, t);
      var (fn, q) := FanSourceWalk(defs, p, path, t);
      if fn.Some? {
        FanAdded(defs, scope, q, t);
        FanOfHasLeaves(defs, t);
        ExtendsOn(p, q, FanWalk(defs, p, path, t).1);
      }
    }
  }

  /** A fan's source is that of its type and calls only what has been emitted. */
  ghost predicate SourceRight(defs: Defs, scope: iset<Type>, p: Program, t: Type, r: (Option<FanFn>, Program)) {
    && Scope(defs, scope, r.1) && Extends(p, r.1)
    && (r.0.Some? <==> Accepted(defs, t))
    && (r.0.Some? ==> r.0.value == FanOf(defs, t) && CallsEmitted(defs, r.1, t, r.0.value))
  }

  lemma {:induction false} FanSourceIsRight(defs: Defs, scope: iset<Type>, p: Program, path: seq<Type>, t: Type)
    requires Scope(defs, scope, p) && Below(defs, scope, path, t) && t !in path && !Passthrough(t)
    ensures SourceRight(defs, scope, p, t, FanSourceWalk(defs, p, path, t))
    decreases defs.under.Keys - NamesOn(path), t, 2
  {
    hide IsPath, Scope, Shown, NamesOn, Live;
    match Underlying(defs, t)
    case Basic(k) => AcceptedLeaf(defs, t);
    case Slice(e) =>
      if IsByte(e) {
        BytesAreAccepted(defs, t, e);
      } else {
        SliceFanIsRight(defs, scope, p, t, e);
      }
    case Array(n, e) =>
      if IsByte(e) {
        BytesAreAccepted(defs, t, e);
      } else {
        PartDescends(defs, path, t, e);
        PartIsBelow(defs, scope, p, path, t, e);
        FanIsRight(defs, scope, p, path + [t], e);
        ArrayFanIsRight(defs, scope, p, path, t, n, e);
      }
    case Struct(fs) =>
      LiveFieldsAreParts(defs, t, fs);
      FanFieldsAreRight(defs, scope, p, path, t, Live(fs));
      StructFanIsRight(defs, scope, p, path, t, fs);
    case Pointer(e) =>
      PartDescends(defs, path, t, e);
      PartIsBelow(defs, scope, p, path, t, e);
      FanIsRight(defs, scope, p, path + [t], e);
      PointerFanIsRight(defs, scope, p, path, t, e);
    case _ => AcceptedParts(defs, t);
  }

  lemma BytesAreAccepted(defs: Defs, t: Type, e: Type)
    requires IsByte(e) && (Underlying(defs, t) == Slice(e) || exists n :: Underlying(defs, t) == Array(n, e))
    ensures Accepted(defs, t)
  {
    AcceptedElem(defs, t, e);
    AcceptedParts(defs, e);
  }

  lemma HybridIsRight(defs: Defs, scope: iset<Type>, p: Program, t: Type)
    requires Scope(defs, scope, p) && t in scope
    ensures var (ok, q) := HybridWalk(defs, p, t);
      && Scope(defs, scope, q) && Extends(p, q)
      && (ok <==> Accepted(defs, t)) && (ok ==> HasHybrid(defs, q, t))
  {
    hide HelpersOk, FansOk, HybridsOk, Shown, Visit, Accepted, AccessOf, HoldsParts, ShownApart;
    var s := Shown(defs, t);
    if s in p.hybrids {
      HybridInScope(defs, scope, p, t);
    } else {
      assert [] + [t] == [t];
      VisitIsRight(defs, scope, p, [], t);
      var (ok, q) := Visit(defs, p, [], t);
      if ok {
        HybridAdded(defs, scope, q, t);
        ExtendsOn(p, q, HybridWalk(defs, p, t).1);
      }
    }
  }

  lemma SliceFanIsRight(defs: Defs, scope: iset<Type>, p: Program, t: Type, e: Type)
    requires Scope(defs, scope, p) && t in scope && Underlying(defs, t) == Slice(e) && !IsByte(e)
    ensures SourceRight(defs, scope, p, t, HybridFanWalk(defs, p, t))
  {
    hide Scope, HybridWalk, Shown;
    HybridIsRight(defs, scope, p, t);
    AcceptedElem(defs, t, e);
  }

  lemma ArrayFanIsRight(defs: Defs, scope: iset<Type>, p: Program, path: seq<Type>, t: Type, n: nat, e: Type)
    requires t !in path && t in scope && Underlying(defs, t) == Array(n, e) && !IsByte(e) && e in Parts(defs, t)
    requires FanRight(defs, scope, p, e, FanWalk(defs, p, path + [t], e))
    ensures SourceRight(defs, scope, p, t, FanSourceWalk(defs, p, path, t))
  {
    hide Scope, Shown, FanWalk, HybridWalk, Extends, HasHybrid, Accepted, LeavesOf, CopySlots, InSlots, OutSlots;
    var (elem, q) := FanWalk(defs, p, path + [t], e);
    AcceptedElem(defs, t, e);
    if elem.Some? {
      CopySlotsAre(defs, e, n);
      ArrayFanOf(defs, t, n, e);
      hide FanOf;
      HybridIsRight(defs, scope, q, t);
      ExtendsOn(p, q, HybridWalk(defs, q, t).1);
    }
  }

  lemma ArrayFanOf(defs: Defs, t: Type, n: nat, e: Type)
    requires Underlying(defs, t) == Array(n, e) && !IsByte(e) && Accepted(defs, e)
    ensures Accepted(defs, t) && AllAccepted(defs, Copies(n, e))
    ensures FanOf(defs, t) ==
      if n > 0 && n * |LeavesOf(defs, e)| <= ARRAY_FAN_LIMIT then
        FanFn(t, LeavesOfAll(defs, Copies(n, e)), ArrayOf(InSlots(defs, Copies(n, e)), OutSlots(defs, Copies(n, e))))
      else FanFn(t, [BytesLeaf], Hybrid)
  {
    AcceptedElem(defs, t, e);
    CopiesAreAccepted(defs, n, e);
    hide InSlots, OutSlots, FieldShapes, ShapeOf, Accepted;
  }

  lemma PointerFanIsRight(defs: Defs, scope: iset<Type>, p: Program, path: seq<Type>, t: Type, e: Type)
    requires t !in path && t in scope && Underlying(defs, t) == Pointer(e) && e in Parts(defs, t)
    requires FanRight(defs, scope, p, e, FanWalk(defs, p, path + [t], e))
    ensures SourceRight(defs, scope, p, t, FanSourceWalk(defs, p, path, t))
  {
    hide Scope, Shown, FanWalk, Extends, Accepted;
    AcceptedElem(defs, t, e);
  }

  /** What was collected for some parts is what their fans take and yield. */
  ghost predicate SlotsAre(defs: Defs, fs: seq<Field>, s: Slots) {
    && AllAccepted(defs, fs)
    && s == Slots(LeavesOfAll(defs, fs), InSlots(defs, fs), OutSlots(defs, fs))
  }

  lemma SlotsOfMore(defs: Defs, fs: seq<Field>, f: Field, s: Slots)
    requires SlotsAre(defs, fs, s) && Accepted(defs, f.ty)
    ensures SlotsAre(defs, fs + [f], s.Then(defs, f.ty, LeavesOf(defs, f.ty)))
  {
    LeavesGrow(defs, fs, f);
    assert OutSlots(defs, fs + [f]) == OutSlots(defs, fs) + [OutSlot(defs, f.ty)];
    hide LeavesOfAll, LeavesOf, InSlot, OutSlots;
    assert (fs + [f])[..|fs|] == fs;
  }

  lemma LeavesGrow(defs: Defs, fs: seq<Field>, f: Field)
    requires AllAccepted(defs, fs) && Accepted(defs, f.ty)
    ensures AllAccepted(defs, fs + [f])
    ensures LeavesOfAll(defs, fs + [f]) == LeavesOfAll(defs, fs) + LeavesOf(defs, f.ty)
  {
    assert FieldShapes(defs, fs + [f]) == FieldShapes(defs, fs) + [ShapeOf(defs, f.ty)];
    hide LeavesOfFields;
    LeavesOfMore(FieldShapes(defs, fs), ShapeOf(defs, f.ty));
  }

  lemma NoSlotsAre(defs: Defs)
    ensures SlotsAre(defs, [], NO_SLOTS)
  {
  }

  lemma {:induction false} CopySlotsAre(defs: Defs, e: Type, n: nat)
    requires Accepted(defs, e)
    ensures SlotsAre(defs, Copies(n, e), CopySlots(defs, e, LeavesOf(defs, e), n))
  {
    hide SlotsAre, LeavesOf, Accepted;
    if n == 0 {
      NoSlotsAre(defs);
      assert Copies(0, e) == [];
    } else {
      CopySlotsAre(defs, e, n - 1);
      assert Copies(n, e) == Copies(n - 1, e) + [Field("", true, e)];
      SlotsOfMore(defs, Copies(n - 1, e), Field("", true, e), CopySlots(defs, e, LeavesOf(defs, e), n - 1));
    }
  }

  /** The fields seen so far have their fans. */
  ghost predicate FieldsFanned(defs: Defs, p: Program, fs: seq<Field>) {
    forall f <- fs :: HasFan(defs, p, f.ty)
  }

  lemma {:induction false} FanFieldsAreRight(
      defs: Defs, scope: iset<Type>, p: Program, path: seq<Type>, t: Type, fs: seq<Field>)
    requires Scope(defs, scope, p) && Below(defs, scope, path, t)
    requires t !in path && PartFields(defs, t, fs)
    ensures var (s, q) := FanFieldsWalk(defs, p, path, t, fs);
      && Scope(defs, scope, q) && Extends(p, q)
      && (s.Some? <==> FieldsTaken(defs, fs))
      && (s.Some? ==> SlotsAre(defs, fs, s.value) && FieldsFanned(defs, q, fs))
    decreases defs.under.Keys - NamesOn(path), t, 0, |fs|
  {
    hide Scope, Below, Parts, Live, Shown, NamesOn, FanWalk, Accepted, HasFan, SlotsAre, Slots.Then, LeavesOf,
         FieldsTaken,
      FieldsFanned;
    if fs == [] {
      NoSlotsAre(defs);
      NoFieldsTaken(defs, p);
    } else {
      var before, f := fs[..|fs| - 1], fs[|fs| - 1];
      FanFieldsAreRight(defs, scope, p, path, t, before);
      var (s, q) := FanFieldsWalk(defs, p, path, t, before);
      FieldsSplit(defs, before, f);
      assert fs == before + [f];
      if s.Some? && f.exported {
        PartDescends(defs, path, t, f.ty);
        PartIsBelow(defs, scope, q, path, t, f.ty);
        FanIsRight(defs, scope, q, path + [t], f.ty);
        var r := FanWalk(defs, q, path + [t], f.ty).1;
        ExtendsOn(p, q, r);
        if Accepted(defs, f.ty) {
          SlotsOfMore(defs, before, f, s.value);
          FieldsStayFanned(defs, q, r, before, f);
        }
      }
    }
  }

  lemma NoFieldsTaken(defs: Defs, p: Program)
    ensures FieldsTaken(defs, []) && FieldsFanned(defs, p, [])
  {
  }

  lemma FieldsStayFanned(defs: Defs, p: Program, q: Program, fs: seq<Field>, f: Field)
    requires FieldsFanned(defs, p, fs) && Extends(p, q) && HasFan(defs, q, f.ty)
    ensures FieldsFanned(defs, q, fs + [f])
  {
    hide Shown, Passthrough;
    assert forall g :: g in fs + [f] <==> g in fs || g == f;
  }

  lemma StructFanIsRight(defs: Defs, scope: iset<Type>, p: Program, path: seq<Type>, t: Type, fs: seq<Field>)
    requires t !in path && Underlying(defs, t) == Struct(fs) && PartFields(defs, t, Live(fs))
    requires var (s, q) := FanFieldsWalk(defs, p, path, t, Live(fs));
      && Scope(defs, scope, q) && Extends(p, q)
      && (s.Some? <==> FieldsTaken(defs, Live(fs)))
      && (s.Some? ==> SlotsAre(defs, Live(fs), s.value) && FieldsFanned(defs, q, Live(fs)))
    ensures SourceRight(defs, scope, p, t, FanSourceWalk(defs, p, path, t))
  {
    hide Scope, Shown, FanFieldsWalk, Extends, Live, InSlots, OutSlots, FanOf, LeavesOfAll, Parts, FieldsFanned,
         Accepted;
    AcceptedStruct(defs, t, fs);
    var (s, q) := FanFieldsWalk(defs, p, path, t, Live(fs));
    if s.Some? {
      StructFanOf(defs, t, fs);
      PartsAreFanned(defs, q, t, fs);
    }
  }

  lemma PartsAreFanned(defs: Defs, p: Program, t: Type, fs: seq<Field>)
    requires Underlying(defs, t) == Struct(fs) && FieldsFanned(defs, p, Live(fs))
    ensures forall u <- Parts(defs, t) :: HasFan(defs, p, u)
  {
    hide HasFan, Live;
    PartsAreFields(defs, t, fs);
  }

  lemma StructFanOf(defs: Defs, t: Type, fs: seq<Field>)
    requires Accepted(defs, t) && Underlying(defs, t) == Struct(fs)
    ensures AllAccepted(defs, Live(fs))
    ensures FanOf(defs, t) ==
      FanFn(t, LeavesOfAll(defs, Live(fs)), StructOf(InSlots(defs, Live(fs)), OutSlots(defs, Live(fs))))
  {
    AcceptedStruct(defs, t, fs);
    hide InSlots, OutSlots, Accepted, FieldShapes, Live;
  }

  // ------------------------------------------------------- one fresh emitter

  /** The types that types lead to. */
  ghost function Reach(defs: Defs, ts: seq<Type>): iset<Type> {
    iset q: seq<Type> | IsPath(defs, q) && q[0] in ts :: q[|q| - 1]
  }

  lemma ReachIsScope(defs: Defs, ts: seq<Type>)
    requires WellFormed(defs) && ShownApart(defs, Reach(defs, ts))
    ensures Scope(defs, Reach(defs, ts), EMPTY) && forall t <- ts :: t in Reach(defs, ts)
  {
    hide Shown, Parts;
    var scope := Reach(defs, ts);
    forall t, u | t in scope && u in Parts(defs, t) ensures u in scope {
      var q :| IsPath(defs, q) && q[0] in ts && q[|q| - 1] == t;
      var r := q + [u];
      assert IsPath(defs, r) && r[0] in ts && r[|r| - 1] == u;
    }
    forall t | t in ts ensures t in scope {
      assert IsPath(defs, [t]) && [t][0] in ts;
    }
  }

  /** When the types a type leads to are shown apart, a fresh emitter takes it exactly
      when it is accepted, and then holds a correct program with its fan. */
  lemma FreshFanIsRight(defs: Defs, t: Type)
    requires WellFormed(defs) && ShownApart(defs, Reach(defs, [t]))
    ensures var (params, q) := FanWalk(defs, EMPTY, [], t);
      && ProgramOk(defs, q) && (params.Some? <==> Accepted(defs, t))
      && (params.Some? ==> params.value == LeavesOf(defs, t) && HasFan(defs, q, t))
  {
    hide Shown, FanWalk, Accepted, HoldsParts, ShownApart, LeavesOf;
    ReachIsScope(defs, [t]);
    assert [] + [t] == [t];
    FanIsRight(defs, Reach(defs, [t]), EMPTY, [], t);
  }

  /** A program has one function for a string, so of two types shown alike it serves one
      at most. */
  lemma ServesOneOfAlike(defs: Defs, p: Program, t: Type, u: Type)
    requires Shown(defs, t) == Shown(defs, u) && t != u && !Passthrough(t) && !Passthrough(u)
    ensures !(HasFan(defs, p, t) && HasFan(defs, p, u))
    ensures AccessOf(defs, t).ViaHelper? && AccessOf(defs, u).ViaHelper?
      ==> !(HasHelper(defs, p, t) && HasHelper(defs, p, u))
  {
  }

  // ------------------------------------------------------------ literal forms

  /** literalSupported below a path: it emits nothing and looks nothing up. */
  predicate LiteralForm(defs: Defs, path: seq<Type>, t: Type)
    decreases defs.under.Keys - NamesOn(path), t
  {
    && Shown(defs, t) !in Stack(defs, path)
    && match Underlying(defs, t)
       case Basic(k) => !k.Unsupported?
       case Slice(e) => IsByte(e) || LiteralPart(defs, path, t, e)
       case Array(_, e) => LiteralPart(defs, path, t, e)
       case Pointer(e) => LiteralPart(defs, path, t, e)
       case Struct(fs) =>
         LiveFieldsAreParts(defs, t, fs);
         forall f <- Live(fs) :: f.exported && LiteralPart(defs, path, t, f.ty)
       case _ => false
  }

  predicate LiteralPart(defs: Defs, path: seq<Type>, t: Type, u: Type)
    requires Shown(defs, t) !in Stack(defs, path) && u in Parts(defs, t)
    decreases defs.under.Keys - NamesOn(path), t, 0
  {
    NotOnPath(defs, path, t);
    PartDescends(defs, path, t, u);
    LiteralForm(defs, path + [t], u)
  }

  /** The types literalSupported goes on to: it does not look at a byte in a slice. */
  function Steps(defs: Defs, t: Type): seq<Type> {
    if Underlying(defs, t).Slice? && IsByte(Underlying(defs, t).elem) then [] else Parts(defs, t)
  }

  ghost predicate IsWalk(defs: Defs, q: seq<Type>) {
    q != [] && forall i :: 0 < i < |q| ==> q[i] in Steps(defs, q[i - 1])
  }

  ghost predicate ShowsTwice(defs: Defs, q: seq<Type>) {
    exists i, j :: 0 <= i < j < |q| && Shown(defs, q[i]) == Shown(defs, q[j])
  }

  /** No walk from t, the path before it, shows two types alike. */
  ghost predicate WalksApart(defs: Defs, path: seq<Type>, t: Type) {
    forall q :: IsWalk(defs, q) && q[0] == t ==> !ShowsTwice(defs, path + q)
  }

  lemma AcceptedSteps(defs: Defs, t: Type)
    ensures Accepted(defs, t) <==> Supported(defs, t) && forall u <- Steps(defs, t) :: Accepted(defs, u)
  {
    hide Accepted, Live;
    AcceptedParts(defs, t);
    if Underlying(defs, t).Slice? && IsByte(Underlying(defs, t).elem) {
      AcceptedParts(defs, Underlying(defs, t).elem);
    }
  }

  lemma PartIsForm(defs: Defs, path: seq<Type>, t: Type, u: Type)
    requires Shown(defs, t) !in Stack(defs, path) && u in Parts(defs, t)
    ensures LiteralPart(defs, path, t, u) == LiteralForm(defs, path + [t], u)
  {
  }

  lemma FormOfElem(defs: Defs, path: seq<Type>, t: Type, e: Type)
    requires Shown(defs, t) !in Stack(defs, path) && ElemOf(Underlying(defs, t)) == Some(e)
    requires !(Underlying(defs, t).Slice? && IsByte(e))
    ensures LiteralForm(defs, path, t) == LiteralForm(defs, path + [t], e)
    ensures Supported(defs, t) && Steps(defs, t) == [e]
  {
    hide Shown, NamesOn, Stack;
    PartIsForm(defs, path, t, e);
  }

  lemma FormOfStruct(defs: Defs, path: seq<Type>, t: Type, fs: seq<Field>)
    requires Shown(defs, t) !in Stack(defs, path) && Underlying(defs, t) == Struct(fs)
    ensures PartFields(defs, t, Live(fs))
    ensures LiteralForm(defs, path, t) <==> forall f <- Live(fs) :: f.exported && LiteralPart(defs, path, t, f.ty)
  {
    hide Shown, NamesOn, Stack, Live, LiteralPart;
    LiveFieldsAreParts(defs, t, fs);
  }

  lemma FormOfLeaf(defs: Defs, path: seq<Type>, t: Type)
    requires Shown(defs, t) !in Stack(defs, path)
    requires var u := Underlying(defs, t);
      !u.Struct? && (ElemOf(u) == None || (u.Slice? && IsByte(u.elem)))
    ensures LiteralForm(defs, path, t) == Supported(defs, t) && Steps(defs, t) == []
  {
    hide Shown, NamesOn, Stack;
  }

  lemma LiteralFormSteps(defs: Defs, path: seq<Type>, t: Type)
    requires Shown(defs, t) !in Stack(defs, path)
    ensures LiteralForm(defs, path, t) <==>
      Supported(defs, t) && forall u <- Steps(defs, t) :: LiteralForm(defs, path + [t], u)
  {
    hide Shown, NamesOn, Live, LiteralForm, LiteralPart, Stack;
    var u := Underlying(defs, t);
    if u.Struct? {
      FormOfStruct(defs, path, t, u.fields);
      PartsAreFields(defs, t, u.fields);
      forall f | f in Live(u.fields) ensures LiteralPart(defs, path, t, f.ty) == LiteralForm(defs, path + [t], f.ty) {
        PartIsForm(defs, path, t, f.ty);
      }
    } else if ElemOf(u).Some? && !(u.Slice? && IsByte(u.elem)) {
      FormOfElem(defs, path, t, u.elem);
    } else {
      FormOfLeaf(defs, path, t);
    }
  }

  lemma AlikeShowsTwice(defs: Defs, path: seq<Type>, t: Type)
    requires !ShowsTwice(defs, path)
    ensures ShowsTwice(defs, path + [t]) <==> Shown(defs, t) in Stack(defs, path)
  {
    hide Shown;
    var q := path + [t];
    if Shown(defs, t) in Stack(defs, path) {
      var i :| 0 <= i < |path| && Stack(defs, path)[i] == Shown(defs, t);
      assert q[i] == path[i] && q[|path|] == t;
    }
    assert forall k :: 0 <= k < |path| ==> q[k] == path[k] && Stack(defs, path)[k] == Shown(defs, path[k]);
  }

  /** The walks from t are t alone, and t before a walk from one of its steps. */
  lemma WalksSplit(defs: Defs, path: seq<Type>, t: Type)
    requires !ShowsTwice(defs, path + [t])
    ensures WalksApart(defs, path, t) <==> forall u <- Steps(defs, t) :: WalksApart(defs, path + [t], u)
  {
    hide ShowsTwice, Steps;
    if WalksApart(defs, path, t) {
      forall u, q | u in Steps(defs, t) && IsWalk(defs, q) && q[0] == u ensures !ShowsTwice(defs, path + [t] + q) {
        WalkBefore(defs, t, q);
        assert path + ([t] + q) == path + [t] + q;
      }
    }
    if forall u <- Steps(defs, t) :: WalksApart(defs, path + [t], u) {
      forall q | IsWalk(defs, q) && q[0] == t ensures !ShowsTwice(defs, path + q) {
        if |q| == 1 {
          assert q == [t];
        } else {
          assert path + q == path + [t] + q[1..];
          assert IsWalk(defs, q[1..]) && q[1..][0] in Steps(defs, t);
        }
      }
    }
  }

  lemma WalkBefore(defs: Defs, t: Type, q: seq<Type>)
    requires IsWalk(defs, q) && q[0] in Steps(defs, t)
    ensures IsWalk(defs, [t] + q) && ([t] + q)[0] == t
  {
    hide Steps;
  }

  /** A type has a literal form exactly when it is accepted and nothing it leads through
      is shown like a type on the way to it. */
  lemma {:induction false} LiteralFormIff(defs: Defs, path: seq<Type>, t: Type)
    requires !ShowsTwice(defs, path)
    ensures LiteralForm(defs, path, t) <==> Accepted(defs, t) && WalksApart(defs, path, t)
    decreases defs.under.Keys - NamesOn(path), t
  {
    hide Shown, Accepted, LiteralForm, ShowsTwice, Steps, NamesOn, WalksApart, Stack, Supported;
    AlikeShowsTwice(defs, path, t);
    if Shown(defs, t) in Stack(defs, path) {
      AloneShowsTwice(defs, path, t);
      StackedHasNoForm(defs, path, t);
    } else {
      NotOnPath(defs, path, t);
      AcceptedSteps(defs, t);
      LiteralFormSteps(defs, path, t);
      WalksSplit(defs, path, t);
      forall u | u in Steps(defs, t)
        ensures LiteralForm(defs, path + [t], u) <==> Accepted(defs, u) && WalksApart(defs, path + [t], u)
      {
        StepIsPart(defs, t, u);
        PartDescends(defs, path, t, u);
        LiteralFormIff(defs, path + [t], u);
      }
    }
  }

  lemma AloneShowsTwice(defs: Defs, path: seq<Type>, t: Type)
    requires ShowsTwice(defs, path + [t])
    ensures !WalksApart(defs, path, t)
  {
    hide ShowsTwice, Steps;
    assert IsWalk(defs, [t]) && [t][0] == t;
  }

  lemma StackedHasNoForm(defs: Defs, path: seq<Type>, t: Type)
    requires Shown(defs, t) in Stack(defs, path)
    ensures !LiteralForm(defs, path, t)
  {
  }

  lemma StepIsPart(defs: Defs, t: Type, u: Type)
    requires u in Steps(defs, t)
    ensures u in Parts(defs, t)
  {
  }

  // --------------------------------- what has a literal form is never refused

  lemma {:induction false} VisitTakes(defs: Defs, p: Program, path: seq<Type>, t: Type)
    requires LiteralForm(defs, path, t)
    ensures Visit(defs, p, path, t).0
    decreases defs.under.Keys - NamesOn(path), t, 1
  {
    hide Shown, NamesOn, Live, LiteralForm, Stack;
    if Composite(defs, t) && !(Underlying(defs, t).Slice? && IsByte(Underlying(defs, t).elem)) {
      FormOfParts(defs, path, t);
      if Shown(defs, t) !in p.helpers {
        NotOnPath(defs, path, t);
        VisitFieldsTake(defs, p, path, t, FieldsOf(defs, t));
      }
    } else {
      FormIsSupported(defs, path, t);
    }
  }

  lemma FormIsSupported(defs: Defs, path: seq<Type>, t: Type)
    requires LiteralForm(defs, path, t)
    ensures Shown(defs, t) !in Stack(defs, path) && Supported(defs, t)
  {
    LiteralFormSteps(defs, path, t);
  }

  lemma FormOfParts(defs: Defs, path: seq<Type>, t: Type)
    requires LiteralForm(defs, path, t) && Composite(defs, t)
    requires !(Underlying(defs, t).Slice? && IsByte(Underlying(defs, t).elem))
    ensures Shown(defs, t) !in Stack(defs, path)
    ensures forall f <- FieldsOf(defs, t) :: f.exported && LiteralForm(defs, path + [t], f.ty)
  {
    hide Shown, NamesOn, Live;
    LiteralFormSteps(defs, path, t);
  }

  lemma {:induction false} VisitFieldsTake(defs: Defs, p: Program, path: seq<Type>, t: Type, fs: seq<Field>)
    requires t !in path && PartFields(defs, t, fs)
    requires forall f <- fs :: f.exported && LiteralForm(defs, path + [t], f.ty)
    ensures VisitFields(defs, p, path, t, fs).0
    decreases defs.under.Keys - NamesOn(path), t, 0, |fs|
  {
    hide Shown, NamesOn, Live, LiteralForm, Visit, Parts;
    if fs != [] {
      var before, f := fs[..|fs| - 1], fs[|fs| - 1];
      VisitFieldsTake(defs, p, path, t, before);
      PartDescends(defs, path, t, f.ty);
      VisitTakes(defs, VisitFields(defs, p, path, t, before).1, path + [t], f.ty);
    }
  }

  /** Whatever was emitted before, fan takes a type with a literal form. */
  lemma {:induction false} FanTakes(defs: Defs, p: Program, path: seq<Type>, t: Type)
    requires LiteralForm(defs, path, t)
    ensures FanWalk(defs, p, path, t).0.Some?
    decreases defs.under.Keys - NamesOn(path), t, 2
  {
    hide Shown, NamesOn, Live, LiteralForm, Stack, FanSourceWalk, Passthrough;
    if !Passthrough(t) && Shown(defs, t) !in p.fans {
      FormIsSupported(defs, path, t);
      NotOnPath(defs, path, t);
      FanSourceTakes(defs, p, path, t);
    }
  }

  lemma {:induction false} FanSourceTakes(defs: Defs, p: Program, path: seq<Type>, t: Type)
    requires LiteralForm(defs, path, t) && t !in path
    ensures FanSourceWalk(defs, p, path, t).0.Some?
    decreases defs.under.Keys - NamesOn(path), t, 1
  {
    hide Shown, NamesOn, Live, LiteralForm, Stack, FanWalk, HybridWalk, CopySlots;
    if Composite(defs, t) && !(Underlying(defs, t).Slice? && IsByte(Underlying(defs, t).elem)) {
      FormOfParts(defs, path, t);
      match Underlying(defs, t)
      case Slice(_) => HybridTakes(defs, p, path, t);
      case Array(_, e) =>
        PartDescends(defs, path, t, e);
        ElemHasForm(defs, path, t, e);
        FanTakes(defs, p, path + [t], e);
        HybridTakes(defs, FanWalk(defs, p, path + [t], e).1, path, t);
      case Struct(fs) =>
        LiveFieldsAreParts(defs, t, fs);
        FanFieldsTake(defs, p, path, t, Live(fs));
      case Pointer(e) =>
        PartDescends(defs, path, t, e);
        ElemHasForm(defs, path, t, e);
        FanTakes(defs, p, path + [t], e);
    } else {
      FormIsSupported(defs, path, t);
    }
  }

  lemma ElemHasForm(defs: Defs, path: seq<Type>, t: Type, e: Type)
    requires forall f <- FieldsOf(defs, t) :: f.exported && LiteralForm(defs, path + [t], f.ty)
    requires var u := Underlying(defs, t); (u.Array? || u.Pointer?) && u.elem == e
    ensures LiteralForm(defs, path + [t], e) && e in Parts(defs, t)
  {
    hide LiteralForm;
    assert Field("", true, e) in FieldsOf(defs, t);
  }

  lemma {:induction false} FanFieldsTake(defs: Defs, p: Program, path: seq<Type>, t: Type, fs: seq<Field>)
    requires t !in path && PartFields(defs, t, fs)
    requires forall f <- fs :: f.exported && LiteralForm(defs, path + [t], f.ty)
    ensures FanFieldsWalk(defs, p, path, t, fs).0.Some?
    decreases defs.under.Keys - NamesOn(path), t, 0, |fs|
  {
    hide Shown, NamesOn, Live, LiteralForm, FanWalk, Parts, Slots.Then;
    if fs != [] {
      var before, f := fs[..|fs| - 1], fs[|fs| - 1];
      FanFieldsTake(defs, p, path, t, before);
      PartDescends(defs, path, t, f.ty);
      FanTakes(defs, FanFieldsWalk(defs, p, path, t, before).1, path + [t], f.ty);
    }
  }

  lemma HybridTakes(defs: Defs, p: Program, path: seq<Type>, t: Type)
    requires LiteralForm(defs, path, t)
    ensures HybridWalk(defs, p, t).0
  {
    hide Shown, LiteralForm, Visit;
    FormAnywhere(defs, path, [], t);
    VisitTakes(defs, p, [], t);
  }

  /** With fewer types before it, a type still has its literal form. */
  lemma {:induction false} FormAnywhere(defs: Defs, path: seq<Type>, less: seq<Type>, t: Type)
    requires LiteralForm(defs, path, t) && forall u <- less :: u in path
    ensures LiteralForm(defs, less, t)
    decreases defs.under.Keys - NamesOn(path), t
  {
    hide Shown, NamesOn, Live, LiteralForm, Steps, Supported, Stack;
    FormIsSupported(defs, path, t);
    LessOnStack(defs, path, less, t);
    NotOnPath(defs, path, t);
    LiteralFormSteps(defs, path, t);
    LiteralFormSteps(defs, less, t);
    forall u | u in Steps(defs, t) ensures LiteralForm(defs, less + [t], u) {
      StepIsPart(defs, t, u);
      PartDescends(defs, path, t, u);
      FormAnywhere(defs, path + [t], less + [t], u);
    }
  }

  lemma LessOnStack(defs: Defs, path: seq<Type>, less: seq<Type>, t: Type)
    requires Shown(defs, t) !in Stack(defs, path) && forall u <- less :: u in path
    ensures Shown(defs, t) !in Stack(defs, less)
  {
    hide Shown;
    forall i | 0 <= i < |less| ensures Stack(defs, less)[i] != Shown(defs, t) {
      assert less[i] in less;
      StackHolds(defs, path, less[i]);
    }
  }

  // --------------------------------------------------- types shown alike

  /** The second of two types shown alike is taken for the first, accepted or not. */
  lemma SecondOfAlikeIsTaken(defs: Defs, t: Type, u: Type)
    requires WellFormed(defs) && ShownApart(defs, Reach(defs, [t])) && Accepted(defs, t)
    requires Shown(defs, t) == Shown(defs, u) && t != u && !Passthrough(t) && !Passthrough(u)
    ensures var q := FanWalk(defs, EMPTY, [], t).1;
      FanWalk(defs, q, [], u) == (Some(LeavesOf(defs, t)), q) && !HasFan(defs, q, u)
  {
    hide Shown, Accepted, FanSourceWalk, ShownApart;
    FreshFanIsRight(defs, t);
    var q := FanWalk(defs, EMPTY, [], t).1;
    FanIs(defs, q, t);
    ServesOneOfAlike(defs, q, t, u);
  }

  /** A struct with a field shown like itself is refused by every walk. */
  lemma FieldShownAlikeIsRefused(defs: Defs, t: Type, f: Field)
    requires Underlying(defs, t) == Struct([f]) && f.exported && f.name != "_"
    requires Shown(defs, t) == Shown(defs, f.ty) && !Passthrough(f.ty) && Composite(defs, f.ty)
    requires AccessOf(defs, f.ty).ViaHelper?
    ensures FanWalk(defs, EMPTY, [], t).0.None? && !Visit(defs, EMPTY, [], t).0 && !LiteralForm(defs, [], t)
  {
    hide Shown, NamesOn, FanWalk, Visit;
    LiveOne(f);
    assert Stack(defs, [t])[0] == Shown(defs, t);
    AlikeIsRefused(defs, t, f);
    FieldFanIsRefused(defs, t, f);
    FieldVisitIsRefused(defs, t, f);
    LiteralFormSteps(defs, [], t);
    StackedHasNoForm(defs, [t], f.ty);
    assert [] + [t] == [t] && Parts(defs, t)[0] == f.ty;
  }

  lemma FieldFanIsRefused(defs: Defs, t: Type, f: Field)
    requires Underlying(defs, t) == Struct([f]) && f.exported && Live([f]) == [f]
    requires FanWalk(defs, EMPTY, [t], f.ty).0.None?
    ensures FanWalk(defs, EMPTY, [], t).0.None?
  {
    hide Shown, NamesOn, Live;
    LiveFieldsAreParts(defs, t, [f]);
    assert [f][..0] == [] && [] + [t] == [t];
    assert FanFieldsWalk(defs, EMPTY, [], t, []) == (Some(NO_SLOTS), EMPTY);
    assert FanFieldsWalk(defs, EMPTY, [], t, [f]).0.None?;
  }

  lemma FieldVisitIsRefused(defs: Defs, t: Type, f: Field)
    requires Underlying(defs, t) == Struct([f]) && f.exported && Live([f]) == [f]
    requires !Visit(defs, EMPTY, [t], f.ty).0
    ensures !Visit(defs, EMPTY, [], t).0
  {
    hide Shown, NamesOn, Live;
    LiveFieldsAreParts(defs, t, [f]);
    assert [f][..0] == [] && [] + [t] == [t];
    assert VisitFields(defs, EMPTY, [], t, []) == (true, EMPTY);
    assert FieldsOf(defs, t) == [f];
    assert !VisitFields(defs, EMPTY, [], t, [f]).0;
  }

  lemma LiveOne(f: Field)
    requires f.name != "_"
    ensures Live([f]) == [f]
  {
    assert [f][..0] == [];
  }

  lemma AlikeIsRefused(defs: Defs, t: Type, f: Field)
    requires Shown(defs, f.ty) in Stack(defs, [t]) && !Passthrough(f.ty)
    requires Composite(defs, f.ty) && AccessOf(defs, f.ty).ViaHelper?
    ensures FanWalk(defs, EMPTY, [t], f.ty) == (None, EMPTY) && Visit(defs, EMPTY, [t], f.ty) == (false, EMPTY)
  {
    hide Shown;
  }

  /** The types T of two packages a/v1 and b/v1, both named v1. */
  function TwoPackages(a: Type, b: Type): Defs {
    Defs(map["a/v1.T" := a, "b/v1.T" := b], n => "v1.T")
  }

  const A_T := Named("a/v1.T")
  const B_T := Named("b/v1.T")

  lemma FieldIsAccepted(defs: Defs, t: Type, f: Field)
    requires Underlying(defs, t) == Struct([f]) && f.exported && f.name != "_"
    ensures Accepted(defs, t) <==> Accepted(defs, f.ty)
  {
    LiveOne(f);
    AcceptedStruct(defs, t, [f]);
  }

  /** After a target over a/v1.T, one over b/v1.T, which has a channel, is taken. */
  lemma UnacceptedIsTaken()
    ensures var defs :=
        TwoPackages(Struct([Field("X", true, Basic(Int))]), Struct([Field("C", true, Other("chan int"))]));
      && Accepted(defs, A_T) && !Accepted(defs, B_T)
      && FanWalk(defs, FanWalk(defs, EMPTY, [], A_T).1, [], B_T).0.Some?
  {
    hide Accepted, FanWalk, Shown, Parts;
    var a, b := Struct([Field("X", true, Basic(Int))]), Struct([Field("C", true, Other("chan int"))]);
    var defs := TwoPackages(a, b);
    OneIsAccepted(defs);
    AlikeNames(a, b);
    TwoTypesApart(defs, A_T);
    SecondOfAlikeIsTaken(defs, A_T, B_T);
  }

  lemma OneIsAccepted(defs: Defs)
    requires Underlying(defs, A_T) == Struct([Field("X", true, Basic(Int))])
    requires Underlying(defs, B_T) == Struct([Field("C", true, Other("chan int"))])
    ensures Accepted(defs, A_T) && !Accepted(defs, B_T)
  {
    hide Accepted;
    FieldIsAccepted(defs, A_T, Field("X", true, Basic(Int)));
    IntIsAccepted(defs);
    FieldIsAccepted(defs, B_T, Field("C", true, Other("chan int")));
    AcceptedParts(defs, Other("chan int"));
  }

  lemma IntIsAccepted(defs: Defs)
    ensures Accepted(defs, Basic(Int))
  {
    hide Accepted;
    AcceptedParts(defs, Basic(Int));
  }

  lemma AlikeNames(a: Type, b: Type)
    ensures Shown(TwoPackages(a, b), A_T) == Shown(TwoPackages(a, b), B_T) == "v1.T"
  {
  }

  lemma TwoTypesApart(defs: Defs, t: Type)
    requires t == A_T || t == B_T
    requires Underlying(defs, t) == Struct([Field("X", true, Basic(Int))]) && Shown(defs, t) == "v1.T"
    ensures ShownApart(defs, Reach(defs, [t]))
  {
    hide Parts, Underlying, Live;
    PartsOfOne(defs, t);
    forall u | u in Reach(defs, [t]) ensures u == t || u == Basic(Int) {
      var q :| IsPath(defs, q) && q[0] in [t] && q[|q| - 1] == u;
      EndsAtTheField(defs, t, q);
    }
    assert Shown(defs, Basic(Int)) != "v1.T";
    hide Reach, Shown;
  }

  lemma PartsOfOne(defs: Defs, t: Type)
    requires Underlying(defs, t) == Struct([Field("X", true, Basic(Int))])
    ensures Parts(defs, t) == [Basic(Int)] && Parts(defs, Basic(Int)) == []
  {
    hide Live, FieldTypes;
    LiveOne(Field("X", true, Basic(Int)));
  }

  lemma {:induction false} EndsAtTheField(defs: Defs, t: Type, q: seq<Type>)
    requires Parts(defs, t) == [Basic(Int)] && Parts(defs, Basic(Int)) == [] && IsPath(defs, q) && q[0] == t
    ensures q[|q| - 1] == t || q[|q| - 1] == Basic(Int)
    decreases |q|
  {
    hide Parts;
    var n := |q| - 1;
    if n > 0 {
      EndsAtTheField(defs, t, q[..n]);
      assert q[n] in Parts(defs, q[n - 1]);
    }
  }

  /** a/v1.T with a field of type b/v1.T contains no type twice, and is refused. */
  lemma AcceptedIsRefused()
    ensures var defs := TwoPackages(Struct([Field("F", true, B_T)]), Struct([Field("X", true, Basic(Int))]));
      && Accepted(defs, A_T)
      && FanWalk(defs, EMPTY, [], A_T).0.None? && !Visit(defs, EMPTY, [], A_T).0 && !LiteralForm(defs, [], A_T)
  {
    hide Accepted, FanWalk, Visit, LiteralForm, Shown;
    var defs := TwoPackages(Struct([Field("F", true, B_T)]), Struct([Field("X", true, Basic(Int))]));
    FieldIsAccepted(defs, A_T, Field("F", true, B_T));
    FieldIsAccepted(defs, B_T, Field("X", true, Basic(Int)));
    IntIsAccepted(defs);
    AlikeNames(Struct([Field("F", true, B_T)]), Struct([Field("X", true, Basic(Int))]));
    FieldShownAlikeIsRefused(defs, A_T, Field("F", true, B_T));
  }

  /** The same type is taken after a target over b/v1.T: no condition on a type alone says
      whether it is. */
  lemma OrderDecides()
    ensures var defs := TwoPackages(Struct([Field("F", true, B_T)]), Struct([Field("X", true, Basic(Int))]));
      && FanWalk(defs, EMPTY, [], A_T).0.None?
      && FanWalk(defs, FanWalk(defs, EMPTY, [], B_T).1, [], A_T).0.Some?
  {
    hide Accepted, FanWalk, Shown, Parts;
    var a, b := Struct([Field("F", true, B_T)]), Struct([Field("X", true, Basic(Int))]);
    var defs := TwoPackages(a, b);
    AcceptedIsRefused();
    FieldIsAccepted(defs, B_T, Field("X", true, Basic(Int)));
    IntIsAccepted(defs);
    AlikeNames(a, b);
    TwoTypesApart(defs, B_T);
    SecondOfAlikeIsTaken(defs, B_T, A_T);
  }
}
