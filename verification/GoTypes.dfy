module GoTypes {
  /** Go types as the fuzz generator sees them: a finite graph whose cycles go
      through named types. Which of them the generator accepts is said twice, by
      unfolding a type into a finite shape and by what its paths meet, and the two
      are proved to agree. */

  import opened Options

  datatype Kind =
    | Bool | String
    | Int | Int8 | Int16 | Int32 | Int64
    | Uint | Uint8 | Uint16 | Uint32 | Uint64
    | Float32 | Float64
    | Unsupported(what: string)
  {
    /** The bytes of a number on the wire. */
    function Width(): nat {
      match this
      case Int8 => 1 case Uint8 => 1
      case Int16 => 2 case Uint16 => 2
      case Int32 => 4 case Uint32 => 4 case Float32 => 4
      case _ => 8
    }
  }

  datatype Type =
    | Basic(kind: Kind)
    | Slice(elem: Type)
    | Array(len: nat, elem: Type)
    | Struct(fields: seq<Field>)
    | Pointer(elem: Type)
    | Named(name: string)
    | Other(what: string)

  datatype Field = Field(name: string, exported: bool, ty: Type)

  /** The named types by their full names: what underlies each, and the name it is
      shown by, which drops its package's path and so need not tell it from others. */
  datatype Defs = Defs(under: map<string, Type>, display: string -> string)

  ghost predicate WellFormed(defs: Defs) {
    forall n <- defs.under :: !defs.under[n].Named?
  }

  function Underlying(defs: Defs, t: Type): Type {
    if !t.Named? then t else if t.name in defs.under then defs.under[t.name] else Other("undefined")
  }

  /** The predeclared byte, not a named type over it. */
  predicate IsByte(t: Type) {
    t == Basic(Uint8)
  }

  /** The fields a literal can set: blank ones are always zero. */
  function Live(fs: seq<Field>): (r: seq<Field>)
    ensures |r| <= |fs| && forall f <- r :: f in fs
  {
    if fs == [] then [] else
      var f := fs[|fs| - 1];
      Live(fs[..|fs| - 1]) + if f.name == "_" then [] else [f]
  }

  /** A type with every name unfolded. */
  datatype Shape =
    | SBool
    | SString
    | SNumber(width: nat)
    | SBytes
    | SByteArray(len: nat)
    | SSlice(elem: Shape)
    | SArray(len: nat, elem: Shape)
    | SStruct(fields: seq<Shape>)
    | SPointer(elem: Shape)

  function BasicShape(k: Kind): Option<Shape> {
    match k
    case Bool => Some(SBool)
    case String => Some(SString)
    case Unsupported(_) => None
    case _ => Some(SNumber(k.Width()))
  }

  /** t unfolded, if that takes no more than d levels and every leaf is supported. */
  ghost function Unfold(defs: Defs, t: Type, d: nat): Option<Shape>
    decreases d, 0
  {
    if d == 0 then None else
      match Underlying(defs, t)
      case Basic(k) => BasicShape(k)
      case Slice(e) =>
        var s := Unfold(defs, e, d - 1);
        if s.None? then None else if IsByte(e) then Some(SBytes) else Some(SSlice(s.value))
      case Array(n, e) =>
        var s := Unfold(defs, e, d - 1);
        if s.None? then None else if IsByte(e) then Some(SByteArray(n)) else Some(SArray(n, s.value))
      case Pointer(e) =>
        var s := Unfold(defs, e, d - 1); if s.Some? then Some(SPointer(s.value)) else None
      case Struct(fs) =>
        var ss := UnfoldFields(defs, Live(fs), d - 1); if ss.Some? then Some(SStruct(ss.value)) else None
      case _ => None
  }

  ghost function UnfoldFields(defs: Defs, fs: seq<Field>, d: nat): (ss: Option<seq<Shape>>)
    ensures ss.Some? ==> |ss.value| == |fs|
    ensures ss.Some? <==> forall i :: 0 <= i < |fs| ==> fs[i].exported && Unfold(defs, fs[i].ty, d).Some?
    ensures ss.Some? ==> forall i :: 0 <= i < |fs| ==> Unfold(defs, fs[i].ty, d) == Some(ss.value[i])
    decreases d, 1, |fs|
  {
    if fs == [] then Some([]) else
      var s, ss := Unfold(defs, fs[0].ty, d), UnfoldFields(defs, fs[1..], d);
      assert forall i :: 1 <= i < |fs| ==> fs[i] == fs[1..][i - 1];
      if fs[0].exported && s.Some? && ss.Some? then Some([s.value] + ss.value) else None
  }

  lemma {:induction false} DeeperUnfoldsAlike(defs: Defs, t: Type, d: nat, d': nat)
    requires d <= d' && Unfold(defs, t, d).Some?
    ensures Unfold(defs, t, d') == Unfold(defs, t, d)
    decreases d
  {
    hide Live;
    match Underlying(defs, t)
    case Slice(e) => DeeperUnfoldsAlike(defs, e, d - 1, d' - 1);
    case Array(n, e) => DeeperUnfoldsAlike(defs, e, d - 1, d' - 1);
    case Pointer(e) => DeeperUnfoldsAlike(defs, e, d - 1, d' - 1);
    case Struct(fs) =>
      forall f | f in Live(fs) ensures Unfold(defs, f.ty, d' - 1) == Unfold(defs, f.ty, d - 1) {
        DeeperUnfoldsAlike(defs, f.ty, d - 1, d' - 1);
      }
      assert forall i :: 0 <= i < |Live(fs)| ==> Live(fs)[i] in Live(fs);
      assert UnfoldFields(defs, Live(fs), d' - 1).value == UnfoldFields(defs, Live(fs), d - 1).value;
    case _ =>
  }

  /** The types the generator takes: those that unfold to a finite shape. */
  ghost predicate Accepted(defs: Defs, t: Type) {
    exists d: nat :: Unfold(defs, t, d).Some?
  }

  ghost function ShapeOf(defs: Defs, t: Type): Shape
    requires Accepted(defs, t)
  {
    var d: nat :| Unfold(defs, t, d).Some?;
    Unfold(defs, t, d).value
  }

  lemma ShapeIs(defs: Defs, t: Type, d: nat)
    requires Unfold(defs, t, d).Some?
    ensures Accepted(defs, t) && Unfold(defs, t, d) == Some(ShapeOf(defs, t))
  {
    var d': nat :| Unfold(defs, t, d').Some? && Some(ShapeOf(defs, t)) == Unfold(defs, t, d');
    DeeperUnfoldsAlike(defs, t, d, d + d');
    DeeperUnfoldsAlike(defs, t, d', d + d');
  }

  // ---------------------------------------------------- one level at a time

  ghost function ElemOf(u: Type): Option<Type> {
    match u
    case Slice(e) => Some(e)
    case Array(_, e) => Some(e)
    case Pointer(e) => Some(e)
    case _ => None
  }

  lemma AcceptedElem(defs: Defs, t: Type, e: Type)
    requires ElemOf(Underlying(defs, t)) == Some(e)
    ensures Accepted(defs, t) <==> Accepted(defs, e)
    ensures Accepted(defs, e) ==> var s := ShapeOf(defs, e);
      ShapeOf(defs, t) == match Underlying(defs, t)
                          case Slice(_) => if IsByte(e) then SBytes else SSlice(s)
                          case Array(n, _) => if IsByte(e) then SByteArray(n) else SArray(n, s)
                          case _ => SPointer(s)
  {
    if Accepted(defs, t) {
      var d: nat :| Unfold(defs, t, d).Some?;
      ShapeIs(defs, e, d - 1);
    }
    if Accepted(defs, e) {
      var d: nat :| Unfold(defs, e, d).Some?;
      ShapeIs(defs, e, d);
      ShapeIs(defs, t, d + 1);
    }
  }

  /** Whether a type without element or fields is accepted shows at once. */
  lemma AcceptedLeaf(defs: Defs, t: Type)
    requires var u := Underlying(defs, t); ElemOf(u) == None && !u.Struct?
    ensures Accepted(defs, t) <==> Unfold(defs, t, 1).Some?
    ensures Accepted(defs, t) ==> Unfold(defs, t, 1) == Some(ShapeOf(defs, t))
  {
    if Accepted(defs, t) {
      var d: nat :| Unfold(defs, t, d).Some?;
      assert Unfold(defs, t, 1) == Unfold(defs, t, d);
      ShapeIs(defs, t, 1);
    }
  }

  lemma {:induction false} CommonDepth(defs: Defs, fs: seq<Field>) returns (d: nat)
    requires forall f <- fs :: Accepted(defs, f.ty)
    ensures forall f <- fs :: Unfold(defs, f.ty, d).Some?
  {
    if fs == [] {
      d := 0;
    } else {
      var rest := CommonDepth(defs, fs[1..]);
      var d0: nat :| Unfold(defs, fs[0].ty, d0).Some?;
      d := rest + d0;
      forall f | f in fs ensures Unfold(defs, f.ty, d).Some? {
        if f in fs[1..] {
          DeeperUnfoldsAlike(defs, f.ty, rest, d);
        } else {
          DeeperUnfoldsAlike(defs, f.ty, d0, d);
        }
      }
    }
  }

  ghost function FieldShapes(defs: Defs, fs: seq<Field>): seq<Shape>
    requires forall f <- fs :: Accepted(defs, f.ty)
  {
    seq(|fs|, i requires 0 <= i < |fs| => ShapeOf(defs, fs[i].ty))
  }

  lemma AcceptedStruct(defs: Defs, t: Type, fs: seq<Field>)
    requires Underlying(defs, t) == Struct(fs)
    ensures Accepted(defs, t) <==> forall f <- Live(fs) :: f.exported && Accepted(defs, f.ty)
    ensures Accepted(defs, t) ==> ShapeOf(defs, t) == SStruct(FieldShapes(defs, Live(fs)))
  {
    if Accepted(defs, t) {
      FieldsAreAccepted(defs, t, Live(fs));
    }
    if forall f <- Live(fs) :: f.exported && Accepted(defs, f.ty) {
      var d := CommonDepth(defs, Live(fs));
      FieldsUnfold(defs, Live(fs), d);
      assert Unfold(defs, t, d + 1).Some?;
    }
    hide Live, Unfold, UnfoldFields, FieldShapes;
  }

  lemma FieldsAreAccepted(defs: Defs, t: Type, live: seq<Field>)
    requires Accepted(defs, t) && Underlying(defs, t).Struct? && Live(Underlying(defs, t).fields) == live
    ensures forall f <- live :: f.exported && Accepted(defs, f.ty)
    ensures ShapeOf(defs, t) == SStruct(FieldShapes(defs, live))
  {
    var d: nat :| Unfold(defs, t, d).Some?;
    ShapeIs(defs, t, d);
    assert Unfold(defs, t, d) == Some(SStruct(UnfoldFields(defs, live, d - 1).value));
    hide Live, Underlying, Unfold, UnfoldFields;
    forall i | 0 <= i < |live| ensures Accepted(defs, live[i].ty) && live[i].exported
      && Unfold(defs, live[i].ty, d - 1) == Some(ShapeOf(defs, live[i].ty))
    {
      ShapeIs(defs, live[i].ty, d - 1);
    }
    assert UnfoldFields(defs, live, d - 1).value == FieldShapes(defs, live);
  }

  lemma FieldsUnfold(defs: Defs, fs: seq<Field>, d: nat)
    requires forall f <- fs :: f.exported && Unfold(defs, f.ty, d).Some?
    ensures UnfoldFields(defs, fs, d).Some?
  {
    hide Unfold, UnfoldFields;
    assert forall i :: 0 <= i < |fs| ==> fs[i] in fs;
  }

  // ------------------------------------------------------- what paths meet

  /** The types a type is made of. */
  function Parts(defs: Defs, t: Type): seq<Type> {
    match Underlying(defs, t)
    case Slice(e) => [e]
    case Array(_, e) => [e]
    case Pointer(e) => [e]
    case Struct(fs) => FieldTypes(Live(fs))
    case _ => []
  }

  function FieldTypes(fs: seq<Field>): (ts: seq<Type>)
    ensures |ts| == |fs| && forall i :: 0 <= i < |fs| ==> ts[i] == fs[i].ty
  {
    if fs == [] then [] else [fs[0].ty] + FieldTypes(fs[1..])
  }

  /** A leaf with a codec, or a composite whose fields can be set. */
  predicate Supported(defs: Defs, t: Type) {
    match Underlying(defs, t)
    case Basic(k) => !k.Unsupported?
    case Struct(fs) => forall f <- Live(fs) :: f.exported
    case Other(_) => false
    case Named(_) => false
    case _ => true
  }

  ghost predicate IsPath(defs: Defs, p: seq<Type>) {
    p != [] && forall i :: 0 < i < |p| ==> p[i] in Parts(defs, p[i - 1])
  }

  /** A type that contains itself lies on the path. */
  predicate Recurs(p: seq<Type>) {
    exists i, j :: 0 <= i < j < |p| && p[i] == p[j]
  }

  lemma AcceptedParts(defs: Defs, t: Type)
    ensures Accepted(defs, t) <==> Supported(defs, t) && forall u <- Parts(defs, t) :: Accepted(defs, u)
  {
    var u := Underlying(defs, t);
    if ElemOf(u).Some? {
      AcceptedElem(defs, t, ElemOf(u).value);
    } else if u.Struct? {
      AcceptedStruct(defs, t, u.fields);
      var live := Live(u.fields);
      assert forall i :: 0 <= i < |live| ==> live[i].ty == Parts(defs, t)[i];
      assert forall f <- live :: f.ty in Parts(defs, t);
    } else {
      AcceptedLeaf(defs, t);
    }
  }

  /** What a path passes unfolds in ever fewer levels. */
  lemma {:induction false} PathUnfolds(defs: Defs, p: seq<Type>, d: nat)
    requires IsPath(defs, p) && Unfold(defs, p[0], d).Some?
    ensures |p| <= d && Unfold(defs, p[|p| - 1], d - |p| + 1).Some?
  {
    hide Unfold, Parts;
    UnfoldingHasLevels(defs, p[0], d);
    if |p| > 1 {
      var q := p[..|p| - 1];
      PathUnfolds(defs, q, d);
      PartUnfolds(defs, q[|q| - 1], p[|q|], d - |q| + 1);
    }
  }

  lemma UnfoldingHasLevels(defs: Defs, t: Type, d: nat)
    requires Unfold(defs, t, d).Some?
    ensures d > 0
  {
  }

  lemma PartUnfolds(defs: Defs, t: Type, u: Type, d: nat)
    requires Unfold(defs, t, d).Some? && u in Parts(defs, t)
    ensures d > 1 && Unfold(defs, u, d - 1).Some?
  {
  }

  /** A path from an accepted type meets only supported types and none twice. */
  lemma AcceptedPathsAreGood(defs: Defs, p: seq<Type>)
    requires IsPath(defs, p) && Accepted(defs, p[0])
    ensures Supported(defs, p[|p| - 1]) && !Recurs(p)
  {
    var d: nat :| Unfold(defs, p[0], d).Some?;
    PathUnfolds(defs, p, d);
    ShapeIs(defs, p[|p| - 1], d - |p| + 1);
    AcceptedParts(defs, p[|p| - 1]);
    forall i, j | 0 <= i < j < |p| && p[i] == p[j] ensures false {
      PathUnfolds(defs, p[..i + 1], d);
      CyclesDoNotUnfold(defs, p[i..j + 1], d - i);
    }
  }

  /** A type on a path back to itself unfolds at no depth: it would at a smaller. */
  lemma {:induction false} CyclesDoNotUnfold(defs: Defs, p: seq<Type>, d: nat)
    requires IsPath(defs, p) && |p| > 1 && p[0] == p[|p| - 1]
    ensures Unfold(defs, p[0], d).None?
    decreases d
  {
    if Unfold(defs, p[0], d).Some? {
      PathUnfolds(defs, p, d);
      CyclesDoNotUnfold(defs, p, d - |p| + 1);
    }
  }

  ghost function NamesOn(stack: seq<Type>): set<string> {
    set t | t in stack && t.Named? :: t.name
  }

  /** Going on from t to a part of it enters a name for the first time, or goes to
      a smaller type expression. */
  lemma PartDescends(defs: Defs, stack: seq<Type>, t: Type, u: Type)
    requires t !in stack && u in Parts(defs, t)
    ensures t.Named? ==> defs.under.Keys - NamesOn(stack + [t]) < defs.under.Keys - NamesOn(stack)
    ensures !t.Named? ==> NamesOn(stack + [t]) == NamesOn(stack) && u < t
  {
    if t.Named? {
      assert t.name in NamesOn(stack + [t]) && t.name !in NamesOn(stack);
      assert NamesOn(stack) <= NamesOn(stack + [t]);
    } else if t.Struct? {
      var i :| 0 <= i < |Live(t.fields)| && FieldTypes(Live(t.fields))[i] == u;
      assert Live(t.fields)[i] in t.fields;
    }
  }

  lemma PartExtendsPath(defs: Defs, stack: seq<Type>, t: Type, u: Type)
    requires IsPath(defs, stack + [t]) && u in Parts(defs, t)
    ensures IsPath(defs, stack + [t] + [u])
  {
  }

  /** Walks below t, which the types on the stack lead to, for a path that is bad:
      its last type is unsupported or was met before. Each named type is entered
      once at most, so the walk ends. */
  lemma {:induction false} FindBadPath(defs: Defs, stack: seq<Type>, t: Type) returns (bad: Option<seq<Type>>)
    requires WellFormed(defs) && IsPath(defs, stack + [t])
    ensures bad.None? ==> Accepted(defs, t)
    ensures bad.Some? ==> IsPath(defs, bad.value) && stack + [t] <= bad.value
    ensures bad.Some? ==> Recurs(bad.value) || !Supported(defs, bad.value[|bad.value| - 1])
    decreases defs.under.Keys - NamesOn(stack), t, 2
  {
    var path := stack + [t];
    if t in stack {
      var i :| 0 <= i < |stack| && stack[i] == t;
      assert path[i] == path[|stack|];
      bad := Some(path);
    } else if !Supported(defs, t) {
      bad := Some(path);
    } else {
      bad := FindBadPart(defs, stack, t, Parts(defs, t));
      AcceptedParts(defs, t);
    }
  }

  lemma {:induction false} FindBadPart(
      defs: Defs, stack: seq<Type>, t: Type, us: seq<Type>) returns (bad: Option<seq<Type>>)
    requires WellFormed(defs) && IsPath(defs, stack + [t]) && t !in stack && Supported(defs, t)
    requires forall u <- us :: u in Parts(defs, t)
    ensures bad.None? ==> forall u <- us :: Accepted(defs, u)
    ensures bad.Some? ==> IsPath(defs, bad.value) && stack + [t] <= bad.value
    ensures bad.Some? ==> Recurs(bad.value) || !Supported(defs, bad.value[|bad.value| - 1])
    decreases defs.under.Keys - NamesOn(stack), t, 1, |us|
  {
    hide Accepted, Supported, NamesOn, Underlying, IsPath, Recurs, Parts;
    if us == [] {
      bad := None;
    } else {
      PartExtendsPath(defs, stack, t, us[0]);
      PartDescends(defs, stack, t, us[0]);
      bad := FindBadPath(defs, stack + [t], us[0]);
      if bad.None? {
        bad := FindBadPart(defs, stack, t, us[1..]);
      }
    }
  }

  /** The generator takes exactly the types all of whose paths meet supported
      types only and none of them twice: no recursive type, and no type with an
      unsupported leaf or an unexported field anywhere below it. */
  lemma AcceptedIffPathsAreGood(defs: Defs, t: Type)
    requires WellFormed(defs)
    ensures Accepted(defs, t) <==>
      forall p :: IsPath(defs, p) && p[0] == t ==> Supported(defs, p[|p| - 1]) && !Recurs(p)
  {
    if Accepted(defs, t) {
      forall p | IsPath(defs, p) && p[0] == t ensures Supported(defs, p[|p| - 1]) && !Recurs(p) {
        AcceptedPathsAreGood(defs, p);
      }
    } else {
      assert [] + [t] == [t];
      var bad := FindBadPath(defs, [], t);
      assert bad.value[0] == t;
    }
  }
}
