module FuzzProgram {
  /** The code the fuzz generator emits, as a small language with a meaning. A
      program holds, per string a type is shown as, the read/write helpers, the
      one-leaf codec and the fan functions, each written for one type. Running the
      functions of a correct program is proved to compute what FuzzCodec defines on
      shapes, for the types the functions were written for. */

  import opened Options
  import opened GoTypes
  import opened FuzzCodec
  import opened TypeNames

  // ----------------------------------------------------------- emitted code

  /** The expression that reads or writes one value: a primitive method, the blob
      method, or the helper of a type. */
  datatype Access = ViaBasic(kind: Kind) | ViaBlob | ViaHelper(callee: string)

  /** The body of a helper; the reading and the writing half have one form. */
  datatype Body =
    | OfStruct(parts: seq<Access>)
    | OfSlice(part: Access)
    | OfArray(len: nat, part: Access)
    | OfPointer(part: Access)

  datatype HelperFn = HelperFn(ty: Type, read: Body, write: Body)

  /** The decoder and encoder of a type that rides as one leaf. */
  datatype HybridFn = HybridFn(ty: Type, dec: Access, enc: Access)

  /** A fan-in argument: a leaf variable as it is, a blob with empty made nil, or
      the call of a type's fan-in on n leaf variables. */
  datatype InExpr = Arg(at: nat) | BlobArg(at: nat) | CallIn(callee: string, at: nat, n: nat)

  /** The leaves of one part of a value. */
  datatype OutExpr = AsLeaf | CallOut(callee: string)

  datatype FanBody =
    | Converted
    | Numbered(kind: Kind)
    | Blob
    | Filled(len: nat)
    | Hybrid
    | ArrayOf(ins: seq<InExpr>, outs: seq<OutExpr>)
    | StructOf(ins: seq<InExpr>, outs: seq<OutExpr>)
    | PointerTo(zero: Type, pin: InExpr, pout: OutExpr)

  datatype FanFn = FanFn(ty: Type, params: seq<LeafKind>, body: FanBody)

  /** bool, string and []byte are handed to the engine as declared. */
  predicate Passthrough(t: Type) {
    t == Basic(Bool) || t == Basic(String) || t == Slice(Basic(Uint8))
  }

  function PassthroughParam(t: Type): LeafKind
    requires Passthrough(t)
  {
    if t == Basic(Bool) then BoolLeaf else if t == Basic(String) then StringLeaf else BytesLeaf
  }

  // -------------------------------------------------------- what to emit

  function AccessOf(defs: Defs, t: Type): Access {
    match Underlying(defs, t)
    case Basic(k) => ViaBasic(k)
    case Slice(e) => if IsByte(e) then ViaBlob else ViaHelper(Shown(defs, t))
    case _ => ViaHelper(Shown(defs, t))
  }

  function AccessesOf(defs: Defs, fs: seq<Field>): (r: seq<Access>)
    ensures |r| == |fs|
  {
    seq(|fs|, i requires 0 <= i < |fs| => AccessOf(defs, fs[i].ty))
  }

  /** The types that get a helper. */
  predicate Composite(defs: Defs, t: Type) {
    var u := Underlying(defs, t);
    u.Slice? || u.Array? || u.Struct? || u.Pointer?
  }

  function BodyOf(defs: Defs, t: Type): Body
    requires Composite(defs, t)
  {
    match Underlying(defs, t)
    case Struct(fs) => OfStruct(AccessesOf(defs, Live(fs)))
    case Slice(e) => OfSlice(AccessOf(defs, e))
    case Array(n, e) => OfArray(n, AccessOf(defs, e))
    case Pointer(e) => OfPointer(AccessOf(defs, e))
  }

  ghost function LeavesOf(defs: Defs, t: Type): seq<LeafKind>
    requires Accepted(defs, t)
  {
    Leaves(ShapeOf(defs, t))
  }

  ghost predicate AllAccepted(defs: Defs, fs: seq<Field>) {
    forall f <- fs :: Accepted(defs, f.ty)
  }

  ghost function LeavesOfAll(defs: Defs, fs: seq<Field>): seq<LeafKind>
    requires AllAccepted(defs, fs)
  {
    LeavesOfFields(FieldShapes(defs, fs))
  }

  function InSlot(defs: Defs, t: Type, at: nat, n: nat): InExpr {
    if !Passthrough(t) then CallIn(Shown(defs, t), at, n) else if t.Slice? then BlobArg(at) else Arg(at)
  }

  function OutSlot(defs: Defs, t: Type): OutExpr {
    if Passthrough(t) then AsLeaf else CallOut(Shown(defs, t))
  }

  /** Each field takes the leaves after those of the fields before it. */
  ghost function InSlots(defs: Defs, fs: seq<Field>): (r: seq<InExpr>)
    requires AllAccepted(defs, fs)
    ensures |r| == |fs|
  {
    if fs == [] then [] else
      var before, f := fs[..|fs| - 1], fs[|fs| - 1];
      InSlots(defs, before) + [InSlot(defs, f.ty, |LeavesOfAll(defs, before)|, |LeavesOf(defs, f.ty)|)]
  }

  function OutSlots(defs: Defs, fs: seq<Field>): (r: seq<OutExpr>)
    ensures |r| == |fs|
  {
    seq(|fs|, i requires 0 <= i < |fs| => OutSlot(defs, fs[i].ty))
  }

  function Times<T>(n: nat, x: T): (r: seq<T>)
    ensures |r| == n && forall i :: 0 <= i < n ==> r[i] == x
  {
    seq(n, i => x)
  }

  /** The elements of an array, as so many fields. */
  function Copies(n: nat, e: Type): (fs: seq<Field>)
    ensures |fs| == n
  {
    Times(n, Field("", true, e))
  }

  /** The fan of an accepted type that is not passed through. */
  ghost function FanOf(defs: Defs, t: Type): FanFn
    requires Accepted(defs, t)
  {
    AcceptedParts(defs, t);
    FanFn(t, LeavesOf(defs, t),
      match Underlying(defs, t)
      case Basic(k) => if k.Bool? || k.String? then Converted else Numbered(k)
      case Slice(e) => if IsByte(e) then Blob else Hybrid
      case Array(n, e) =>
        if IsByte(e) then Filled(n)
        else if ElementWise(n, ShapeOf(defs, e)) then ArrayOf(InSlots(defs, Copies(n, e)), OutSlots(defs, Copies(n, e)))
        else Hybrid
      case Struct(fs) =>
        assert AllAccepted(defs, Live(fs)) by { AcceptedStruct(defs, t, fs); }
        StructOf(InSlots(defs, Live(fs)), OutSlots(defs, Live(fs)))
      case Pointer(e) => PointerTo(e, InSlot(defs, e, 1, |LeavesOf(defs, e)|), OutSlot(defs, e))
      case _ => Hybrid)
  }

  // ----------------------------------------------------------- the program

  /** Everything emitted so far. */
  datatype Program = Program(fans: map<string, FanFn>, hybrids: map<string, HybridFn>, helpers: map<string, HelperFn>)

  predicate HasHelper(defs: Defs, p: Program, t: Type) {
    AccessOf(defs, t).ViaHelper? ==> Shown(defs, t) in p.helpers && p.helpers[Shown(defs, t)].ty == t
  }

  predicate HasHybrid(defs: Defs, p: Program, t: Type) {
    Shown(defs, t) in p.hybrids && p.hybrids[Shown(defs, t)].ty == t
  }

  predicate HasFan(defs: Defs, p: Program, t: Type) {
    !Passthrough(t) ==> Shown(defs, t) in p.fans && p.fans[Shown(defs, t)].ty == t
  }

  /** Every emitted function is the right one for its type and calls functions written
      for what it calls them for. */
  ghost predicate HelpersOk(defs: Defs, p: Program) {
    forall s <- p.helpers :: HelperOk(defs, p, s, p.helpers[s])
  }

  ghost predicate HelperOk(defs: Defs, p: Program, s: string, fn: HelperFn) {
    && Shown(defs, fn.ty) == s && Accepted(defs, fn.ty) && Composite(defs, fn.ty)
    && fn == HelperFn(fn.ty, BodyOf(defs, fn.ty), BodyOf(defs, fn.ty))
    && forall u <- Parts(defs, fn.ty) :: HasHelper(defs, p, u)
  }

  ghost predicate HybridsOk(defs: Defs, p: Program) {
    forall s <- p.hybrids :: HybridOk(defs, p, s, p.hybrids[s])
  }

  ghost predicate HybridOk(defs: Defs, p: Program, s: string, fn: HybridFn) {
    && Shown(defs, fn.ty) == s && Accepted(defs, fn.ty)
    && fn == HybridFn(fn.ty, AccessOf(defs, fn.ty), AccessOf(defs, fn.ty))
    && HasHelper(defs, p, fn.ty)
  }

  /** What a fan calls has been emitted. */
  ghost predicate CallsEmitted(defs: Defs, p: Program, t: Type, fn: FanFn) {
    match fn.body
    case Hybrid => HasHybrid(defs, p, t)
    case ArrayOf(_, _) => forall u <- Parts(defs, t) :: HasFan(defs, p, u)
    case StructOf(_, _) => forall u <- Parts(defs, t) :: HasFan(defs, p, u)
    case PointerTo(_, _, _) => forall u <- Parts(defs, t) :: HasFan(defs, p, u)
    case _ => true
  }

  ghost predicate FansOk(defs: Defs, p: Program) {
    forall s <- p.fans :: FanOk(defs, p, s, p.fans[s])
  }

  ghost predicate FanOk(defs: Defs, p: Program, s: string, fn: FanFn) {
    && Shown(defs, fn.ty) == s && Accepted(defs, fn.ty) && !Passthrough(fn.ty)
    && fn == FanOf(defs, fn.ty)
    && CallsEmitted(defs, p, fn.ty, fn)
  }

  ghost predicate ProgramOk(defs: Defs, p: Program) {
    WellFormed(defs) && HelpersOk(defs, p) && HybridsOk(defs, p) && FansOk(defs, p)
  }

  /** q holds every function of p, unchanged. */
  ghost predicate Extends(p: Program, q: Program) {
    && (forall s <- p.fans :: s in q.fans && q.fans[s] == p.fans[s])
    && (forall s <- p.hybrids :: s in q.hybrids && q.hybrids[s] == p.hybrids[s])
    && (forall s <- p.helpers :: s in q.helpers && q.helpers[s] == p.helpers[s])
  }

  // -------------------------------------------------------------- running it

  /** Running a read: none when a function is missing or calls nest deeper than d. */
  ghost function RunRead(p: Program, a: Access, b: Bytes, d: nat): Option<(Value, Bytes)>
    decreases d, 0
  {
    match a
    case ViaBasic(k) => if k.Unsupported? then None else Some(Read(BasicShape(k).value, b))
    case ViaBlob => Some(Read(SBytes, b))
    case ViaHelper(t) =>
      if d == 0 || t !in p.helpers then None else
        match p.helpers[t].read
        case OfStruct(parts) =>
          var r := RunReads(p, parts, b, d - 1);
          if r.None? then None else Some((VStruct(r.value.0), r.value.1))
        case OfSlice(part) =>
          var (x, rest) := ReadFixed(1, b);
          var n := Min(x[0], |rest|);
          if n == 0 then Some((VSlice(true, []), rest)) else
            var r := RunReads(p, Times(n, part), rest, d - 1);
            if r.None? then None else Some((VSlice(false, r.value.0), r.value.1))
        case OfArray(n, part) =>
          var r := RunReads(p, Times(n, part), b, d - 1);
          if r.None? then None else Some((VArray(r.value.0), r.value.1))
        case OfPointer(part) =>
          var (x, rest) := ReadFixed(1, b);
          if x[0] == 0 then Some((VNil, rest)) else
            var r := RunRead(p, part, rest, d - 1);
            if r.None? then None else Some((VPointer(r.value.0), r.value.1))
  }

  ghost function RunReads(p: Program, parts: seq<Access>, b: Bytes, d: nat): Option<(seq<Value>, Bytes)>
    decreases d, 1, |parts|
  {
    if parts == [] then Some(([], b)) else
      var r := RunRead(p, parts[0], b, d);
      if r.None? then None else
        var rs := RunReads(p, parts[1..], r.value.1, d);
        if rs.None? then None else Some(([r.value.0] + rs.value.0, rs.value.1))
  }

  ghost function RunWrite(p: Program, a: Access, v: Value, d: nat): Option<Bytes>
    decreases d, 0
  {
    match a
    case ViaBasic(k) =>
      if k.Unsupported? || !Has(BasicShape(k).value, v) then None else Some(Write(BasicShape(k).value, v))
    case ViaBlob => if Has(SBytes, v) then Some(Write(SBytes, v)) else None
    case ViaHelper(t) =>
      if d == 0 || t !in p.helpers then None else
        match p.helpers[t].write
        case OfStruct(parts) =>
          if !v.VStruct? || |v.fields| != |parts| then None else RunWrites(p, parts, v.fields, d - 1)
        case OfSlice(part) =>
          if !v.VSlice? then None else
            var k := Min(|v.elems|, MAX_COUNT);
            var r := RunWrites(p, Times(k, part), v.elems[..k], d - 1);
            if r.None? then None else Some([k] + r.value)
        case OfArray(n, part) =>
          if !v.VArray? || |v.elems| != n then None else RunWrites(p, Times(n, part), v.elems, d - 1)
        case OfPointer(part) =>
          if v.VNil? then Some([0]) else if !v.VPointer? then None else
            var r := RunWrite(p, part, v.target, d - 1);
            if r.None? then None else Some([1] + r.value)
  }

  ghost function RunWrites(p: Program, parts: seq<Access>, vs: seq<Value>, d: nat): Option<Bytes>
    requires |parts| == |vs|
    decreases d, 1, |parts|
  {
    if parts == [] then Some([]) else
      var r, rs := RunWrite(p, parts[0], vs[0], d), RunWrites(p, parts[1..], vs[1..], d);
      if r.None? || rs.None? then None else Some(r.value + rs.value)
  }

  /** The leaves an expression yields for a value. */
  ghost function RunOut(defs: Defs, p: Program, e: OutExpr, v: Value, d: nat): Option<seq<Leaf>>
    decreases d, 0
  {
    match e
    case AsLeaf =>
      (match v
       case VBool(b) => Some([LBool(b)])
       case VString(s) => Some([LString(s)])
       case VBytes(isNil, data) => Some([LBytes(isNil, data)])
       case _ => None)
    case CallOut(t) =>
      if d == 0 || t !in p.fans then None else
        match p.fans[t].body
        case Converted =>
          if v.VBool? then Some([LBool(v.b)]) else if v.VString? then Some([LString(v.s)]) else None
        case Numbered(_) => if v.VNumber? then Some([LBytes(false, v.bits)]) else None
        case Blob => if v.VBytes? then Some([LBytes(v.isNil, v.data)]) else None
        case Filled(n) =>
          if v.VArray? && AreBytes(v.elems) then Some([LBytes(v.elems == [], BytesOf(v.elems))]) else None
        case Hybrid =>
          if t !in p.hybrids then None else
            var w := RunWrite(p, p.hybrids[t].enc, v, d - 1);
            if w.None? then None else Some([LBytes(w.value == [], w.value)])
        case ArrayOf(_, outs) =>
          if !v.VArray? || |v.elems| != |outs| then None else RunOuts(defs, p, outs, v.elems, d - 1)
        case StructOf(_, outs) =>
          if !v.VStruct? || |v.fields| != |outs| then None else RunOuts(defs, p, outs, v.fields, d - 1)
        case PointerTo(zero, _, pout) =>
          if v.VNil? && Accepted(defs, zero) then
            Flagged(false, RunOut(defs, p, pout, Zero(ShapeOf(defs, zero)), d - 1))
          else if v.VPointer? then Flagged(true, RunOut(defs, p, pout, v.target, d - 1))
          else None
  }

  function Flagged(b: bool, r: Option<seq<Leaf>>): Option<seq<Leaf>> {
    if r.None? then None else Some([LBool(b)] + r.value)
  }

  ghost function RunOuts(defs: Defs, p: Program, es: seq<OutExpr>, vs: seq<Value>, d: nat): Option<seq<Leaf>>
    requires |es| == |vs|
    decreases d, 1, |es|
  {
    if es == [] then Some([]) else
      var r, rs := RunOut(defs, p, es[0], vs[0], d), RunOuts(defs, p, es[1..], vs[1..], d);
      if r.None? || rs.None? then None else Some(r.value + rs.value)
  }

  /** The value a fan-in expression makes of the leaf variables. */
  ghost function RunIn(p: Program, e: InExpr, ls: seq<Leaf>, d: nat): Option<Value>
    decreases d, 0
  {
    match e
    case Arg(at) =>
      if at >= |ls| then None else
        (match ls[at]
         case LBool(b) => Some(VBool(b))
         case LString(s) => Some(VString(s))
         case LBytes(isNil, data) => Some(VBytes(isNil, data)))
    case BlobArg(at) =>
      if at < |ls| && ls[at].LBytes? then Some(VBytes(ls[at].data == [], ls[at].data)) else None
    case CallIn(t, at, n) =>
      if d == 0 || t !in p.fans || at + n > |ls| || p.fans[t].params != Kinds(ls[at..at + n]) then None
      else RunBody(p, t, ls[at..at + n], d)
  }

  ghost function RunBody(p: Program, t: string, args: seq<Leaf>, d: nat): Option<Value>
    requires t in p.fans && d > 0
    decreases d - 1, 2
  {
    match p.fans[t].body
    case Converted =>
      if |args| != 1 || args[0].LBytes? then None
      else if args[0].LBool? then Some(VBool(args[0].b)) else Some(VString(args[0].s))
    case Numbered(k) => if OneBlob(args) then Some(VNumber(Fit(args[0].data, k.Width()))) else None
    case Blob => if OneBlob(args) then Some(VBytes(args[0].data == [], args[0].data)) else None
    case Filled(len) => if OneBlob(args) then Some(VArray(ElemsOf(Fit(args[0].data, len)))) else None
    case Hybrid =>
      if !OneBlob(args) || t !in p.hybrids then None else
        var r := RunRead(p, p.hybrids[t].dec, args[0].data, d - 1);
        if r.None? then None else Some(r.value.0)
    case ArrayOf(ins, _) =>
      var r := RunIns(p, ins, args, d - 1); if r.None? then None else Some(VArray(r.value))
    case StructOf(ins, _) =>
      var r := RunIns(p, ins, args, d - 1); if r.None? then None else Some(VStruct(r.value))
    case PointerTo(_, pin, _) =>
      if args == [] || !args[0].LBool? then None else if !args[0].b then Some(VNil) else
        var r := RunIn(p, pin, args, d - 1);
        if r.None? then None else Some(VPointer(r.value))
  }

  predicate OneBlob(ls: seq<Leaf>) {
    |ls| == 1 && ls[0].LBytes?
  }

  ghost function RunIns(p: Program, es: seq<InExpr>, ls: seq<Leaf>, d: nat): Option<seq<Value>>
    decreases d, 1, |es|
  {
    if es == [] then Some([]) else
      var rs, r := RunIns(p, es[..|es| - 1], ls, d), RunIn(p, es[|es| - 1], ls, d);
      if rs.None? || r.None? then None else Some(rs.value + [r.value])
  }

  // ------------------------------------------------------ what it computes

  /** How deep the calls for a value of the shape nest. */
  function Height(s: Shape): nat {
    match s
    case SByteArray(_) => 1
    case SSlice(e) => Height(e) + 1
    case SArray(_, e) => Height(e) + 1
    case SStruct(fs) => TallestOf(fs) + 1
    case SPointer(e) => Height(e) + 1
    case _ => 0
  }

  function TallestOf(fs: seq<Shape>): (h: nat)
    ensures forall f <- fs :: Height(f) <= h
  {
    if fs == [] then 0 else
      var h, rest := Height(fs[0]), TallestOf(fs[1..]);
      if h < rest then rest else h
  }

  lemma HelperIs(defs: Defs, p: Program, t: Type)
    requires ProgramOk(defs, p) && HasHelper(defs, p, t) && AccessOf(defs, t).ViaHelper?
    ensures Shown(defs, t) in p.helpers && Composite(defs, t)
      && p.helpers[Shown(defs, t)] == HelperFn(t, BodyOf(defs, t), BodyOf(defs, t))
    ensures forall u <- Parts(defs, t) :: HasHelper(defs, p, u)
  {
  }

  /** The emitted read of a type is the codec's read of its shape. */
  lemma {:induction false} EmittedReads(defs: Defs, p: Program, t: Type, b: Bytes, d: nat)
    requires ProgramOk(defs, p) && Accepted(defs, t) && HasHelper(defs, p, t)
    requires Height(ShapeOf(defs, t)) <= d
    ensures RunRead(p, AccessOf(defs, t), b, d) == Some(Read(ShapeOf(defs, t), b))
    decreases d, 2
  {
    AcceptedParts(defs, t);
    if AccessOf(defs, t).ViaHelper? {
      HelperIs(defs, p, t);
      hide ProgramOk;
      EmittedHelperReads(defs, p, t, b, d);
    } else {
      hide ProgramOk, Live, HasHelper;
      if Underlying(defs, t).Slice? {
        AcceptedElem(defs, t, Underlying(defs, t).elem);
      } else {
        AcceptedLeaf(defs, t);
      }
    }
  }

  lemma HeightOfByteArray()
    ensures forall n :: Height(SByteArray(n)) == 1
  {
  }

  lemma StructHelperIs(defs: Defs, p: Program, t: Type, fs: seq<Field>)
    requires Accepted(defs, t) && Underlying(defs, t) == Struct(fs)
    requires forall u <- Parts(defs, t) :: HasHelper(defs, p, u)
    ensures AllAccepted(defs, Live(fs)) && forall f <- Live(fs) :: HasHelper(defs, p, f.ty)
    ensures ShapeOf(defs, t) == SStruct(FieldShapes(defs, Live(fs)))
  {
    AcceptedStruct(defs, t, fs);
    PartsAreFields(defs, t, fs);
  }

  lemma {:induction false} EmittedHelperReads(defs: Defs, p: Program, t: Type, b: Bytes, d: nat)
    requires ProgramOk(defs, p) && Accepted(defs, t) && AccessOf(defs, t).ViaHelper?
    requires Shown(defs, t) in p.helpers && Composite(defs, t) && p.helpers[Shown(defs, t)].read == BodyOf(defs, t)
    requires forall u <- Parts(defs, t) :: HasHelper(defs, p, u)
    requires Height(ShapeOf(defs, t)) <= d
    ensures RunRead(p, ViaHelper(Shown(defs, t)), b, d) == Some(Read(ShapeOf(defs, t), b))
    decreases d, 1
  {
    HeightOfByteArray();
    hide ProgramOk, Live, HasHelper, RunRead, Read, Height;
    var u := Underlying(defs, t);
    if u.Struct? {
      StructHelperIs(defs, p, t, u.fields);
      StructReads(defs, p, Shown(defs, t), Live(u.fields), b, d);
    } else {
      AcceptedElem(defs, t, u.elem);
      match u
      case Slice(e) => SliceReads(defs, p, Shown(defs, t), e, b, d);
      case Array(n, e) =>
        if IsByte(e) {
          ByteArrayReads(p, Shown(defs, t), n, b, d);
        } else {
          ArrayReads(defs, p, Shown(defs, t), n, e, b, d);
        }
      case Pointer(e) => PointerReads(defs, p, Shown(defs, t), e, b, d);
    }
  }

  lemma {:induction false} StructReads(defs: Defs, p: Program, callee: string, fs: seq<Field>, b: Bytes, d: nat)
    requires ProgramOk(defs, p) && AllAccepted(defs, fs) && forall f <- fs :: HasHelper(defs, p, f.ty)
    requires callee in p.helpers && p.helpers[callee].read == OfStruct(AccessesOf(defs, fs))
    requires Height(SStruct(FieldShapes(defs, fs))) <= d
    ensures RunRead(p, ViaHelper(callee), b, d) == Some(Read(SStruct(FieldShapes(defs, fs)), b))
    decreases d, 0
  {
    hide ProgramOk, HasHelper, FieldShapes, AccessesOf, ReadBlob, ReadFixed, Fit, ElemsOf, BasicShape, ReadAll,
         ReadFields, RunReads;
    EmittedReadsAll(defs, p, fs, b, d - 1);
  }

  lemma {:induction false} SliceReads(defs: Defs, p: Program, callee: string, e: Type, b: Bytes, d: nat)
    requires ProgramOk(defs, p) && Accepted(defs, e) && HasHelper(defs, p, e)
    requires callee in p.helpers && p.helpers[callee].read == OfSlice(AccessOf(defs, e))
    requires Height(SSlice(ShapeOf(defs, e))) <= d
    ensures RunRead(p, ViaHelper(callee), b, d) == Some(Read(SSlice(ShapeOf(defs, e)), b))
    decreases d, 0
  {
    hide ProgramOk, HasHelper, ShapeOf, AccessOf, Accepted, ReadBlob, ReadFixed, Fit, ElemsOf, BasicShape, ReadAll,
         ReadFields, RunReads;
    var (x, rest) := ReadFixed(1, b);
    EmittedReadsCopies(defs, p, e, Min(x[0], |rest|), rest, d - 1);
  }

  lemma {:induction false} ArrayReads(defs: Defs, p: Program, callee: string, n: nat, e: Type, b: Bytes, d: nat)
    requires ProgramOk(defs, p) && Accepted(defs, e) && HasHelper(defs, p, e)
    requires callee in p.helpers && p.helpers[callee].read == OfArray(n, AccessOf(defs, e))
    requires Height(SArray(n, ShapeOf(defs, e))) <= d
    ensures RunRead(p, ViaHelper(callee), b, d) == Some(Read(SArray(n, ShapeOf(defs, e)), b))
    decreases d, 0
  {
    hide ProgramOk, HasHelper, ShapeOf, AccessOf, Accepted, ReadBlob, ReadFixed, Fit, ElemsOf, BasicShape, ReadAll,
         ReadFields, RunReads;
    EmittedReadsCopies(defs, p, e, n, b, d - 1);
  }

  lemma ByteArrayReads(p: Program, callee: string, n: nat, b: Bytes, d: nat)
    requires callee in p.helpers && p.helpers[callee].read == OfArray(n, ViaBasic(Uint8)) && d > 0
    ensures RunRead(p, ViaHelper(callee), b, d) == Some(Read(SByteArray(n), b))
  {
    ByteReadsFit(p, n, b, d - 1);
  }

  lemma {:induction false} PointerReads(defs: Defs, p: Program, callee: string, e: Type, b: Bytes, d: nat)
    requires ProgramOk(defs, p) && Accepted(defs, e) && HasHelper(defs, p, e)
    requires callee in p.helpers && p.helpers[callee].read == OfPointer(AccessOf(defs, e))
    requires Height(SPointer(ShapeOf(defs, e))) <= d
    ensures RunRead(p, ViaHelper(callee), b, d) == Some(Read(SPointer(ShapeOf(defs, e)), b))
    decreases d, 0
  {
    hide ProgramOk, HasHelper, ShapeOf, AccessOf, Accepted, ReadBlob, ReadFixed, Fit, ElemsOf, BasicShape, ReadAll,
         ReadFields, RunReads;
    EmittedReads(defs, p, e, ReadFixed(1, b).1, d - 1);
  }

  lemma {:induction false} EmittedReadsAll(defs: Defs, p: Program, fs: seq<Field>, b: Bytes, d: nat)
    requires ProgramOk(defs, p) && AllAccepted(defs, fs) && forall f <- fs :: HasHelper(defs, p, f.ty)
    requires TallestOf(FieldShapes(defs, fs)) <= d
    ensures RunReads(p, AccessesOf(defs, fs), b, d) == Some(ReadFields(FieldShapes(defs, fs), b))
    decreases d, 3, |fs|
  {
    hide ProgramOk, AccessOf, HasHelper;
    if fs != [] {
      assert AccessesOf(defs, fs)[1..] == AccessesOf(defs, fs[1..]);
      assert FieldShapes(defs, fs)[1..] == FieldShapes(defs, fs[1..]);
      EmittedReads(defs, p, fs[0].ty, b, d);
      EmittedReadsAll(defs, p, fs[1..], Read(ShapeOf(defs, fs[0].ty), b).1, d);
    }
  }

  lemma {:induction false} EmittedReadsCopies(defs: Defs, p: Program, e: Type, n: nat, b: Bytes, d: nat)
    requires ProgramOk(defs, p) && Accepted(defs, e) && HasHelper(defs, p, e)
    requires Height(ShapeOf(defs, e)) <= d
    ensures RunReads(p, Times(n, AccessOf(defs, e)), b, d) == Some(ReadAll(ShapeOf(defs, e), n, b))
    decreases d, 3, n
  {
    hide ProgramOk, AccessOf, HasHelper;
    if n > 0 {
      assert Times(n, AccessOf(defs, e))[1..] == Times(n - 1, AccessOf(defs, e));
      EmittedReads(defs, p, e, b, d);
      EmittedReadsCopies(defs, p, e, n - 1, Read(ShapeOf(defs, e), b).1, d);
    }
  }

  lemma FitAt(b: Bytes, n: nat)
    ensures forall i :: 0 <= i < n ==> Fit(b, n)[i] == if i < |b| then b[i] else 0
  {
  }

  lemma FirstByteFits(b: Bytes, n: nat)
    requires n > 0
    ensures var (x, rest) := ReadFixed(1, b);
      && ElemsOf(Fit(b, n)) == [VNumber(x)] + ElemsOf(Fit(rest, n - 1))
      && rest[Min(n - 1, |rest|)..] == b[Min(n, |b|)..]
  {
    var (x, rest) := ReadFixed(1, b);
    FitAt(b, n);
    FitAt(rest, n - 1);
    hide Fit;
    assert Fit(b, n) == x + Fit(rest, n - 1);
    assert x == [x[0]] && ElemsOf(x) == [VNumber(x)];
    assert ElemsOf(x + Fit(rest, n - 1)) == ElemsOf(x) + ElemsOf(Fit(rest, n - 1));
    assert rest[Min(n - 1, |rest|)..] == b[Min(n, |b|)..];
  }

  /** Byte by byte, a byte array is read as one copy. */
  lemma {:induction false} ByteReadsFit(p: Program, n: nat, b: Bytes, d: nat)
    ensures RunReads(p, Times(n, ViaBasic(Uint8)), b, d) == Some((ElemsOf(Fit(b, n)), b[Min(n, |b|)..]))
    decreases n
  {
    if n > 0 {
      FirstByteFits(b, n);
      hide Fit, ElemsOf, ReadFixed;
      assert Times(n, ViaBasic(Uint8))[1..] == Times(n - 1, ViaBasic(Uint8));
      ByteReadsFit(p, n - 1, ReadFixed(1, b).1, d);
    }
  }

  /** The emitted write of a type is the codec's write of its shape. */
  lemma {:induction false} EmittedWrites(defs: Defs, p: Program, t: Type, v: Value, d: nat)
    requires ProgramOk(defs, p) && Accepted(defs, t) && HasHelper(defs, p, t)
    requires Has(ShapeOf(defs, t), v) && Height(ShapeOf(defs, t)) <= d
    ensures RunWrite(p, AccessOf(defs, t), v, d) == Some(Write(ShapeOf(defs, t), v))
    decreases d, 2
  {
    AcceptedParts(defs, t);
    if AccessOf(defs, t).ViaHelper? {
      HelperIs(defs, p, t);
      EmittedHelperWrites(defs, p, t, v, d);
    } else {
      hide ProgramOk, Live, HasHelper;
      if Underlying(defs, t).Slice? {
        AcceptedElem(defs, t, Underlying(defs, t).elem);
      } else {
        AcceptedLeaf(defs, t);
      }
    }
  }

  lemma {:induction false} EmittedHelperWrites(defs: Defs, p: Program, t: Type, v: Value, d: nat)
    requires ProgramOk(defs, p) && Accepted(defs, t) && AccessOf(defs, t).ViaHelper?
    requires Shown(defs, t) in p.helpers && Composite(defs, t) && p.helpers[Shown(defs, t)].write == BodyOf(defs, t)
    requires forall u <- Parts(defs, t) :: HasHelper(defs, p, u)
    requires Has(ShapeOf(defs, t), v) && Height(ShapeOf(defs, t)) <= d
    ensures RunWrite(p, ViaHelper(Shown(defs, t)), v, d) == Some(Write(ShapeOf(defs, t), v))
    decreases d, 1
  {
    HeightOfByteArray();
    hide ProgramOk, Live, HasHelper, RunWrite, Write, Height, Has;
    var u := Underlying(defs, t);
    if u.Struct? {
      StructHelperIs(defs, p, t, u.fields);
      StructWrites(defs, p, Shown(defs, t), Live(u.fields), v, d);
    } else {
      AcceptedElem(defs, t, u.elem);
      match u
      case Slice(e) => SliceWrites(defs, p, Shown(defs, t), e, v, d);
      case Array(n, e) =>
        if IsByte(e) {
          ByteArrayWrites(p, Shown(defs, t), n, v, d);
        } else {
          ArrayWrites(defs, p, Shown(defs, t), n, e, v, d);
        }
      case Pointer(e) => PointerWrites(defs, p, Shown(defs, t), e, v, d);
    }
  }

  lemma FieldsCount(defs: Defs, fs: seq<Field>)
    requires AllAccepted(defs, fs)
    ensures |FieldShapes(defs, fs)| == |fs|
  {
  }

  lemma {:induction false} StructWrites(defs: Defs, p: Program, callee: string, fs: seq<Field>, v: Value, d: nat)
    requires ProgramOk(defs, p) && AllAccepted(defs, fs) && forall f <- fs :: HasHelper(defs, p, f.ty)
    requires callee in p.helpers && p.helpers[callee].write == OfStruct(AccessesOf(defs, fs))
    requires Has(SStruct(FieldShapes(defs, fs)), v) && Height(SStruct(FieldShapes(defs, fs))) <= d
    ensures RunWrite(p, ViaHelper(callee), v, d) == Some(Write(SStruct(FieldShapes(defs, fs)), v))
    decreases d, 0
  {
    hide ProgramOk, HasHelper, FieldShapes, AccessesOf, WriteBlob, BytesOf, BasicShape, WriteAll, WriteFields,
         RunWrites;
    FieldsCount(defs, fs);
    EmittedWritesAll(defs, p, fs, v.fields, d - 1);
  }

  lemma {:induction false} SliceWrites(defs: Defs, p: Program, callee: string, e: Type, v: Value, d: nat)
    requires ProgramOk(defs, p) && Accepted(defs, e) && HasHelper(defs, p, e)
    requires callee in p.helpers && p.helpers[callee].write == OfSlice(AccessOf(defs, e))
    requires Has(SSlice(ShapeOf(defs, e)), v) && Height(SSlice(ShapeOf(defs, e))) <= d
    ensures RunWrite(p, ViaHelper(callee), v, d) == Some(Write(SSlice(ShapeOf(defs, e)), v))
    decreases d, 0
  {
    hide ProgramOk, HasHelper, ShapeOf, AccessOf, Accepted, WriteBlob, BytesOf, BasicShape, WriteAll, WriteFields,
         RunWrites;
    EmittedWritesCopies(defs, p, e, v.elems[..Min(|v.elems|, MAX_COUNT)], d - 1);
  }

  lemma {:induction false} ArrayWrites(defs: Defs, p: Program, callee: string, n: nat, e: Type, v: Value, d: nat)
    requires ProgramOk(defs, p) && Accepted(defs, e) && HasHelper(defs, p, e)
    requires callee in p.helpers && p.helpers[callee].write == OfArray(n, AccessOf(defs, e))
    requires Has(SArray(n, ShapeOf(defs, e)), v) && Height(SArray(n, ShapeOf(defs, e))) <= d
    ensures RunWrite(p, ViaHelper(callee), v, d) == Some(Write(SArray(n, ShapeOf(defs, e)), v))
    decreases d, 0
  {
    hide ProgramOk, HasHelper, ShapeOf, AccessOf, Accepted, WriteBlob, BytesOf, BasicShape, WriteAll, WriteFields,
         RunWrites;
    EmittedWritesCopies(defs, p, e, v.elems, d - 1);
  }

  lemma ByteArrayWrites(p: Program, callee: string, n: nat, v: Value, d: nat)
    requires callee in p.helpers && p.helpers[callee].write == OfArray(n, ViaBasic(Uint8))
    requires Has(SByteArray(n), v) && d > 0
    ensures RunWrite(p, ViaHelper(callee), v, d) == Some(Write(SByteArray(n), v))
  {
    BytesWritten(p, v.elems, d - 1);
  }

  lemma {:induction false} PointerWrites(defs: Defs, p: Program, callee: string, e: Type, v: Value, d: nat)
    requires ProgramOk(defs, p) && Accepted(defs, e) && HasHelper(defs, p, e)
    requires callee in p.helpers && p.helpers[callee].write == OfPointer(AccessOf(defs, e))
    requires Has(SPointer(ShapeOf(defs, e)), v) && Height(SPointer(ShapeOf(defs, e))) <= d
    ensures RunWrite(p, ViaHelper(callee), v, d) == Some(Write(SPointer(ShapeOf(defs, e)), v))
    decreases d, 0
  {
    hide ProgramOk, HasHelper, ShapeOf, AccessOf, Accepted, WriteBlob, BytesOf, BasicShape, WriteAll, WriteFields,
         RunWrites;
    if v.VPointer? {
      EmittedWrites(defs, p, e, v.target, d - 1);
    }
  }

  lemma {:induction false} EmittedWritesAll(defs: Defs, p: Program, fs: seq<Field>, vs: seq<Value>, d: nat)
    requires ProgramOk(defs, p) && AllAccepted(defs, fs) && forall f <- fs :: HasHelper(defs, p, f.ty)
    requires |vs| == |fs| && forall i :: 0 <= i < |fs| ==> Has(FieldShapes(defs, fs)[i], vs[i])
    requires TallestOf(FieldShapes(defs, fs)) <= d
    ensures RunWrites(p, AccessesOf(defs, fs), vs, d) == Some(WriteFields(FieldShapes(defs, fs), vs))
    decreases d, 3, |fs|
  {
    hide ProgramOk, AccessOf, HasHelper;
    if fs != [] {
      assert AccessesOf(defs, fs)[1..] == AccessesOf(defs, fs[1..]);
      assert FieldShapes(defs, fs)[1..] == FieldShapes(defs, fs[1..]);
      EmittedWrites(defs, p, fs[0].ty, vs[0], d);
      EmittedWritesAll(defs, p, fs[1..], vs[1..], d);
    }
  }

  lemma {:induction false} EmittedWritesCopies(defs: Defs, p: Program, e: Type, vs: seq<Value>, d: nat)
    requires ProgramOk(defs, p) && Accepted(defs, e) && HasHelper(defs, p, e)
    requires Height(ShapeOf(defs, e)) <= d && forall v <- vs :: Has(ShapeOf(defs, e), v)
    ensures RunWrites(p, Times(|vs|, AccessOf(defs, e)), vs, d) == Some(WriteAll(ShapeOf(defs, e), vs))
    decreases d, 3, |vs|
  {
    hide ProgramOk, AccessOf, HasHelper;
    if vs != [] {
      assert Times(|vs|, AccessOf(defs, e))[1..] == Times(|vs| - 1, AccessOf(defs, e));
      EmittedWrites(defs, p, e, vs[0], d);
      EmittedWritesCopies(defs, p, e, vs[1..], d);
    }
  }

  lemma {:induction false} BytesWritten(p: Program, vs: seq<Value>, d: nat)
    requires AreBytes(vs)
    ensures RunWrites(p, Times(|vs|, ViaBasic(Uint8)), vs, d) == Some(BytesOf(vs))
    decreases |vs|
  {
    if vs != [] {
      assert Times(|vs|, ViaBasic(Uint8))[1..] == Times(|vs| - 1, ViaBasic(Uint8));
      BytesWritten(p, vs[1..], d);
      assert BytesOf(vs) == vs[0].bits + BytesOf(vs[1..]);
    }
  }

  // ------------------------------------------------------------- the fans

  lemma PassthroughIs(defs: Defs, t: Type)
    requires Passthrough(t)
    ensures Accepted(defs, t) && LeavesOf(defs, t) == [PassthroughParam(t)]
    ensures ShapeOf(defs, t) == if t == Basic(Bool) then SBool else if t == Basic(String) then SString else SBytes
  {
    if t.Slice? {
      AcceptedLeaf(defs, Basic(Uint8));
      AcceptedElem(defs, t, Basic(Uint8));
    } else {
      AcceptedLeaf(defs, t);
    }
  }

  lemma {:induction false} OutCopies(e: Shape, vs: seq<Value>)
    requires forall v <- vs :: Has(e, v)
    ensures OutAll(e, vs) == OutFields(Times(|vs|, e), vs)
    decreases |vs|
  {
    if vs != [] {
      assert Times(|vs|, e)[1..] == Times(|vs| - 1, e);
      OutCopies(e, vs[1..]);
    }
  }

  lemma {:induction false} LeavesOfCopies(e: Shape, n: nat)
    ensures LeavesOfFields(Times(n, e)) == Repeat(n, Leaves(e))
  {
    if n > 0 {
      assert Times(n, e)[1..] == Times(n - 1, e);
      LeavesOfCopies(e, n - 1);
    }
  }

  lemma {:induction false} InCopies(e: Shape, n: nat, ls: seq<Leaf>)
    requires Kinds(ls) == Repeat(n, Leaves(e))
    ensures Kinds(ls) == LeavesOfFields(Times(n, e)) && InAll(e, n, ls) == InFields(Times(n, e), ls)
  {
    LeavesOfCopies(e, n);
    if n > 0 {
      var k := |Leaves(e)|;
      assert Times(n, e)[1..] == Times(n - 1, e);
      assert Kinds(ls[k..]) == Kinds(ls)[k..] == Repeat(n - 1, Leaves(e));
      InCopies(e, n - 1, ls[k..]);
    }
  }

  lemma CopiesAreAccepted(defs: Defs, n: nat, e: Type)
    requires Accepted(defs, e)
    ensures AllAccepted(defs, Copies(n, e))
    ensures FieldShapes(defs, Copies(n, e)) == Times(n, ShapeOf(defs, e))
    ensures LeavesOfAll(defs, Copies(n, e)) == Repeat(n, LeavesOf(defs, e))
  {
    assert FieldShapes(defs, Copies(n, e)) == Times(n, ShapeOf(defs, e));
    LeavesOfCopies(ShapeOf(defs, e), n);
  }

  lemma {:induction false} TallestOfCopies(e: Shape, n: nat)
    ensures TallestOf(Times(n, e)) <= Height(e)
  {
    if n > 0 {
      assert Times(n, e)[1..] == Times(n - 1, e);
      TallestOfCopies(e, n - 1);
    }
  }

  lemma FanIs(defs: Defs, p: Program, t: Type)
    requires ProgramOk(defs, p) && HasFan(defs, p, t) && !Passthrough(t)
    ensures Shown(defs, t) in p.fans && p.fans[Shown(defs, t)] == FanOf(defs, t)
    ensures Accepted(defs, t) && CallsEmitted(defs, p, t, FanOf(defs, t))
    ensures p.fans[Shown(defs, t)].params == LeavesOf(defs, t) && LeavesOf(defs, t) == Leaves(ShapeOf(defs, t))
  {
    hide CallsEmitted, LeavesOf, Shown, Accepted, Passthrough;
    assert FanOk(defs, p, Shown(defs, t), p.fans[Shown(defs, t)]);
    FanOfHasLeaves(defs, t);
    hide FanOf, HelpersOk, HybridsOk, FansOk;
  }

  lemma FanOfHasLeaves(defs: Defs, t: Type)
    requires Accepted(defs, t)
    ensures FanOf(defs, t).params == LeavesOf(defs, t) == Leaves(ShapeOf(defs, t))
  {
  }

  lemma HybridIs(defs: Defs, p: Program, t: Type)
    requires ProgramOk(defs, p) && HasHybrid(defs, p, t)
    ensures Accepted(defs, t) && HasHelper(defs, p, t)
    ensures p.hybrids[Shown(defs, t)] == HybridFn(t, AccessOf(defs, t), AccessOf(defs, t))
  {
  }

  /** The emitted fan-out of a type yields the leaves of its shape. */
  lemma {:induction false} EmittedFansOut(defs: Defs, p: Program, t: Type, v: Value, d: nat)
    requires ProgramOk(defs, p) && Accepted(defs, t) && HasFan(defs, p, t)
    requires Has(ShapeOf(defs, t), v) && Height(ShapeOf(defs, t)) < d
    ensures RunOut(defs, p, OutSlot(defs, t), v, d) == Some(Out(ShapeOf(defs, t), v))
    decreases d, 2
  {
    hide ProgramOk, Live, HasFan, Height, Has, Out, RunOut, ShapeOf, Accepted, Parts, InSlots, OutSlots;
    if Passthrough(t) {
      LeafFansOut(defs, p, t, v, d);
    } else {
      FanIs(defs, p, t);
      match FanOf(defs, t).body
      case Hybrid => HybridFansOut(defs, p, t, v, d);
      case ArrayOf(_, _) =>
        var Array(n, e) := Underlying(defs, t);
        ArrayFanIs(defs, p, t, n, e);
        ArrayFansOut(defs, p, Shown(defs, t), n, e, v, d);
      case StructOf(_, _) =>
        var fs := Underlying(defs, t).fields;
        StructFanIs(defs, p, t, fs);
        StructFansOut(defs, p, Shown(defs, t), Live(fs), v, d);
      case PointerTo(e, _, _) =>
        PointerFanIs(defs, p, t, e);
        PointerFansOut(defs, p, Shown(defs, t), e, v, d);
      case _ => OneLeafOut(defs, p, t, v, d);
    }
  }

  lemma LeafFansOut(defs: Defs, p: Program, t: Type, v: Value, d: nat)
    requires Passthrough(t) && Accepted(defs, t) && Has(ShapeOf(defs, t), v)
    ensures RunOut(defs, p, AsLeaf, v, d) == Some(Out(ShapeOf(defs, t), v))
  {
    PassthroughIs(defs, t);
    hide Accepted, ShapeOf, LeavesOf;
  }

  lemma OneLeafOut(defs: Defs, p: Program, t: Type, v: Value, d: nat)
    requires Shown(defs, t) in p.fans && Accepted(defs, t) && p.fans[Shown(defs, t)].body == FanOf(defs, t).body
      && d > 0
    requires var b := FanOf(defs, t).body; b.Converted? || b.Numbered? || b.Blob? || b.Filled?
    requires Has(ShapeOf(defs, t), v)
    ensures RunOut(defs, p, CallOut(Shown(defs, t)), v, d) == Some(Out(ShapeOf(defs, t), v))
  {
    LeafShape(defs, t);
    hide FanOf, ShapeOf, Accepted;
  }

  /** The shapes of the types that fan to one leaf without a codec. */
  lemma LeafShape(defs: Defs, t: Type)
    requires Accepted(defs, t)
    ensures match FanOf(defs, t).body
            case Converted => ShapeOf(defs, t) == SBool || ShapeOf(defs, t) == SString
            case Numbered(k) => ShapeOf(defs, t) == SNumber(k.Width())
            case Blob => ShapeOf(defs, t) == SBytes
            case Filled(n) => ShapeOf(defs, t) == SByteArray(n)
            case _ => true
  {
    hide Live;
    AcceptedParts(defs, t);
    match Underlying(defs, t)
    case Basic(_) => AcceptedLeaf(defs, t);
    case Slice(e) => AcceptedElem(defs, t, e);
    case Array(_, e) => AcceptedElem(defs, t, e);
    case _ =>
  }

  /** The shapes of the types that ride as one leaf. */
  lemma HybridShape(defs: Defs, t: Type)
    requires Accepted(defs, t) && FanOf(defs, t).body == Hybrid
    ensures match ShapeOf(defs, t) case SSlice(_) => true case SArray(n, e) => !ElementWise(n, e) case _ => false
  {
    hide Live;
    AcceptedParts(defs, t);
    AcceptedElem(defs, t, Underlying(defs, t).elem);
  }

  lemma HybridFansOut(defs: Defs, p: Program, t: Type, v: Value, d: nat)
    requires ProgramOk(defs, p) && Shown(defs, t) in p.fans && Accepted(defs, t)
      && p.fans[Shown(defs, t)].body == FanOf(defs, t).body == Hybrid
    requires HasHybrid(defs, p, t) && Has(ShapeOf(defs, t), v) && Height(ShapeOf(defs, t)) < d
    ensures RunOut(defs, p, CallOut(Shown(defs, t)), v, d) == Some(Out(ShapeOf(defs, t), v))
  {
    hide ProgramOk, FanOf, AccessOf, HasHelper, Height, Accepted, ShapeOf, Has, Write, RunWrite;
    HybridIs(defs, p, t);
    HybridShape(defs, t);
    EmittedWrites(defs, p, t, v, d - 1);
  }

  lemma ArrayFanIs(defs: Defs, p: Program, t: Type, n: nat, e: Type)
    requires Accepted(defs, t) && Underlying(defs, t) == Array(n, e) && FanOf(defs, t).body.ArrayOf?
    requires forall u <- Parts(defs, t) :: HasFan(defs, p, u)
    ensures Accepted(defs, e) && HasFan(defs, p, e) && AllAccepted(defs, Copies(n, e))
    ensures ShapeOf(defs, t) == SArray(n, ShapeOf(defs, e)) && ElementWise(n, ShapeOf(defs, e))
    ensures FanOf(defs, t).body == ArrayOf(InSlots(defs, Copies(n, e)), OutSlots(defs, Copies(n, e)))
    ensures LeavesOf(defs, t) == Repeat(n, LeavesOf(defs, e))
  {
    AcceptedElem(defs, t, e);
    CopiesAreAccepted(defs, n, e);
    hide InSlots, OutSlots, HasFan, FieldShapes, ShapeOf;
  }

  lemma RunOfArray(defs: Defs, p: Program, callee: string, n: nat, s: Shape, v: Value, args: seq<Leaf>, d: nat)
    requires callee in p.fans && p.fans[callee].body.ArrayOf? && d > 0 && ElementWise(n, s)
    ensures Has(SArray(n, s), v) ==>
      && v.VArray? && |v.elems| == n && (forall x <- v.elems :: Has(s, x)) && Out(SArray(n, s), v) == OutAll(s, v.elems)
    ensures v.VArray? && |v.elems| == |p.fans[callee].body.outs| ==>
      RunOut(defs, p, CallOut(callee), v, d) == RunOuts(defs, p, p.fans[callee].body.outs, v.elems, d - 1)
    ensures var r := RunIns(p, p.fans[callee].body.ins, args, d - 1);
      RunBody(p, callee, args, d) == if r.None? then None else Some(VArray(r.value))
    ensures Leaves(SArray(n, s)) == Repeat(n, Leaves(s))
    ensures Kinds(args) == Repeat(n, Leaves(s)) ==> In(SArray(n, s), args) == VArray(InAll(s, n, args))
    ensures Height(SArray(n, s)) == Height(s) + 1
  {
  }

  lemma {:induction false} ArrayFansOut(defs: Defs, p: Program, callee: string, n: nat, e: Type, v: Value, d: nat)
    requires ProgramOk(defs, p) && Accepted(defs, e) && HasFan(defs, p, e) && AllAccepted(defs, Copies(n, e))
    requires callee in p.fans
      && p.fans[callee].body == ArrayOf(InSlots(defs, Copies(n, e)), OutSlots(defs, Copies(n, e)))
    requires ElementWise(n, ShapeOf(defs, e)) && Has(SArray(n, ShapeOf(defs, e)), v)
    requires Height(SArray(n, ShapeOf(defs, e))) < d
    ensures RunOut(defs, p, CallOut(callee), v, d) == Some(Out(SArray(n, ShapeOf(defs, e)), v))
    decreases d, 1
  {
    hide ProgramOk, HasFan, InSlots, OutSlots, ShapeOf, Accepted, Leaves, Height, Has, Out, RunOut, RunOuts, OutAll,
         OutFields,
      ElementWise, RunBody, RunIns, In, InAll;
    RunOfArray(defs, p, callee, n, ShapeOf(defs, e), v, [], d);
    CopiesFanOut(defs, p, n, e, v.elems, d - 1);
  }

  lemma {:induction false} CopiesFanOut(defs: Defs, p: Program, n: nat, e: Type, vs: seq<Value>, d: nat)
    requires ProgramOk(defs, p) && Accepted(defs, e) && HasFan(defs, p, e) && |vs| == n
    requires (forall v <- vs :: Has(ShapeOf(defs, e), v)) && Height(ShapeOf(defs, e)) < d
    ensures RunOuts(defs, p, OutSlots(defs, Copies(n, e)), vs, d) == Some(OutAll(ShapeOf(defs, e), vs))
    decreases d, 5
  {
    hide ProgramOk, HasFan, ShapeOf, Accepted, Leaves, Height, Has, Out, RunOut, RunOuts, OutAll, OutFields, OutSlots;
    CopiesAreAccepted(defs, n, e);
    TallestOfCopies(ShapeOf(defs, e), n);
    OutCopies(ShapeOf(defs, e), vs);
    EmittedFansOutAll(defs, p, Copies(n, e), vs, d);
  }

  lemma StructFanIs(defs: Defs, p: Program, t: Type, fs: seq<Field>)
    requires Accepted(defs, t) && Underlying(defs, t) == Struct(fs) && forall u <- Parts(defs, t) :: HasFan(defs, p, u)
    ensures AllAccepted(defs, Live(fs)) && forall f <- Live(fs) :: HasFan(defs, p, f.ty)
    ensures ShapeOf(defs, t) == SStruct(FieldShapes(defs, Live(fs)))
    ensures FanOf(defs, t).body == StructOf(InSlots(defs, Live(fs)), OutSlots(defs, Live(fs)))
    ensures LeavesOf(defs, t) == LeavesOfAll(defs, Live(fs))
  {
    AcceptedStruct(defs, t, fs);
    PartsAreFields(defs, t, fs);
    hide Live, FieldShapes, InSlots, OutSlots, HasFan;
  }

  lemma {:induction false} StructFansOut(defs: Defs, p: Program, callee: string, fs: seq<Field>, v: Value, d: nat)
    requires ProgramOk(defs, p) && AllAccepted(defs, fs) && forall f <- fs :: HasFan(defs, p, f.ty)
    requires callee in p.fans && p.fans[callee].body == StructOf(InSlots(defs, fs), OutSlots(defs, fs))
    requires Has(SStruct(FieldShapes(defs, fs)), v) && Height(SStruct(FieldShapes(defs, fs))) < d
    ensures RunOut(defs, p, CallOut(callee), v, d) == Some(Out(SStruct(FieldShapes(defs, fs)), v))
    decreases d, 1
  {
    hide ProgramOk, HasFan, InSlots, OutSlots, FieldShapes, OutFields, OutAll, RunOuts, Leaves, Zero;
    FieldsCount(defs, fs);
    EmittedFansOutAll(defs, p, fs, v.fields, d - 1);
  }

  lemma PointerFanIs(defs: Defs, p: Program, t: Type, e: Type)
    requires Accepted(defs, t) && Underlying(defs, t) == Pointer(e)
    requires forall u <- Parts(defs, t) :: HasFan(defs, p, u)
    ensures Accepted(defs, e) && HasFan(defs, p, e) && ShapeOf(defs, t) == SPointer(ShapeOf(defs, e))
    ensures FanOf(defs, t).body == PointerTo(e, InSlot(defs, e, 1, |LeavesOf(defs, e)|), OutSlot(defs, e))
    ensures LeavesOf(defs, t) == [BoolLeaf] + LeavesOf(defs, e)
  {
    AcceptedElem(defs, t, e);
    hide InSlot, OutSlot, HasFan, ShapeOf;
  }

  lemma RunOfPointer(defs: Defs, p: Program, callee: string, s: Shape, v: Value, args: seq<Leaf>, d: nat)
    requires callee in p.fans && p.fans[callee].body.PointerTo? && d > 0
    ensures Has(SPointer(s), v) && v.VPointer? ==>
      && Has(s, v.target) && Out(SPointer(s), v) == [LBool(true)] + Out(s, v.target)
      && RunOut(defs, p, CallOut(callee), v, d)
         == Flagged(true, RunOut(defs, p, p.fans[callee].body.pout, v.target, d - 1))
    ensures Has(SPointer(s), v) && !v.VPointer? ==>
      && v.VNil? && Out(SPointer(s), v) == [LBool(false)] + Out(s, Zero(s))
      && (var zero := p.fans[callee].body.zero;
          Accepted(defs, zero) ==>
            RunOut(defs, p, CallOut(callee), v, d)
              == Flagged(false, RunOut(defs, p, p.fans[callee].body.pout, Zero(ShapeOf(defs, zero)), d - 1)))
    ensures Leaves(SPointer(s)) == [BoolLeaf] + Leaves(s)
    ensures Height(SPointer(s)) == Height(s) + 1
  {
    hide Accepted, ShapeOf, Zero;
  }

  lemma RunPointerIn(p: Program, callee: string, s: Shape, args: seq<Leaf>, d: nat)
    requires callee in p.fans && p.fans[callee].body.PointerTo? && d > 0
    requires args != [] && args[0].LBool? && Kinds(args[1..]) == Leaves(s) && Kinds(args) == Leaves(SPointer(s))
    ensures In(SPointer(s), args) == if args[0].b then VPointer(In(s, args[1..])) else VNil
    ensures var r := RunIn(p, p.fans[callee].body.pin, args, d - 1);
      RunBody(p, callee, args, d)
        == if !args[0].b then Some(VNil) else if r.None? then None else Some(VPointer(r.value))
  {
  }

  lemma {:induction false} PointerFansOut(defs: Defs, p: Program, callee: string, e: Type, v: Value, d: nat)
    requires ProgramOk(defs, p) && Accepted(defs, e) && HasFan(defs, p, e)
    requires callee in p.fans && p.fans[callee].body.PointerTo? && p.fans[callee].body.zero == e
      && p.fans[callee].body.pout == OutSlot(defs, e)
    requires Has(SPointer(ShapeOf(defs, e)), v) && Height(SPointer(ShapeOf(defs, e))) < d
    ensures RunOut(defs, p, CallOut(callee), v, d) == Some(Out(SPointer(ShapeOf(defs, e)), v))
    decreases d, 1
  {
    hide ProgramOk, HasFan, ShapeOf, Accepted, Leaves, Height, Has, Out, RunOut, OutSlot, Zero;
    RunOfPointer(defs, p, callee, ShapeOf(defs, e), v, [], d);
    EmittedFansOut(defs, p, e, if v.VPointer? then v.target else Zero(ShapeOf(defs, e)), d - 1);
  }

  lemma {:induction false} EmittedFansOutAll(defs: Defs, p: Program, fs: seq<Field>, vs: seq<Value>, d: nat)
    requires ProgramOk(defs, p) && AllAccepted(defs, fs) && forall f <- fs :: HasFan(defs, p, f.ty)
    requires |vs| == |fs| && forall i :: 0 <= i < |fs| ==> Has(FieldShapes(defs, fs)[i], vs[i])
    requires TallestOf(FieldShapes(defs, fs)) < d
    ensures RunOuts(defs, p, OutSlots(defs, fs), vs, d) == Some(OutFields(FieldShapes(defs, fs), vs))
    decreases d, 3, |fs|
  {
    hide ProgramOk, HasFan, OutSlot;
    if fs != [] {
      assert OutSlots(defs, fs)[1..] == OutSlots(defs, fs[1..]);
      assert FieldShapes(defs, fs)[1..] == FieldShapes(defs, fs[1..]);
      EmittedFansOut(defs, p, fs[0].ty, vs[0], d);
      EmittedFansOutAll(defs, p, fs[1..], vs[1..], d);
    }
  }

  /** The emitted fan-in of a type takes its leaves where the slot says. */
  lemma {:induction false} EmittedFansIn(defs: Defs, p: Program, t: Type, ls: seq<Leaf>, at: nat, d: nat)
    requires ProgramOk(defs, p) && Accepted(defs, t) && HasFan(defs, p, t)
    requires at + |LeavesOf(defs, t)| <= |ls| && Kinds(ls[at..at + |LeavesOf(defs, t)|]) == LeavesOf(defs, t)
    requires Height(ShapeOf(defs, t)) < d
    ensures var n := |LeavesOf(defs, t)|;
      RunIn(p, InSlot(defs, t, at, n), ls, d) == Some(In(ShapeOf(defs, t), ls[at..at + n]))
    decreases d, 4
  {
    hide ProgramOk, HasFan, Accepted, LeavesOf, ShapeOf, Height, RunIn, In, InSlot, Passthrough;
    if Passthrough(t) {
      LeafFansIn(defs, p, t, ls, at, d);
    } else {
      CallFansIn(defs, p, t, ls, at, ls[at..at + |LeavesOf(defs, t)|], d);
    }
  }

  lemma {:induction false} CallFansIn(defs: Defs, p: Program, t: Type, ls: seq<Leaf>, at: nat, args: seq<Leaf>, d: nat)
    requires ProgramOk(defs, p) && Accepted(defs, t) && HasFan(defs, p, t) && !Passthrough(t)
    requires at + |args| <= |ls| && args == ls[at..at + |args|] && Kinds(args) == LeavesOf(defs, t)
    requires Height(ShapeOf(defs, t)) < d
    ensures RunIn(p, InSlot(defs, t, at, |args|), ls, d) == Some(In(ShapeOf(defs, t), args))
    decreases d, 3
  {
    hide ProgramOk, FanOf, CallsEmitted, In, RunBody, RunIn, Kinds, Leaves, Height, Passthrough, Accepted, ShapeOf,
         LeavesOf;
    FanIs(defs, p, t);
    CallRuns(p, Shown(defs, t), ls, at, |args|, d);
    BodyFansIn(defs, p, t, args, d);
  }

  lemma CallRuns(p: Program, callee: string, ls: seq<Leaf>, at: nat, n: nat, d: nat)
    requires callee in p.fans && d > 0 && at + n <= |ls| && p.fans[callee].params == Kinds(ls[at..at + n])
    ensures RunIn(p, CallIn(callee, at, n), ls, d) == RunBody(p, callee, ls[at..at + n], d)
  {
  }

  lemma LeafFansIn(defs: Defs, p: Program, t: Type, ls: seq<Leaf>, at: nat, d: nat)
    requires Accepted(defs, t) && Passthrough(t)
    requires at + |LeavesOf(defs, t)| <= |ls| && Kinds(ls[at..at + |LeavesOf(defs, t)|]) == LeavesOf(defs, t)
    ensures var n := |LeavesOf(defs, t)|;
      RunIn(p, InSlot(defs, t, at, n), ls, d) == Some(In(ShapeOf(defs, t), ls[at..at + n]))
  {
    PassthroughIs(defs, t);
    hide Accepted, ShapeOf, LeavesOf;
    var args := ls[at..at + |LeavesOf(defs, t)|];
    assert args[0] == ls[at] && Kinds(args)[0] == ls[at].Kind();
  }

  lemma {:induction false} BodyFansIn(defs: Defs, p: Program, t: Type, args: seq<Leaf>, d: nat)
    requires ProgramOk(defs, p) && Shown(defs, t) in p.fans && Accepted(defs, t)
      && p.fans[Shown(defs, t)] == FanOf(defs, t)
    requires CallsEmitted(defs, p, t, FanOf(defs, t))
    requires Kinds(args) == LeavesOf(defs, t) && Height(ShapeOf(defs, t)) < d
    ensures RunBody(p, Shown(defs, t), args, d) == Some(In(ShapeOf(defs, t), args))
    decreases d, 2
  {
    hide ProgramOk, Live, HasFan, Height, In, RunBody, RunIn, ShapeOf, Accepted, Parts, InSlots, OutSlots, Kinds,
         Leaves;
    match FanOf(defs, t).body
    case Hybrid => HybridFansIn(defs, p, t, args, d);
    case ArrayOf(_, _) =>
      var Array(n, e) := Underlying(defs, t);
      ArrayFanIs(defs, p, t, n, e);
      ArrayFansIn(defs, p, Shown(defs, t), n, e, args, d);
    case StructOf(_, _) =>
      var fs := Underlying(defs, t).fields;
      StructFanIs(defs, p, t, fs);
      StructFansIn(defs, p, Shown(defs, t), Live(fs), args, d);
    case PointerTo(e, _, _) =>
      PointerFanIs(defs, p, t, e);
      PointerFansIn(defs, p, Shown(defs, t), e, args, d);
    case _ => OneLeafIn(defs, p, t, args, d);
  }

  lemma OneLeafIn(defs: Defs, p: Program, t: Type, args: seq<Leaf>, d: nat)
    requires Shown(defs, t) in p.fans && Accepted(defs, t) && p.fans[Shown(defs, t)].body == FanOf(defs, t).body
      && d > 0
    requires var b := FanOf(defs, t).body; b.Converted? || b.Numbered? || b.Blob? || b.Filled?
    requires Kinds(args) == LeavesOf(defs, t)
    ensures RunBody(p, Shown(defs, t), args, d) == Some(In(ShapeOf(defs, t), args))
  {
    LeafShape(defs, t);
    hide FanOf, ShapeOf, Accepted;
    assert args != [] ==> Kinds(args)[0] == args[0].Kind();
  }

  lemma {:induction false} HybridFansIn(defs: Defs, p: Program, t: Type, args: seq<Leaf>, d: nat)
    requires ProgramOk(defs, p) && Shown(defs, t) in p.fans && Accepted(defs, t)
      && p.fans[Shown(defs, t)] == FanOf(defs, t)
    requires FanOf(defs, t).body.Hybrid? && HasHybrid(defs, p, t)
    requires Kinds(args) == LeavesOf(defs, t) && Height(ShapeOf(defs, t)) < d
    ensures RunBody(p, Shown(defs, t), args, d) == Some(In(ShapeOf(defs, t), args))
    decreases d, 1
  {
    hide ProgramOk, FanOf, AccessOf, HasHelper, Height, Accepted, ShapeOf, Read, RunRead;
    HybridIs(defs, p, t);
    HybridShape(defs, t);
    assert Kinds(args)[0] == args[0].Kind();
    EmittedReads(defs, p, t, args[0].data, d - 1);
  }

  lemma {:induction false} ArrayFansIn(defs: Defs, p: Program, callee: string, n: nat, e: Type, args: seq<Leaf>, d: nat)
    requires ProgramOk(defs, p) && Accepted(defs, e) && HasFan(defs, p, e) && AllAccepted(defs, Copies(n, e))
    requires callee in p.fans
      && p.fans[callee].body == ArrayOf(InSlots(defs, Copies(n, e)), OutSlots(defs, Copies(n, e)))
    requires ElementWise(n, ShapeOf(defs, e)) && Kinds(args) == Repeat(n, LeavesOf(defs, e))
    requires Height(SArray(n, ShapeOf(defs, e))) < d
    ensures Leaves(SArray(n, ShapeOf(defs, e))) == Kinds(args)
    ensures RunBody(p, callee, args, d) == Some(In(SArray(n, ShapeOf(defs, e)), args))
    decreases d, 1
  {
    hide ProgramOk, HasFan, InSlots, OutSlots, ShapeOf, Accepted, Leaves, Height, Has, Out, RunOut, RunOuts, OutAll,
         OutFields,
      ElementWise, RunBody, RunIns, In, InAll, Kinds, Repeat;
    RunOfArray(defs, p, callee, n, ShapeOf(defs, e), VNil, args, d);
    CopiesFanIn(defs, p, n, e, args, d - 1);
  }

  lemma {:induction false} CopiesFanIn(defs: Defs, p: Program, n: nat, e: Type, args: seq<Leaf>, d: nat)
    requires ProgramOk(defs, p) && Accepted(defs, e) && HasFan(defs, p, e) && AllAccepted(defs, Copies(n, e))
    requires Kinds(args) == Repeat(n, LeavesOf(defs, e)) && Height(ShapeOf(defs, e)) < d
    ensures RunIns(p, InSlots(defs, Copies(n, e)), args, d) == Some(InAll(ShapeOf(defs, e), n, args))
    decreases d, 6
  {
    hide ProgramOk, HasFan, ShapeOf, Accepted, Leaves, Height, RunIns, In, InAll, InFields, InSlots, Kinds, Repeat;
    CopiesAreAccepted(defs, n, e);
    KindsCount(args);
    assert args[..|args|] == args;
    InCopies(ShapeOf(defs, e), n, args);
    EmittedFansInAll(defs, p, Copies(n, e), args, d);
  }

  lemma {:induction false} StructFansIn(defs: Defs, p: Program, callee: string, fs: seq<Field>, args: seq<Leaf>, d: nat)
    requires ProgramOk(defs, p) && AllAccepted(defs, fs) && forall f <- fs :: HasFan(defs, p, f.ty)
    requires callee in p.fans && p.fans[callee].body == StructOf(InSlots(defs, fs), OutSlots(defs, fs))
    requires Kinds(args) == LeavesOfAll(defs, fs) && Height(SStruct(FieldShapes(defs, fs))) < d
    ensures RunBody(p, callee, args, d) == Some(In(SStruct(FieldShapes(defs, fs)), args))
    decreases d, 1
  {
    hide ProgramOk, HasFan, FieldShapes, InSlots, OutSlots, Kinds;
    KindsCount(args);
    assert args[..|args|] == args;
    EmittedFansInAll(defs, p, fs, args, d - 1);
  }

  lemma {:induction false} PointerFansIn(defs: Defs, p: Program, callee: string, e: Type, args: seq<Leaf>, d: nat)
    requires ProgramOk(defs, p) && Accepted(defs, e) && HasFan(defs, p, e)
    requires callee in p.fans && p.fans[callee].body.PointerTo?
      && p.fans[callee].body.pin == InSlot(defs, e, 1, |LeavesOf(defs, e)|)
    requires Kinds(args) == [BoolLeaf] + LeavesOf(defs, e) && Height(SPointer(ShapeOf(defs, e))) < d
    ensures Leaves(SPointer(ShapeOf(defs, e))) == Kinds(args)
    ensures RunBody(p, callee, args, d) == Some(In(SPointer(ShapeOf(defs, e)), args))
    decreases d, 1
  {
    hide ProgramOk, HasFan, ShapeOf, Accepted, Kinds, InSlot, Leaves, Height, RunBody, In, RunIn, Has, Out, RunOut;
    FlagFirst(args, LeavesOf(defs, e));
    RunOfPointer(defs, p, callee, ShapeOf(defs, e), VNil, args, d);
    RunPointerIn(p, callee, ShapeOf(defs, e), args, d);
    EmittedFansIn(defs, p, e, args, 1, d - 1);
  }

  lemma FlagFirst(args: seq<Leaf>, ks: seq<LeafKind>)
    requires Kinds(args) == [BoolLeaf] + ks
    ensures |args| == 1 + |ks| && args[0].LBool? && Kinds(args[1..]) == ks && args[1..1 + |ks|] == args[1..]
  {
    assert Kinds(args)[0] == args[0].Kind() && Kinds(args[1..]) == Kinds(args)[1..];
  }

  lemma {:induction false} EmittedFansInAll(defs: Defs, p: Program, fs: seq<Field>, ls: seq<Leaf>, d: nat)
    requires ProgramOk(defs, p) && AllAccepted(defs, fs) && forall f <- fs :: HasFan(defs, p, f.ty)
    requires var m := |LeavesOfAll(defs, fs)|; m <= |ls| && Kinds(ls[..m]) == LeavesOfAll(defs, fs)
    requires forall s <- FieldShapes(defs, fs) :: Height(s) < d
    ensures RunIns(p, InSlots(defs, fs), ls, d)
         == Some(InFields(FieldShapes(defs, fs), ls[..|LeavesOfAll(defs, fs)|]))
    decreases d, 5, |fs|
  {
    hide ProgramOk, HasFan, Kinds, Leaves, In, InFields, RunIn, InSlot, Height, Accepted, ShapeOf;
    if fs == [] {
      NoFields(ls);
    } else {
      var before, f := fs[..|fs| - 1], fs[|fs| - 1];
      var m := |LeavesOfAll(defs, fs)|;
      var ss, s := FieldShapes(defs, before), ShapeOf(defs, f.ty);
      assert FieldShapes(defs, fs) == ss + [s];
      assert s in FieldShapes(defs, fs);
      InMoreFields(ss, s, ls[..m]);
      var k := |LeavesOfFields(ss)|;
      assert ls[..m][..k] == ls[..k] && ls[..m][k..] == ls[k..m];
      KindsCount(ls[k..m]);
      EmittedFansInAll(defs, p, before, ls, d);
      EmittedFansIn(defs, p, f.ty, ls, k, d);
    }
  }

  lemma NoFields(ls: seq<Leaf>)
    ensures LeavesOfFields([]) == [] && Kinds(ls[..0]) == [] && InFields([], ls[..0]) == []
  {
  }

  lemma KindsCount(ls: seq<Leaf>)
    ensures |Kinds(ls)| == |ls|
  {
  }

  lemma {:induction false} LeavesOfMore(ss: seq<Shape>, s: Shape)
    ensures LeavesOfFields(ss + [s]) == LeavesOfFields(ss) + Leaves(s)
  {
    if ss == [] {
      assert ss + [s] == [s] && LeavesOfFields([s]) == Leaves(s) + [];
    } else {
      assert (ss + [s])[1..] == ss[1..] + [s];
      LeavesOfMore(ss[1..], s);
    }
  }

  lemma {:induction false} InMoreFields(ss: seq<Shape>, s: Shape, ls: seq<Leaf>)
    requires Kinds(ls) == LeavesOfFields(ss + [s])
    ensures var k := |LeavesOfFields(ss)|;
      && k <= |ls| && Kinds(ls[..k]) == LeavesOfFields(ss) && Kinds(ls[k..]) == Leaves(s)
      && InFields(ss + [s], ls) == InFields(ss, ls[..k]) + [In(s, ls[k..])]
  {
    hide Kinds, Leaves, In;
    LeavesOfMore(ss, s);
    var k := |LeavesOfFields(ss)|;
    KindsSplit(ls, k);
    if ss == [] {
      assert ss + [s] == [s] && ls[..|Leaves(s)|] == ls == ls[k..];
    } else {
      var h := |Leaves(ss[0])|;
      var all := ss + [s];
      assert all[1..] == ss[1..] + [s];
      KindsSplit(ls, h);
      InMoreFields(ss[1..], s, ls[h..]);
      SplitTwice(ls, h, k);
      InFirst(all, ls);
      InFirst(ss, ls[..k]);
    }
  }

  lemma SplitTwice(ls: seq<Leaf>, h: nat, k: nat)
    requires h <= k <= |ls|
    ensures ls[..k][..h] == ls[..h] && ls[..k][h..] == ls[h..][..k - h] && ls[h..][k - h..] == ls[k..]
  {
  }

  lemma InFirst(ss: seq<Shape>, ls: seq<Leaf>)
    requires ss != [] && Kinds(ls) == LeavesOfFields(ss)
    ensures var h := |Leaves(ss[0])|;
      && h <= |ls| && Kinds(ls[..h]) == Leaves(ss[0]) && Kinds(ls[h..]) == LeavesOfFields(ss[1..])
      && InFields(ss, ls) == [In(ss[0], ls[..h])] + InFields(ss[1..], ls[h..])
  {
    hide Kinds, Leaves, In;
    KindsSplit(ls, |Leaves(ss[0])|);
  }

  lemma KindsSplit(ls: seq<Leaf>, k: nat)
    requires k <= |Kinds(ls)|
    ensures |Kinds(ls)| == |ls| && Kinds(ls[..k]) == Kinds(ls)[..k] && Kinds(ls[k..]) == Kinds(ls)[k..]
  {
  }

  /** Running the emitted fan-in on what the emitted fan-out yields gives the value
      with empty blobs as nil and, in what rides as one leaf, what the codec
      keeps. */
  lemma EmittedFansBack(defs: Defs, p: Program, t: Type, v: Value, d: nat)
    requires ProgramOk(defs, p) && Accepted(defs, t) && HasFan(defs, p, t)
    requires Has(ShapeOf(defs, t), v) && Height(ShapeOf(defs, t)) < d
    ensures var out := RunOut(defs, p, OutSlot(defs, t), v, d);
      && out.Some? && Kinds(out.value) == LeavesOf(defs, t)
      && RunIn(p, InSlot(defs, t, 0, |out.value|), out.value, d) == Some(FanKept(ShapeOf(defs, t), v))
  {
    hide ProgramOk, HasFan, RunOut, RunIn, Out, In, Kinds, Height, Has, FanKept, InSlot, OutSlot;
    EmittedFansOut(defs, p, t, v, d);
    var ls := Out(ShapeOf(defs, t), v);
    FansBack(ShapeOf(defs, t), v);
    KindsCount(ls);
    assert ls[0..0 + |LeavesOf(defs, t)|] == ls;
    EmittedFansIn(defs, p, t, ls, 0, d);
  }

  lemma PartsAreFields(defs: Defs, t: Type, fs: seq<Field>)
    requires Underlying(defs, t) == Struct(fs)
    ensures forall u <- Parts(defs, t) :: exists f <- Live(fs) :: f.ty == u
    ensures forall f <- Live(fs) :: f.ty in Parts(defs, t)
  {
    forall u | u in Parts(defs, t) ensures exists f <- Live(fs) :: f.ty == u {
      var i :| 0 <= i < |Live(fs)| && Parts(defs, t)[i] == u;
      assert Live(fs)[i] in Live(fs);
    }
    forall f | f in Live(fs) ensures f.ty in Parts(defs, t) {
      var i :| 0 <= i < |Live(fs)| && Live(fs)[i] == f;
      assert Parts(defs, t)[i] == f.ty;
    }
  }
}
