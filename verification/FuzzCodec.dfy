module FuzzCodec {
  /** What the generated fuzz code computes: the fan-out of a value to the leaves the
      engine mutates, the fan-in back, and the byte codec of what rides as one leaf.
      Everything is defined on shapes; FuzzEmitter relates it to the emitted code.
      A number is its fixed-width little-endian bytes. */

  import opened Options
  import opened GoTypes

  type Byte = x: int | 0 <= x < 256
  type Bytes = seq<Byte>

  /** A Go value. A nil slice and an empty one differ. */
  datatype Value =
    | VBool(b: bool)
    | VString(s: Bytes)
    | VNumber(bits: Bytes)
    | VBytes(isNil: bool, data: Bytes)
    | VSlice(isNil: bool, elems: seq<Value>)
    | VArray(elems: seq<Value>)
    | VStruct(fields: seq<Value>)
    | VNil
    | VPointer(target: Value)

  ghost predicate Has(s: Shape, v: Value) {
    match s
    case SBool => v.VBool?
    case SString => v.VString?
    case SNumber(w) => v.VNumber? && |v.bits| == w
    case SBytes => v.VBytes? && (v.isNil ==> v.data == [])
    case SByteArray(n) => v.VArray? && |v.elems| == n && AreBytes(v.elems)
    case SSlice(e) => v.VSlice? && (v.isNil ==> v.elems == []) && forall x <- v.elems :: Has(e, x)
    case SArray(n, e) => v.VArray? && |v.elems| == n && forall x <- v.elems :: Has(e, x)
    case SStruct(fs) => v.VStruct? && |v.fields| == |fs| && forall i :: 0 <= i < |fs| ==> Has(fs[i], v.fields[i])
    case SPointer(e) => v.VNil? || (v.VPointer? && Has(e, v.target))
  }

  predicate AreBytes(vs: seq<Value>) {
    forall v <- vs :: v.VNumber? && |v.bits| == 1
  }

  /** The bytes of a byte array, and the array of bytes. */
  function BytesOf(vs: seq<Value>): (b: Bytes)
    requires AreBytes(vs)
    ensures |b| == |vs| && ElemsOf(b) == vs
  {
    var b := seq(|vs|, i requires 0 <= i < |vs| => vs[i].bits[0]);
    assert forall i :: 0 <= i < |vs| ==> [b[i]] == vs[i].bits;
    b
  }

  function ElemsOf(b: Bytes): (vs: seq<Value>)
    ensures |vs| == |b| && AreBytes(vs)
  {
    seq(|b|, i requires 0 <= i < |b| => VNumber([b[i]]))
  }

  /** Values of the shape take no bytes on the wire. */
  predicate Weightless(s: Shape) {
    match s
    case SNumber(w) => w == 0
    case SByteArray(n) => n == 0
    case SArray(n, e) => n == 0 || Weightless(e)
    case SStruct(fs) => forall f <- fs :: Weightless(f)
    case _ => false
  }

  function Min(a: nat, b: nat): nat { if a < b then a else b }

  function Zeros(n: nat): (z: Bytes)
    ensures |z| == n
  {
    seq(n, i => 0)
  }

  /** copy into a zeroed array of n bytes: padded or cut. */
  function Fit(b: Bytes, n: nat): (r: Bytes)
    ensures |r| == n && (|b| == n ==> r == b)
  {
    if |b| < n then b + Zeros(n - |b|) else b[..n]
  }

  // ------------------------------------------------------------- the codec

  const MAX_LEN := 0xFFFF
  const MAX_COUNT := 0xFF

  function Cut(b: Bytes): (r: Bytes)
    ensures |r| <= MAX_LEN && r <= b
  {
    b[..Min(|b|, MAX_LEN)]
  }

  function WriteBlob(b: Bytes): Bytes {
    var r := Cut(b);
    [|r| % 256, |r| / 256] + r
  }

  /** The writer's calls for one value, as the emitted helpers make them. */
  ghost function Write(s: Shape, v: Value): Bytes
    requires Has(s, v)
    decreases s, 0
  {
    match s
    case SBool => [if v.b then 1 else 0]
    case SString => WriteBlob(v.s)
    case SNumber(_) => v.bits
    case SBytes => WriteBlob(v.data)
    case SByteArray(_) => BytesOf(v.elems)
    case SSlice(e) => var k := Min(|v.elems|, MAX_COUNT); [k] + WriteAll(e, v.elems[..k])
    case SArray(_, e) => WriteAll(e, v.elems)
    case SStruct(fs) => WriteFields(fs, v.fields)
    case SPointer(e) => if v.VNil? then [0] else [1] + Write(e, v.target)
  }

  ghost function WriteAll(e: Shape, vs: seq<Value>): Bytes
    requires forall v <- vs :: Has(e, v)
    decreases e, 1, |vs|
  {
    if vs == [] then [] else Write(e, vs[0]) + WriteAll(e, vs[1..])
  }

  ghost function WriteFields(fs: seq<Shape>, vs: seq<Value>): Bytes
    requires |fs| == |vs| && forall i :: 0 <= i < |fs| ==> Has(fs[i], vs[i])
    decreases fs, 1, |vs|
  {
    if fs == [] then [] else Write(fs[0], vs[0]) + WriteFields(fs[1..], vs[1..])
  }

  /** Some values, byte by byte: flags and counts take one byte, lengths two with the less
      significant first. */
  lemma OnTheWire()
    ensures Write(SBool, VBool(true)) == [1] && Write(SString, VString([97, 98])) == [2, 0, 97, 98]
    ensures Write(SSlice(SBool), VSlice(false, [VBool(true), VBool(false)])) == [2, 1, 0]
    ensures Write(SStruct([SPointer(SBool), SPointer(SBool)]), VStruct([VPointer(VBool(true)), VNil])) == [1, 1, 0]
  {
    var es := [VBool(true), VBool(false)];
    assert es[..2] == es && es[1..] == [VBool(false)] && es[1..][1..] == [];
    assert WriteAll(SBool, es) == [1] + WriteAll(SBool, es[1..]);
    var fs := [SPointer(SBool), SPointer(SBool)];
    var vs := [VPointer(VBool(true)), VNil];
    assert fs[1..] == [SPointer(SBool)] && vs[1..] == [VNil] && fs[1..][1..] == [] && vs[1..][1..] == [];
    assert WriteFields(fs, vs) == [1, 1] + WriteFields(fs[1..], vs[1..]);
  }

  /** A fixed-width read: zero when fewer bytes remain, which are then consumed. */
  function ReadFixed(w: nat, b: Bytes): (r: (Bytes, Bytes))
    ensures |r.0| == w
  {
    if w <= |b| then (b[..w], b[w..]) else (Zeros(w), [])
  }

  function ReadBlob(b: Bytes): (Bytes, Bytes) {
    var (n, rest) := ReadFixed(2, b);
    var lo: nat, hi: nat := n[0], n[1];
    var k := Min(lo + 256 * hi, |rest|);
    (rest[..k], rest[k..])
  }

  /** The reader's calls for one value: total on any bytes. */
  ghost function Read(s: Shape, b: Bytes): (r: (Value, Bytes))
    decreases s, 0
  {
    match s
    case SBool => var (x, rest) := ReadFixed(1, b); (VBool(x[0] != 0), rest)
    case SString => var (x, rest) := ReadBlob(b); (VString(x), rest)
    case SNumber(w) => var (x, rest) := ReadFixed(w, b); (VNumber(x), rest)
    case SBytes => var (x, rest) := ReadBlob(b); (VBytes(x == [], x), rest)
    case SByteArray(n) => (VArray(ElemsOf(Fit(b, n))), b[Min(n, |b|)..])
    case SSlice(e) =>
      var (x, rest) := ReadFixed(1, b);
      var n := Min(x[0], |rest|);
      if n == 0 then (VSlice(true, []), rest) else
        var (vs, after) := ReadAll(e, n, rest);
        (VSlice(false, vs), after)
    case SArray(n, e) => var (vs, rest) := ReadAll(e, n, b); (VArray(vs), rest)
    case SStruct(fs) => var (vs, rest) := ReadFields(fs, b); (VStruct(vs), rest)
    case SPointer(e) =>
      var (x, rest) := ReadFixed(1, b);
      if x[0] == 0 then (VNil, rest) else
        var (v, after) := Read(e, rest);
        (VPointer(v), after)
  }

  ghost function ReadAll(e: Shape, n: nat, b: Bytes): (r: (seq<Value>, Bytes))
    ensures |r.0| == n
    decreases e, 1, n
  {
    if n == 0 then ([], b) else
      var (v, rest) := Read(e, b);
      var (vs, after) := ReadAll(e, n - 1, rest);
      ([v] + vs, after)
  }

  ghost function ReadFields(fs: seq<Shape>, b: Bytes): (r: (seq<Value>, Bytes))
    ensures |r.0| == |fs|
    decreases fs, 1, |fs|
  {
    if fs == [] then ([], b) else
      var (v, rest) := Read(fs[0], b);
      var (vs, after) := ReadFields(fs[1..], rest);
      ([v] + vs, after)
  }

  /** What the codec keeps of a value with r bytes after it: text and blobs up to
      65535 bytes, slices up to 255 elements, empty slices as nil, and of a slice
      of weightless elements no more than there are bytes after it. */
  ghost function Kept(s: Shape, v: Value, r: nat): (k: Value)
    requires Has(s, v)
    decreases s, 0
  {
    match s
    case SString => VString(Cut(v.s))
    case SBytes => VBytes(v.data == [], Cut(v.data))
    case SSlice(e) =>
      var n := KeptCount(e, |v.elems|, r);
      VSlice(n == 0, KeptAll(e, v.elems[..n], r))
    case SArray(_, e) => VArray(KeptAll(e, v.elems, r))
    case SStruct(fs) => VStruct(KeptFields(fs, v.fields, r))
    case SPointer(e) => if v.VNil? then VNil else VPointer(Kept(e, v.target, r))
    case _ => v
  }

  function KeptCount(e: Shape, n: nat, r: nat): (k: nat)
    ensures k <= n
  {
    var k := Min(n, MAX_COUNT);
    if Weightless(e) then Min(k, r) else k
  }

  ghost function KeptAll(e: Shape, vs: seq<Value>, r: nat): (ks: seq<Value>)
    requires forall v <- vs :: Has(e, v)
    ensures |ks| == |vs|
    decreases e, 1, |vs|
  {
    if vs == [] then [] else [Kept(e, vs[0], |WriteAll(e, vs[1..])| + r)] + KeptAll(e, vs[1..], r)
  }

  ghost function KeptFields(fs: seq<Shape>, vs: seq<Value>, r: nat): (ks: seq<Value>)
    requires |fs| == |vs| && forall i :: 0 <= i < |fs| ==> Has(fs[i], vs[i])
    ensures |ks| == |vs|
    decreases fs, 1, |vs|
  {
    if fs == [] then [] else
      [Kept(fs[0], vs[0], |WriteFields(fs[1..], vs[1..])| + r)] + KeptFields(fs[1..], vs[1..], r)
  }

  lemma {:induction false} WeightOf(s: Shape, v: Value)
    requires Has(s, v)
    ensures Weightless(s) <==> Write(s, v) == []
    decreases s, 0
  {
    match s
    case SArray(n, e) => if n > 0 { WeightOfAll(e, v.elems); }
    case SStruct(fs) => WeightOfFields(fs, v.fields);
    case _ =>
  }

  lemma {:induction false} WeightOfAll(e: Shape, vs: seq<Value>)
    requires forall v <- vs :: Has(e, v)
    ensures Weightless(e) ==> WriteAll(e, vs) == []
    ensures !Weightless(e) ==> |vs| <= |WriteAll(e, vs)|
    decreases e, 1, |vs|
  {
    if vs != [] {
      WeightOf(e, vs[0]);
      WeightOfAll(e, vs[1..]);
    }
  }

  lemma {:induction false} WeightOfFields(fs: seq<Shape>, vs: seq<Value>)
    requires |fs| == |vs| && forall i :: 0 <= i < |fs| ==> Has(fs[i], vs[i])
    ensures (forall f <- fs :: Weightless(f)) <==> WriteFields(fs, vs) == []
    decreases fs, 1, |vs|
  {
    if fs != [] {
      WeightOf(fs[0], vs[0]);
      WeightOfFields(fs[1..], vs[1..]);
      assert fs == [fs[0]] + fs[1..];
    }
  }

  lemma BlobReadsBack(b: Bytes, rest: Bytes)
    ensures ReadBlob(WriteBlob(b) + rest) == (Cut(b), rest)
  {
    var r := Cut(b);
    var buf := WriteBlob(b) + rest;
    assert buf[..2] == [|r| % 256, |r| / 256] && buf[2..] == r + rest;
  }

  /** Reading what was written, with anything after it, gives what the codec keeps
      and leaves what came after. */
  lemma {:induction false} ReadsBack(s: Shape, v: Value, rest: Bytes)
    requires Has(s, v)
    ensures Read(s, Write(s, v) + rest) == (Kept(s, v, |rest|), rest)
    decreases s, 0
  {
    var buf := Write(s, v) + rest;
    match s
    case SBool => assert buf[..1] == [if v.b then 1 else 0] && buf[1..] == rest;
    case SString => BlobReadsBack(v.s, rest);
    case SNumber(w) => assert buf[..w] == v.bits && buf[w..] == rest;
    case SBytes => BlobReadsBack(v.data, rest);
    case SByteArray(n) =>
      assert buf[..n] == BytesOf(v.elems) && buf[n..] == rest;
    case SSlice(e) => SliceReadsBack(e, v, rest);
    case SArray(_, e) => AllReadBack(e, v.elems, rest);
    case SStruct(fs) => FieldsReadBack(fs, v.fields, rest);
    case SPointer(e) =>
      assert buf[1..] == if v.VNil? then rest else Write(e, v.target) + rest;
      if v.VPointer? {
        ReadsBack(e, v.target, rest);
      }
  }

  lemma {:induction false} SliceReadsBack(e: Shape, v: Value, rest: Bytes)
    requires Has(SSlice(e), v)
    ensures Read(SSlice(e), Write(SSlice(e), v) + rest) == (Kept(SSlice(e), v, |rest|), rest)
    decreases e, 2
  {
    var k := Min(|v.elems|, MAX_COUNT);
    var body := WriteAll(e, v.elems[..k]);
    var buf := Write(SSlice(e), v) + rest;
    assert buf[..1] == [k] && buf[1..] == body + rest;
    WeightOfAll(e, v.elems[..k]);
    var n := KeptCount(e, |v.elems|, |rest|);
    assert n == Min(k, |body + rest|);
    WeightOfAll(e, v.elems[..n]);
    assert body + rest == WriteAll(e, v.elems[..n]) + rest;
    AllReadBack(e, v.elems[..n], rest);
  }

  lemma {:induction false} AllReadBack(e: Shape, vs: seq<Value>, rest: Bytes)
    requires forall v <- vs :: Has(e, v)
    ensures ReadAll(e, |vs|, WriteAll(e, vs) + rest) == (KeptAll(e, vs, |rest|), rest)
    decreases e, 1, |vs|
  {
    hide Read, Write, Kept, Has;
    if vs == [] {
      assert WriteAll(e, vs) + rest == rest;
    } else {
      var after := WriteAll(e, vs[1..]) + rest;
      assert WriteAll(e, vs) + rest == Write(e, vs[0]) + after;
      ReadsBack(e, vs[0], after);
      AllReadBack(e, vs[1..], rest);
    }
  }

  lemma {:induction false} FieldsReadBack(fs: seq<Shape>, vs: seq<Value>, rest: Bytes)
    requires |fs| == |vs| && forall i :: 0 <= i < |fs| ==> Has(fs[i], vs[i])
    ensures ReadFields(fs, WriteFields(fs, vs) + rest) == (KeptFields(fs, vs, |rest|), rest)
    decreases fs, 1, |vs|
  {
    if fs == [] {
      assert WriteFields(fs, vs) + rest == rest;
    } else {
      var after := WriteFields(fs[1..], vs[1..]) + rest;
      assert WriteFields(fs, vs) + rest == Write(fs[0], vs[0]) + after;
      ReadsBack(fs[0], vs[0], after);
      FieldsReadBack(fs[1..], vs[1..], rest);
    }
  }

  /** When the codec keeps a value with r bytes after it as it is: no text or blob
      over 65535 bytes, no slice over 255 elements, no empty slice but nil, and no
      more weightless elements than bytes after them. */
  ghost predicate Survives(s: Shape, v: Value, r: nat)
    requires Has(s, v)
    decreases s, 0
  {
    match s
    case SString => |v.s| <= MAX_LEN
    case SBytes => |v.data| <= MAX_LEN && (v.data == [] ==> v.isNil)
    case SSlice(e) =>
      && |v.elems| <= MAX_COUNT && (Weightless(e) ==> |v.elems| <= r)
      && (v.elems == [] ==> v.isNil) && SurviveAll(e, v.elems, r)
    case SArray(_, e) => SurviveAll(e, v.elems, r)
    case SStruct(fs) => SurviveFields(fs, v.fields, r)
    case SPointer(e) => v.VNil? || Survives(e, v.target, r)
    case _ => true
  }

  ghost predicate SurviveAll(e: Shape, vs: seq<Value>, r: nat)
    requires forall v <- vs :: Has(e, v)
    decreases e, 1, |vs|
  {
    vs == [] || (Survives(e, vs[0], |WriteAll(e, vs[1..])| + r) && SurviveAll(e, vs[1..], r))
  }

  ghost predicate SurviveFields(fs: seq<Shape>, vs: seq<Value>, r: nat)
    requires |fs| == |vs| && forall i :: 0 <= i < |fs| ==> Has(fs[i], vs[i])
    decreases fs, 1, |vs|
  {
    fs == [] || (Survives(fs[0], vs[0], |WriteFields(fs[1..], vs[1..])| + r) && SurviveFields(fs[1..], vs[1..], r))
  }

  /** The codec is the identity on exactly those values. */
  lemma {:induction false} KeptUnchangedIff(s: Shape, v: Value, r: nat)
    requires Has(s, v)
    ensures Kept(s, v, r) == v <==> Survives(s, v, r)
    decreases s, 0
  {
    match s
    case SSlice(e) =>
      var n := KeptCount(e, |v.elems|, r);
      if n == |v.elems| {
        assert v.elems[..n] == v.elems;
        AllKeptUnchangedIff(e, v.elems, r);
      }
    case SArray(_, e) => AllKeptUnchangedIff(e, v.elems, r);
    case SStruct(fs) => FieldsKeptUnchangedIff(fs, v.fields, r);
    case SPointer(e) => if v.VPointer? { KeptUnchangedIff(e, v.target, r); }
    case _ =>
  }

  lemma {:induction false} AllKeptUnchangedIff(e: Shape, vs: seq<Value>, r: nat)
    requires forall v <- vs :: Has(e, v)
    ensures KeptAll(e, vs, r) == vs <==> SurviveAll(e, vs, r)
    decreases e, 1, |vs|
  {
    hide Kept, Survives, Write, WriteAll, Has;
    if vs != [] {
      KeptUnchangedIff(e, vs[0], |WriteAll(e, vs[1..])| + r);
      AllKeptUnchangedIff(e, vs[1..], r);
      HeadAndTail(vs, KeptAll(e, vs, r));
    }
  }

  lemma {:induction false} FieldsKeptUnchangedIff(fs: seq<Shape>, vs: seq<Value>, r: nat)
    requires |fs| == |vs| && forall i :: 0 <= i < |fs| ==> Has(fs[i], vs[i])
    ensures KeptFields(fs, vs, r) == vs <==> SurviveFields(fs, vs, r)
    decreases fs, 1, |vs|
  {
    if fs != [] {
      KeptUnchangedIff(fs[0], vs[0], |WriteFields(fs[1..], vs[1..])| + r);
      FieldsKeptUnchangedIff(fs[1..], vs[1..], r);
      HeadAndTail(vs, KeptFields(fs, vs, r));
    }
  }

  lemma HeadAndTail<T>(a: seq<T>, b: seq<T>)
    requires |a| == |b| > 0
    ensures a == b <==> a[0] == b[0] && a[1..] == b[1..]
  {
    assert a == [a[0]] + a[1..] && b == [b[0]] + b[1..];
  }

  /** A slice of a type without bytes is lost when nothing follows it, whatever
      number of elements the seed gave it. */
  lemma WeightlessSliceIsLost(v: Value)
    requires Has(SSlice(SStruct([])), v) && v.elems != []
    ensures Read(SSlice(SStruct([])), Write(SSlice(SStruct([])), v)) == (VSlice(true, []), [])
  {
    ReadsBack(SSlice(SStruct([])), v, []);
    assert Write(SSlice(SStruct([])), v) + [] == Write(SSlice(SStruct([])), v);
  }

  /** Reading any bytes gives a value of the shape. */
  lemma {:induction false} ReadIsTotal(s: Shape, b: Bytes)
    ensures Has(s, Read(s, b).0)
    decreases s, 0
  {
    match s
    case SSlice(e) =>
      var (x, rest) := ReadFixed(1, b);
      ReadAllIsTotal(e, Min(x[0], |rest|), rest);
    case SArray(n, e) => ReadAllIsTotal(e, n, b);
    case SStruct(fs) => ReadFieldsIsTotal(fs, b);
    case SPointer(e) => ReadIsTotal(e, ReadFixed(1, b).1);
    case _ =>
  }

  lemma {:induction false} ReadAllIsTotal(e: Shape, n: nat, b: Bytes)
    ensures forall v <- ReadAll(e, n, b).0 :: Has(e, v)
    decreases e, 1, n
  {
    if n > 0 {
      ReadIsTotal(e, b);
      ReadAllIsTotal(e, n - 1, Read(e, b).1);
    }
  }

  lemma {:induction false} ReadFieldsIsTotal(fs: seq<Shape>, b: Bytes)
    ensures var vs := ReadFields(fs, b).0; forall i :: 0 <= i < |fs| ==> Has(fs[i], vs[i])
    decreases fs, 1, |fs|
  {
    if fs != [] {
      ReadIsTotal(fs[0], b);
      ReadFieldsIsTotal(fs[1..], Read(fs[0], b).1);
    }
  }

  // --------------------------------------------------------------- the fan

  datatype LeafKind = BoolLeaf | StringLeaf | BytesLeaf

  /** One corpus value the engine mutates. */
  datatype Leaf = LBool(b: bool) | LString(s: Bytes) | LBytes(isNil: bool, data: Bytes) {
    function Kind(): LeafKind {
      if LBool? then BoolLeaf else if LString? then StringLeaf else BytesLeaf
    }
  }

  function Kinds(ls: seq<Leaf>): (ks: seq<LeafKind>)
    ensures |ks| == |ls|
  {
    seq(|ls|, i requires 0 <= i < |ls| => ls[i].Kind())
  }

  lemma KindsCut(ls: seq<Leaf>, front: seq<LeafKind>, back: seq<LeafKind>)
    requires Kinds(ls) == front + back
    ensures |front| <= |ls| && Kinds(ls[..|front|]) == front && Kinds(ls[|front|..]) == back
  {
    forall i | 0 <= i < |back| ensures Kinds(ls[|front|..])[i] == back[i] {
      assert Kinds(ls)[|front| + i] == back[i];
    }
    forall i | 0 <= i < |front| ensures Kinds(ls[..|front|])[i] == front[i] {
      assert Kinds(ls)[i] == front[i];
    }
  }

  const ARRAY_FAN_LIMIT := 16

  function Repeat<T>(n: nat, s: seq<T>): (r: seq<T>) {
    if n == 0 then [] else s + Repeat(n - 1, s)
  }

  /** An array whose elements fan out one by one. */
  predicate ElementWise(n: nat, e: Shape)
    decreases e, 1
  {
    n > 0 && n * |Leaves(e)| <= ARRAY_FAN_LIMIT
  }

  /** The kinds of the leaves of a shape, in order. */
  function Leaves(s: Shape): seq<LeafKind>
    decreases s, 0
  {
    match s
    case SBool => [BoolLeaf]
    case SString => [StringLeaf]
    case SArray(n, e) => if ElementWise(n, e) then Repeat(n, Leaves(e)) else [BytesLeaf]
    case SStruct(fs) => LeavesOfFields(fs)
    case SPointer(e) => [BoolLeaf] + Leaves(e)
    case _ => [BytesLeaf]
  }

  function LeavesOfFields(fs: seq<Shape>): seq<LeafKind>
    decreases fs, 1, |fs|
  {
    if fs == [] then [] else Leaves(fs[0]) + LeavesOfFields(fs[1..])
  }

  ghost function Zero(s: Shape): (z: Value)
    ensures Has(s, z)
    decreases s, 0
  {
    match s
    case SBool => VBool(false)
    case SString => VString([])
    case SNumber(w) => VNumber(Zeros(w))
    case SBytes => VBytes(true, [])
    case SByteArray(n) => VArray(ElemsOf(Zeros(n)))
    case SSlice(_) => VSlice(true, [])
    case SArray(n, e) => VArray(seq(n, i => Zero(e)))
    case SStruct(fs) => VStruct(seq(|fs|, i requires 0 <= i < |fs| => Zero(fs[i])))
    case SPointer(_) => VNil
  }

  ghost function Encoded(s: Shape, v: Value): Leaf
    requires Has(s, v)
  {
    var w := Write(s, v);
    LBytes(w == [], w)
  }

  /** The leaves of a value. */
  ghost function Out(s: Shape, v: Value): seq<Leaf>
    requires Has(s, v)
    decreases s, 0
  {
    match s
    case SBool => [LBool(v.b)]
    case SString => [LString(v.s)]
    case SNumber(_) => [LBytes(false, v.bits)]
    case SBytes => [LBytes(v.isNil, v.data)]
    case SByteArray(n) => [LBytes(n == 0, BytesOf(v.elems))]
    case SSlice(e) => [Encoded(s, v)]
    case SArray(n, e) => if ElementWise(n, e) then OutAll(e, v.elems) else [Encoded(s, v)]
    case SStruct(fs) => OutFields(fs, v.fields)
    case SPointer(e) => if v.VNil? then [LBool(false)] + Out(e, Zero(e)) else [LBool(true)] + Out(e, v.target)
  }

  ghost function OutAll(e: Shape, vs: seq<Value>): seq<Leaf>
    requires forall v <- vs :: Has(e, v)
    decreases e, 1, |vs|
  {
    if vs == [] then [] else Out(e, vs[0]) + OutAll(e, vs[1..])
  }

  ghost function OutFields(fs: seq<Shape>, vs: seq<Value>): seq<Leaf>
    requires |fs| == |vs| && forall i :: 0 <= i < |fs| ==> Has(fs[i], vs[i])
    decreases fs, 1, |vs|
  {
    if fs == [] then [] else Out(fs[0], vs[0]) + OutFields(fs[1..], vs[1..])
  }

  lemma KindsOfBoth(a: seq<Leaf>, b: seq<Leaf>)
    ensures Kinds(a + b) == Kinds(a) + Kinds(b)
  {
  }

  /** Fan-out yields exactly the declared leaves, nil pointers included. */
  lemma {:induction false} OutHasLeaves(s: Shape, v: Value)
    requires Has(s, v)
    ensures Kinds(Out(s, v)) == Leaves(s)
    decreases s, 0
  {
    match s
    case SArray(n, e) => if ElementWise(n, e) { OutAllHasLeaves(e, v.elems); }
    case SStruct(fs) => OutFieldsHasLeaves(fs, v.fields);
    case SPointer(e) => OutHasLeaves(e, if v.VNil? then Zero(e) else v.target);
    case _ =>
  }

  lemma {:induction false} OutAllHasLeaves(e: Shape, vs: seq<Value>)
    requires forall v <- vs :: Has(e, v)
    ensures Kinds(OutAll(e, vs)) == Repeat(|vs|, Leaves(e))
    decreases e, 1, |vs|
  {
    if vs != [] {
      OutHasLeaves(e, vs[0]);
      OutAllHasLeaves(e, vs[1..]);
      KindsOfBoth(Out(e, vs[0]), OutAll(e, vs[1..]));
    }
  }

  lemma {:induction false} OutFieldsHasLeaves(fs: seq<Shape>, vs: seq<Value>)
    requires |fs| == |vs| && forall i :: 0 <= i < |fs| ==> Has(fs[i], vs[i])
    ensures Kinds(OutFields(fs, vs)) == LeavesOfFields(fs)
    decreases fs, 1, |vs|
  {
    if fs != [] {
      OutHasLeaves(fs[0], vs[0]);
      OutFieldsHasLeaves(fs[1..], vs[1..]);
      KindsOfBoth(Out(fs[0], vs[0]), OutFields(fs[1..], vs[1..]));
    }
  }

  // what a nil pointer's leaves are

  predicate AllZero(b: Bytes) {
    forall x <- b :: x == 0
  }

  /** Go's zero value, of whatever type. */
  predicate Blank(v: Value) {
    match v
    case VBool(b) => !b
    case VString(s) => s == []
    case VNumber(bits) => AllZero(bits)
    case VBytes(isNil, data) => isNil && data == []
    case VSlice(isNil, elems) => isNil && elems == []
    case VArray(elems) => forall x <- elems :: Blank(x)
    case VStruct(fields) => forall x <- fields :: Blank(x)
    case VNil => true
    case VPointer(_) => false
  }

  predicate BlankLeaf(l: Leaf) {
    match l
    case LBool(b) => !b
    case LString(s) => s == []
    case LBytes(_, data) => AllZero(data)
  }

  lemma {:induction false} ZeroIsBlank(s: Shape)
    ensures Blank(Zero(s))
    decreases s
  {
    match s
    case SArray(_, e) => ZeroIsBlank(e);
    case SStruct(fs) => forall i | 0 <= i < |fs| ensures Blank(Zero(fs[i])) { ZeroIsBlank(fs[i]); }
    case _ =>
  }

  lemma BlankBytes(vs: seq<Value>)
    requires AreBytes(vs) && forall v <- vs :: Blank(v)
    ensures AllZero(BytesOf(vs))
  {
    var b := BytesOf(vs);
    forall i | 0 <= i < |vs| ensures b[i] == 0 {
      assert Blank(vs[i]) && ElemsOf(b)[i] == vs[i] == VNumber([b[i]]);
      assert [b[i]][0] in vs[i].bits;
    }
  }

  lemma {:induction false} BlankWrites(s: Shape, v: Value)
    requires Has(s, v) && Blank(v)
    ensures AllZero(Write(s, v))
    decreases s, 0
  {
    match s
    case SByteArray(_) => BlankBytes(v.elems);
    case SArray(_, e) => BlanksWrite(e, v.elems);
    case SStruct(fs) => BlankFieldsWrite(fs, v.fields);
    case _ =>
  }

  lemma {:induction false} BlanksWrite(e: Shape, vs: seq<Value>)
    requires forall v <- vs :: Has(e, v) && Blank(v)
    ensures AllZero(WriteAll(e, vs))
    decreases e, 1, |vs|
  {
    hide Has, Write;
    if vs != [] {
      BlankWrites(e, vs[0]);
      BlanksWrite(e, vs[1..]);
    }
  }

  lemma {:induction false} BlankFieldsWrite(fs: seq<Shape>, vs: seq<Value>)
    requires |fs| == |vs| && forall i :: 0 <= i < |fs| ==> Has(fs[i], vs[i]) && Blank(vs[i])
    ensures AllZero(WriteFields(fs, vs))
    decreases fs, 1, |vs|
  {
    hide Has, Write;
    if fs != [] {
      BlankWrites(fs[0], vs[0]);
      BlankFieldsWrite(fs[1..], vs[1..]);
    }
  }

  lemma {:induction false} BlankFansOut(s: Shape, v: Value)
    requires Has(s, v) && Blank(v)
    ensures forall l <- Out(s, v) :: BlankLeaf(l)
    decreases s, 0
  {
    BlankWrites(s, v);
    hide Write;
    match s
    case SByteArray(_) => BlankBytes(v.elems);
    case SArray(n, e) => if ElementWise(n, e) { BlanksFanOut(e, v.elems); }
    case SStruct(fs) => BlankFieldsFanOut(fs, v.fields);
    case SPointer(e) =>
      ZeroIsBlank(e);
      BlankFansOut(e, Zero(e));
    case _ =>
  }

  lemma {:induction false} BlanksFanOut(e: Shape, vs: seq<Value>)
    requires forall v <- vs :: Has(e, v) && Blank(v)
    ensures forall l <- OutAll(e, vs) :: BlankLeaf(l)
    decreases e, 1, |vs|
  {
    hide Has, Out, BlankLeaf;
    if vs != [] {
      BlankFansOut(e, vs[0]);
      BlanksFanOut(e, vs[1..]);
    }
  }

  lemma {:induction false} BlankFieldsFanOut(fs: seq<Shape>, vs: seq<Value>)
    requires |fs| == |vs| && forall i :: 0 <= i < |fs| ==> Has(fs[i], vs[i]) && Blank(vs[i])
    ensures forall l <- OutFields(fs, vs) :: BlankLeaf(l)
    decreases fs, 1, |vs|
  {
    hide Has, Out, BlankLeaf;
    if fs != [] {
      BlankFansOut(fs[0], vs[0]);
      BlankFieldsFanOut(fs[1..], vs[1..]);
    }
  }

  /** A nil pointer fans out to false and to the leaves of its element's zero value, none
      of which holds anything. */
  lemma NilLeavesAreBlank(e: Shape)
    ensures var ls := Out(SPointer(e), VNil);
      ls != [] && ls[0] == LBool(false) && Kinds(ls[1..]) == Leaves(e) && forall l <- ls :: BlankLeaf(l)
  {
    OutHasLeaves(e, Zero(e));
    BlankFansOut(SPointer(e), VNil);
    hide Zero;
    assert Out(SPointer(e), VNil)[1..] == Out(e, Zero(e));
  }

  /** The value of leaves of the declared kinds, inside a fanned value. */
  ghost function In(s: Shape, ls: seq<Leaf>): Value
    requires Kinds(ls) == Leaves(s)
    decreases s, 0
  {
    match s
    case SBool => assert Kinds(ls)[0] == BoolLeaf; VBool(ls[0].b)
    case SString => assert Kinds(ls)[0] == StringLeaf; VString(ls[0].s)
    case SNumber(w) => VNumber(Fit(Data(ls), w))
    case SBytes => VBytes(Data(ls) == [], Data(ls))
    case SByteArray(n) => VArray(ElemsOf(Fit(Data(ls), n)))
    case SSlice(_) => Read(s, Data(ls)).0
    case SArray(n, e) => if ElementWise(n, e) then VArray(InAll(e, n, ls)) else Read(s, Data(ls)).0
    case SStruct(fs) => VStruct(InFields(fs, ls))
    case SPointer(e) =>
      assert Kinds(ls)[0] == BoolLeaf && Kinds(ls[1..]) == Kinds(ls)[1..] == Leaves(e);
      if !ls[0].b then VNil else VPointer(In(e, ls[1..]))
  }

  function Data(ls: seq<Leaf>): Bytes
    requires |ls| == 1 && Kinds(ls) == [BytesLeaf]
  {
    assert Kinds(ls)[0] == BytesLeaf;
    ls[0].data
  }

  ghost function InAll(e: Shape, n: nat, ls: seq<Leaf>): (vs: seq<Value>)
    requires Kinds(ls) == Repeat(n, Leaves(e))
    ensures |vs| == n
    decreases e, 1, n
  {
    if n == 0 then [] else
      var k := |Leaves(e)|;
      KindsCut(ls, Leaves(e), Repeat(n - 1, Leaves(e)));
      [In(e, ls[..k])] + InAll(e, n - 1, ls[k..])
  }

  ghost function InFields(fs: seq<Shape>, ls: seq<Leaf>): (vs: seq<Value>)
    requires Kinds(ls) == LeavesOfFields(fs)
    ensures |vs| == |fs|
    decreases fs, 1, |fs|
  {
    if fs == [] then [] else
      var k := |Leaves(fs[0])|;
      KindsCut(ls, Leaves(fs[0]), LeavesOfFields(fs[1..]));
      [In(fs[0], ls[..k])] + InFields(fs[1..], ls[k..])
  }

  /** What the round trip through the leaves keeps of a value inside a fan: empty
      blobs become nil, and what rides as one leaf keeps what the codec keeps. */
  ghost function FanKept(s: Shape, v: Value): Value
    requires Has(s, v)
    decreases s, 0
  {
    match s
    case SBytes => VBytes(v.data == [], v.data)
    case SSlice(_) => Kept(s, v, 0)
    case SArray(n, e) => if ElementWise(n, e) then VArray(FanKeptAll(e, v.elems)) else Kept(s, v, 0)
    case SStruct(fs) => VStruct(FanKeptFields(fs, v.fields))
    case SPointer(e) => if v.VNil? then VNil else VPointer(FanKept(e, v.target))
    case _ => v
  }

  ghost function FanKeptAll(e: Shape, vs: seq<Value>): (ks: seq<Value>)
    requires forall v <- vs :: Has(e, v)
    ensures |ks| == |vs|
    decreases e, 1, |vs|
  {
    if vs == [] then [] else [FanKept(e, vs[0])] + FanKeptAll(e, vs[1..])
  }

  ghost function FanKeptFields(fs: seq<Shape>, vs: seq<Value>): (ks: seq<Value>)
    requires |fs| == |vs| && forall i :: 0 <= i < |fs| ==> Has(fs[i], vs[i])
    ensures |ks| == |vs|
    decreases fs, 1, |vs|
  {
    if fs == [] then [] else [FanKept(fs[0], vs[0])] + FanKeptFields(fs[1..], vs[1..])
  }

  /** Fan-in of fan-out, for every shape and value. */
  lemma {:induction false} FansBack(s: Shape, v: Value)
    requires Has(s, v)
    ensures Kinds(Out(s, v)) == Leaves(s) && In(s, Out(s, v)) == FanKept(s, v)
    decreases s, 0
  {
    OutHasLeaves(s, v);
    match s
    case SSlice(_) => EncodedReadsBack(s, v);
    case SArray(n, e) =>
      if ElementWise(n, e) {
        AllFanBack(e, v.elems);
      } else {
        EncodedReadsBack(s, v);
      }
    case SStruct(fs) => FieldsFanBack(fs, v.fields);
    case SPointer(e) =>
      var x := if v.VNil? then Zero(e) else v.target;
      FansBack(e, x);
      assert Out(s, v)[1..] == Out(e, x);
    case _ =>
  }

  lemma EncodedReadsBack(s: Shape, v: Value)
    requires Has(s, v)
    ensures Read(s, Encoded(s, v).data).0 == Kept(s, v, 0)
  {
    ReadsBack(s, v, []);
    assert Write(s, v) + [] == Write(s, v);
  }

  lemma {:induction false} AllFanBack(e: Shape, vs: seq<Value>)
    requires forall v <- vs :: Has(e, v)
    ensures Kinds(OutAll(e, vs)) == Repeat(|vs|, Leaves(e)) && InAll(e, |vs|, OutAll(e, vs)) == FanKeptAll(e, vs)
    decreases e, 1, |vs|
  {
    OutAllHasLeaves(e, vs);
    if vs != [] {
      FansBack(e, vs[0]);
      AllFanBack(e, vs[1..]);
      SplitsAt(Out(e, vs[0]), OutAll(e, vs[1..]), |Leaves(e)|);
    }
  }

  lemma {:induction false} FieldsFanBack(fs: seq<Shape>, vs: seq<Value>)
    requires |fs| == |vs| && forall i :: 0 <= i < |fs| ==> Has(fs[i], vs[i])
    ensures Kinds(OutFields(fs, vs)) == LeavesOfFields(fs) && InFields(fs, OutFields(fs, vs)) == FanKeptFields(fs, vs)
    decreases fs, 1, |vs|
  {
    OutFieldsHasLeaves(fs, vs);
    if fs != [] {
      FansBack(fs[0], vs[0]);
      FieldsFanBack(fs[1..], vs[1..]);
      SplitsAt(Out(fs[0], vs[0]), OutFields(fs[1..], vs[1..]), |Leaves(fs[0])|);
    }
  }

  lemma SplitsAt<T>(a: seq<T>, b: seq<T>, k: nat)
    requires |a| == k
    ensures (a + b)[..k] == a && (a + b)[k..] == b
  {
  }

  /** Fan-in of any leaves of the declared kinds is a value: no input is rejected. */
  lemma {:induction false} InIsTotal(s: Shape, ls: seq<Leaf>)
    requires Kinds(ls) == Leaves(s)
    ensures Has(s, In(s, ls))
    decreases s, 0
  {
    match s
    case SSlice(_) => ReadIsTotal(s, Data(ls));
    case SArray(n, e) =>
      if ElementWise(n, e) {
        InAllIsTotal(e, n, ls);
      } else {
        ReadIsTotal(s, Data(ls));
      }
    case SStruct(fs) => InFieldsIsTotal(fs, ls);
    case SPointer(e) =>
      assert Kinds(ls[1..]) == Kinds(ls)[1..] == Leaves(e);
      InIsTotal(e, ls[1..]);
    case _ =>
  }

  lemma {:induction false} InAllIsTotal(e: Shape, n: nat, ls: seq<Leaf>)
    requires Kinds(ls) == Repeat(n, Leaves(e))
    ensures forall v <- InAll(e, n, ls) :: Has(e, v)
    decreases e, 1, n
  {
    if n > 0 {
      var k := |Leaves(e)|;
      KindsCut(ls, Leaves(e), Repeat(n - 1, Leaves(e)));
      InIsTotal(e, ls[..k]);
      InAllIsTotal(e, n - 1, ls[k..]);
    }
  }

  lemma {:induction false} InFieldsIsTotal(fs: seq<Shape>, ls: seq<Leaf>)
    requires Kinds(ls) == LeavesOfFields(fs)
    ensures var vs := InFields(fs, ls); forall i :: 0 <= i < |fs| ==> Has(fs[i], vs[i])
    decreases fs, 1, |fs|
  {
    if fs != [] {
      var k := |Leaves(fs[0])|;
      KindsCut(ls, Leaves(fs[0]), LeavesOfFields(fs[1..]));
      InIsTotal(fs[0], ls[..k]);
      InFieldsIsTotal(fs[1..], ls[k..]);
    }
  }

  /** When the round trip through the leaves gives the very value back. */
  ghost predicate FanSurvives(s: Shape, v: Value)
    requires Has(s, v)
    decreases s, 0
  {
    match s
    case SBytes => v.data == [] ==> v.isNil
    case SSlice(_) => Survives(s, v, 0)
    case SArray(n, e) => if ElementWise(n, e) then forall x <- v.elems :: FanSurvives(e, x) else Survives(s, v, 0)
    case SStruct(fs) => forall i :: 0 <= i < |fs| ==> FanSurvives(fs[i], v.fields[i])
    case SPointer(e) => v.VNil? || FanSurvives(e, v.target)
    case _ => true
  }

  lemma {:induction false} FanUnchangedIff(s: Shape, v: Value)
    requires Has(s, v)
    ensures FanKept(s, v) == v <==> FanSurvives(s, v)
    decreases s, 0
  {
    match s
    case SSlice(_) => KeptUnchangedIff(s, v, 0);
    case SArray(n, e) =>
      if ElementWise(n, e) {
        AllFanUnchangedIff(e, v.elems);
      } else {
        KeptUnchangedIff(s, v, 0);
      }
    case SStruct(fs) => FieldsFanUnchangedIff(fs, v.fields);
    case SPointer(e) => if v.VPointer? { FanUnchangedIff(e, v.target); }
    case _ =>
  }

  lemma {:induction false} AllFanUnchangedIff(e: Shape, vs: seq<Value>)
    requires forall v <- vs :: Has(e, v)
    ensures FanKeptAll(e, vs) == vs <==> forall v <- vs :: FanSurvives(e, v)
    decreases e, 1, |vs|
  {
    if vs != [] {
      FanUnchangedIff(e, vs[0]);
      AllFanUnchangedIff(e, vs[1..]);
      HeadAndTail(vs, FanKeptAll(e, vs));
      assert vs == [vs[0]] + vs[1..];
    }
  }

  lemma {:induction false} FieldsFanUnchangedIff(fs: seq<Shape>, vs: seq<Value>)
    requires |fs| == |vs| && forall i :: 0 <= i < |fs| ==> Has(fs[i], vs[i])
    ensures FanKeptFields(fs, vs) == vs <==> forall i :: 0 <= i < |fs| ==> FanSurvives(fs[i], vs[i])
    decreases fs, 1, |vs|
  {
    if fs != [] {
      FanUnchangedIff(fs[0], vs[0]);
      FieldsFanUnchangedIff(fs[1..], vs[1..]);
      HeadAndTail(vs, FanKeptFields(fs, vs));
      assert forall i :: 1 <= i < |fs| ==> fs[i] == fs[1..][i - 1] && vs[i] == vs[1..][i - 1];
    }
  }
}
