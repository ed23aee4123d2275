/** The wire codec of a message broker's frames. */
module FrameCodec {
  import opened Options

  type Byte = x: int | 0 <= x < 256
  type Bytes = seq<Byte>
  type Uint64 = x: int | 0 <= x < 0x1_0000_0000_0000_0000

  const MAX_UINT16 := 0xFFFF
  const MAX_UINT32 := 0xFFFF_FFFF

  datatype Header = Header(name: Bytes, value: Bytes)

  datatype TraceId = TraceId(hi: Uint64, lo: Uint64)

  /** A nil header list or payload is none; it differs from an empty one. */
  datatype Frame = Frame(
    version: Byte, kind: Byte, topic: Bytes,
    headers: Option<seq<Header>>, payload: Option<Bytes>, trace: Option<TraceId>)

  // ------------------------------------------------------------- the format

  /** n in w bytes, the least significant first. */
  function LittleEndian(n: nat, w: nat): (b: Bytes)
    ensures |b| == w
  {
    if w == 0 then [] else [n % 256] + LittleEndian(n / 256, w - 1)
  }

  function Value(b: Bytes): nat {
    if b == [] then 0 else b[0] + 256 * Value(b[1..])
  }

  function Cut(b: Bytes, n: nat): (r: Bytes)
    ensures |r| <= n && r <= b
  {
    if |b| > n then b[..n] else b
  }

  function CutHeaders(hs: seq<Header>): (r: seq<Header>)
    ensures |r| <= MAX_UINT16
  {
    if |hs| > MAX_UINT16 then hs[..MAX_UINT16] else hs
  }

  function Text(s: Bytes): Bytes {
    LittleEndian(|Cut(s, MAX_UINT16)|, 2) + Cut(s, MAX_UINT16)
  }

  function Blob(v: Bytes): Bytes {
    LittleEndian(|Cut(v, MAX_UINT32)|, 4) + Cut(v, MAX_UINT32)
  }

  function Pairs(hs: seq<Header>): Bytes {
    if hs == [] then [] else Text(hs[0].name) + (Text(hs[0].value) + Pairs(hs[1..]))
  }

  function List(hs: seq<Header>): Bytes {
    LittleEndian(|CutHeaders(hs)|, 2) + Pairs(CutHeaders(hs))
  }

  function Trace(t: Option<TraceId>): Bytes {
    match t
    case None => [0]
    case Some(id) => [1] + (LittleEndian(id.hi, 8) + LittleEndian(id.lo, 8))
  }

  function OrEmpty<T>(s: Option<seq<T>>): seq<T> {
    if s.Some? then s.value else []
  }

  function Encoded(f: Frame): Bytes {
    [f.version]
    + ([f.kind] + (Text(f.topic) + (List(OrEmpty(f.headers)) + (Blob(OrEmpty(f.payload)) + Trace(f.trace)))))
  }

  /** A frame, byte by byte: lengths and numbers come least significant byte first. */
  lemma OnTheWire()
    ensures Encoded(Frame(1, 2, [97, 98], None, Some([9]), None)) == [1, 2, 2, 0, 97, 98, 0, 0, 1, 0, 0, 0, 9, 0]
  {
    TextsOnTheWire();
    hide LittleEndian, Text, List, Blob;
    assert Trace(None) == [0];
  }

  lemma TextsOnTheWire()
    ensures Text([97, 98]) == [2, 0, 97, 98] && Blob([9]) == [1, 0, 0, 0, 9] && List([]) == [0, 0]
  {
    assert LittleEndian(2, 2) == [2, 0] && LittleEndian(0, 2) == [0, 0];
    assert LittleEndian(1, 4) == [1, 0, 0, 0];
    hide LittleEndian;
    assert Pairs([]) == [];
  }

  /** A trace is its high word and then its low one, after a byte that says it is there. */
  lemma TraceOnTheWire(hi: nat, lo: nat)
    requires hi < 256 && lo < 256
    ensures var b := Trace(Some(TraceId(hi, lo)));
      && |b| == 17 && b[0] == 1 && b[1] == hi && b[9] == lo
      && forall i :: 1 < i < 17 && i != 9 ==> b[i] == 0
  {
    SmallWord(hi, 8);
    SmallWord(lo, 8);
    hide LittleEndian;
  }

  lemma {:induction false} SmallWord(n: nat, w: nat)
    requires n < 256
    ensures forall i :: 0 <= i < w ==> LittleEndian(n, w)[i] == if i == 0 then n else 0
    decreases w
  {
    if w > 0 {
      SmallWord(n / 256, w - 1);
    }
  }

  /** A header is its name and then its value. */
  lemma HeaderOnTheWire()
    ensures Pairs([Header([107], [118])]) == [1, 0, 107, 1, 0, 118]
  {
    var hs := [Header([107], [118])];
    assert LittleEndian(1, 2) == [1, 0] && hs[1..] == [] && Pairs([]) == [];
    hide LittleEndian;
  }

  // -------------------------------------------------------------- reading it

  /** What was read and what remains. */
  type Got<T> = Option<(T, Bytes)>

  function Take(b: Bytes, n: nat): Got<Bytes> {
    if n > |b| then None else Some((b[..n], b[n..]))
  }

  function GetByte(b: Bytes): Got<Byte> {
    if b == [] then None else Some((b[0], b[1..]))
  }

  function GetNumber(b: Bytes, w: nat): (g: Got<nat>) {
    match Take(b, w)
    case None => None
    case Some(p) => Some((Value(p.0), p.1))
  }

  /** A length of w bytes and as many bytes. */
  function GetSized(b: Bytes, w: nat): Got<Bytes> {
    match GetNumber(b, w)
    case None => None
    case Some(n) => Take(n.1, n.0)
  }

  function GetPairs(b: Bytes, n: nat): Got<seq<Header>> {
    if n == 0 then Some(([], b)) else
      match GetSized(b, 2)
      case None => None
      case Some(name) =>
        match GetSized(name.1, 2)
        case None => None
        case Some(value) =>
          match GetPairs(value.1, n - 1)
          case None => None
          case Some(rest) => Some(([Header(name.0, value.0)] + rest.0, rest.1))
  }

  /** The pairs read before, then those read now. */
  function After(hs: seq<Header>, g: Got<seq<Header>>): Got<seq<Header>> {
    match g case None => None case Some(p) => Some((hs + p.0, p.1))
  }

  lemma AfterNothing(g: Got<seq<Header>>)
    ensures After([], g) == g
  {
    if g.Some? {
      assert [] + g.value.0 == g.value.0;
    }
  }

  lemma AfterMore(hs: seq<Header>, h: Header, g: Got<seq<Header>>)
    ensures After(hs + [h], g) == After(hs, After([h], g))
  {
    if g.Some? {
      assert hs + [h] + g.value.0 == hs + ([h] + g.value.0);
    }
  }

  lemma AfterEnds(hs: seq<Header>, b: Bytes)
    ensures After(hs, GetPairs(b, 0)) == Some((hs, b)) && After(hs, None) == None
  {
    assert hs + [] == hs;
  }

  lemma NoPairs()
    ensures forall hs :: After(hs, None) == None
  {
  }

  /** One pair and the rest. */
  lemma PairsStep(b: Bytes, n: nat)
    requires n > 0
    ensures GetPairs(b, n) ==
      match GetSized(b, 2)
      case None => None
      case Some(name) =>
        match GetSized(name.1, 2)
        case None => None
        case Some(value) => After([Header(name.0, value.0)], GetPairs(value.1, n - 1))
  {
    hide GetSized;
  }

  function GetList(b: Bytes): Got<Option<seq<Header>>> {
    match GetNumber(b, 2)
    case None => None
    case Some(n) =>
      if n.0 == 0 then Some((None, n.1)) else
        match GetPairs(n.1, n.0)
        case None => None
        case Some(hs) => Some((Some(hs.0), hs.1))
  }

  function GetBlob(b: Bytes): Got<Option<Bytes>> {
    match GetSized(b, 4)
    case None => None
    case Some(v) => Some((if v.0 == [] then None else Some(v.0), v.1))
  }

  lemma {:induction false} ValueBound(b: Bytes)
    ensures Value(b) < Power(|b|)
  {
    if b != [] {
      ValueBound(b[1..]);
    }
  }

  function Power(w: nat): nat {
    if w == 0 then 1 else 256 * Power(w - 1)
  }

  lemma Powers()
    ensures Power(2) == 0x1_0000 && Power(4) == 0x1_0000_0000 && Power(8) == 0x1_0000_0000_0000_0000
  {
    assert Power(2) == 0x1_0000;
    assert Power(4) == 256 * (256 * Power(2));
    assert Power(6) == 256 * (256 * Power(4));
    assert Power(8) == 256 * (256 * Power(6));
  }

  function GetUint64(b: Bytes): Got<Uint64> {
    match Take(b, 8)
    case None => None
    case Some(p) =>
      ValueBound(p.0);
      Powers();
      Some((Value(p.0), p.1))
  }

  function GetTrace(b: Bytes): Got<Option<TraceId>> {
    match GetByte(b)
    case None => None
    case Some(present) =>
      if present.0 == 0 then Some((None, present.1)) else
        match GetUint64(present.1)
        case None => None
        case Some(hi) =>
          match GetUint64(hi.1)
          case None => None
          case Some(lo) => Some((Some(TraceId(hi.0, lo.0)), lo.1))
  }

  /** The frame at the start of b, if all of it is there. */
  function Decoded(b: Bytes): Option<Frame> {
    match GetByte(b)
    case None => None
    case Some(version) =>
      match GetByte(version.1)
      case None => None
      case Some(kind) =>
        match GetSized(kind.1, 2)
        case None => None
        case Some(topic) =>
          match GetList(topic.1)
          case None => None
          case Some(headers) =>
            match GetBlob(headers.1)
            case None => None
            case Some(payload) =>
              match GetTrace(payload.1)
              case None => None
              case Some(trace) => Some(Frame(version.0, kind.0, topic.0, headers.0, payload.0, trace.0))
  }

  // ---------------------------------------------------------- the round trip

  /** What a frame keeps: strings and the header list up to 65535, the payload up to
      2^32-1 bytes, an empty list or payload as nil. */
  function Kept(f: Frame): Frame {
    var hs := KeptPairs(CutHeaders(OrEmpty(f.headers)));
    var p := Cut(OrEmpty(f.payload), MAX_UINT32);
    Frame(
      f.version, f.kind, Cut(f.topic, MAX_UINT16), if hs == [] then None else Some(hs),
      if p == [] then None else Some(p), f.trace)
  }

  function KeptPairs(hs: seq<Header>): (r: seq<Header>)
    ensures |r| == |hs|
  {
    seq(|hs|, i requires 0 <= i < |hs| => KeptPair(hs[i]))
  }

  lemma {:induction false} ValueOf(n: nat, w: nat)
    requires n < Power(w)
    ensures Value(LittleEndian(n, w)) == n
  {
    if w > 0 {
      assert n / 256 < Power(w - 1);
      ValueOf(n / 256, w - 1);
    }
  }

  lemma TakeBack(a: Bytes, rest: Bytes)
    ensures Take(a + rest, |a|) == Some((a, rest))
  {
  }

  lemma NumberBack(n: nat, w: nat, rest: Bytes)
    requires n < Power(w)
    ensures GetNumber(LittleEndian(n, w) + rest, w) == Some((n, rest))
  {
    TakeBack(LittleEndian(n, w), rest);
    ValueOf(n, w);
  }

  lemma SizedBack(v: Bytes, w: nat, rest: Bytes)
    requires |v| < Power(w)
    ensures GetSized(LittleEndian(|v|, w) + v + rest, w) == Some((v, rest))
  {
    assert LittleEndian(|v|, w) + v + rest == LittleEndian(|v|, w) + (v + rest);
    NumberBack(|v|, w, v + rest);
    TakeBack(v, rest);
  }

  lemma TextBack(s: Bytes, rest: Bytes)
    ensures GetSized(Text(s) + rest, 2) == Some((Cut(s, MAX_UINT16), rest))
  {
    Powers();
    SizedBack(Cut(s, MAX_UINT16), 2, rest);
  }

  function KeptPair(h: Header): Header {
    Header(Cut(h.name, MAX_UINT16), Cut(h.value, MAX_UINT16))
  }

  lemma NoPairsBack(rest: Bytes)
    ensures GetPairs(Pairs([]) + rest, 0) == Some((KeptPairs([]), rest))
  {
    assert Pairs([]) + rest == rest;
  }

  lemma KeptStep(hs: seq<Header>, rest: Bytes)
    requires hs != []
    ensures Some((KeptPairs(hs), rest)) == After([KeptPair(hs[0])], Some((KeptPairs(hs[1..]), rest)))
  {
    hide Cut;
    assert KeptPairs(hs) == [KeptPair(hs[0])] + KeptPairs(hs[1..]);
  }

  lemma {:induction false} PairsBack(hs: seq<Header>, rest: Bytes)
    ensures GetPairs(Pairs(hs) + rest, |hs|) == Some((KeptPairs(hs), rest))
    decreases |hs|
  {
    hide Text, GetSized, Cut, Pairs, GetPairs, KeptPairs, After;
    if hs == [] {
      NoPairsBack(rest);
    } else {
      var tail := Pairs(hs[1..]) + rest;
      PairsOpen(hs, rest);
      PairsStep(Pairs(hs) + rest, |hs|);
      TextBack(hs[0].name, Text(hs[0].value) + tail);
      TextBack(hs[0].value, tail);
      PairsBack(hs[1..], rest);
      KeptStep(hs, rest);
    }
  }

  lemma PairsOpen(hs: seq<Header>, rest: Bytes)
    requires hs != []
    ensures Pairs(hs) + rest == Text(hs[0].name) + (Text(hs[0].value) + (Pairs(hs[1..]) + rest))
  {
    hide Text;
  }

  lemma ListBack(hs: seq<Header>, rest: Bytes)
    ensures var kept := KeptPairs(CutHeaders(hs));
      GetList(List(hs) + rest) == Some((if kept == [] then None else Some(kept), rest))
  {
    var cut := CutHeaders(hs);
    Powers();
    assert List(hs) + rest == LittleEndian(|cut|, 2) + (Pairs(cut) + rest);
    hide Power, LittleEndian, GetNumber, GetPairs, KeptPairs;
    NumberBack(|cut|, 2, Pairs(cut) + rest);
    PairsBack(cut, rest);
    if cut == [] {
      assert Pairs(cut) + rest == rest;
    }
  }

  lemma BlobBack(v: Bytes, rest: Bytes)
    ensures var cut := Cut(v, MAX_UINT32);
      GetBlob(Blob(v) + rest) == Some((if cut == [] then None else Some(cut), rest))
  {
    Powers();
    SizedBack(Cut(v, MAX_UINT32), 4, rest);
  }

  lemma TraceBack(t: Option<TraceId>, rest: Bytes)
    ensures GetTrace(Trace(t) + rest) == Some((t, rest))
  {
    hide LittleEndian, GetUint64;
    if t.Some? {
      var id := t.value;
      assert (Trace(t) + rest)[1..] == LittleEndian(id.hi, 8) + (LittleEndian(id.lo, 8) + rest);
      Uint64Back(id.hi, LittleEndian(id.lo, 8) + rest);
      Uint64Back(id.lo, rest);
    } else {
      assert (Trace(t) + rest)[1..] == rest;
    }
  }

  lemma Uint64Back(n: Uint64, rest: Bytes)
    ensures GetUint64(LittleEndian(n, 8) + rest) == Some((n, rest))
  {
    Powers();
    TakeBack(LittleEndian(n, 8), rest);
    ValueOf(n, 8);
  }

  /** Decoding what was encoded gives the frame with its cuts, whatever follows it. */
  lemma DecodesBack(f: Frame, rest: Bytes)
    ensures Decoded(Encoded(f) + rest) == Some(Kept(f))
  {
    hide Text, List, Blob, Trace, GetSized, GetList, GetBlob, GetTrace, KeptPairs, Cut, CutHeaders;
    var e := Trace(f.trace) + rest;
    var d := Blob(OrEmpty(f.payload)) + e;
    var c := List(OrEmpty(f.headers)) + d;
    var b := Text(f.topic) + c;
    assert Encoded(f) + rest == [f.version] + ([f.kind] + b);
    assert ([f.version] + ([f.kind] + b))[1..] == [f.kind] + b && ([f.kind] + b)[1..] == b;
    TextBack(f.topic, c);
    ListBack(OrEmpty(f.headers), d);
    BlobBack(OrEmpty(f.payload), e);
    TraceBack(f.trace, rest);
  }

  /** A frame comes back as it was exactly when nothing is cut or empty but not nil. */
  lemma KeptUnchangedIff(f: Frame)
    ensures Kept(f) == f <==>
      && |f.topic| <= MAX_UINT16 && f.headers != Some([]) && f.payload != Some([])
      && (f.payload.Some? ==> |f.payload.value| <= MAX_UINT32)
      && (f.headers.Some? ==> |f.headers.value| <= MAX_UINT16)
      && (f.headers.Some? ==> forall h <- f.headers.value :: |h.name| <= MAX_UINT16 && |h.value| <= MAX_UINT16)
  {
    if f.headers.Some? && |f.headers.value| <= MAX_UINT16 {
      var hs := f.headers.value;
      var ks := KeptPairs(hs);
      assert forall i :: 0 <= i < |hs| ==> hs[i] in hs;
      if forall h <- hs :: |h.name| <= MAX_UINT16 && |h.value| <= MAX_UINT16 {
        assert ks == hs;
      } else {
        var i :| 0 <= i < |hs| && !(|hs[i].name| <= MAX_UINT16 && |hs[i].value| <= MAX_UINT16);
        assert ks[i] != hs[i];
      }
    }
  }

  // ---------------------------------------------------------- strict prefixes

  /** Cut anywhere before its end, a part followed by a tail is cut inside the part, or
      inside the tail. */
  lemma CutInside(q: Bytes, a: Bytes, tail: Bytes)
    requires q < a + tail
    ensures q < a || (|a| <= |q| && q == a + q[|a|..] && q[|a|..] < tail)
  {
    if |q| >= |a| {
      assert q[..|a|] == (a + tail)[..|a|] == a;
      assert q[|a|..] == (a + tail)[|a|..|q|] == tail[..|q| - |a|];
    } else {
      assert q == (a + tail)[..|q|] == a[..|q|];
    }
  }

  lemma SizedCut(v: Bytes, w: nat, q: Bytes)
    requires |v| < Power(w) && q < LittleEndian(|v|, w) + v
    ensures GetSized(q, w) == None
  {
    CutInside(q, LittleEndian(|v|, w), v);
    if |q| >= w {
      NumberBack(|v|, w, q[w..]);
    }
  }

  lemma TextCut(s: Bytes, q: Bytes)
    requires q < Text(s)
    ensures GetSized(q, 2) == None
  {
    Powers();
    SizedCut(Cut(s, MAX_UINT16), 2, q);
  }

  lemma {:induction false} PairsCut(hs: seq<Header>, q: Bytes)
    requires q < Pairs(hs)
    ensures GetPairs(q, |hs|) == None
    decreases |hs|
  {
    hide Text, GetSized, Cut, GetPairs;
    var name, value, tail := Text(hs[0].name), Text(hs[0].value), Pairs(hs[1..]);
    PairsStep(q, |hs|);
    CutInside(q, name, value + tail);
    if q < name {
      TextCut(hs[0].name, q);
    } else {
      var r := q[|name|..];
      TextBack(hs[0].name, r);
      CutInside(r, value, tail);
      if r < value {
        TextCut(hs[0].value, r);
      } else {
        TextBack(hs[0].value, r[|value|..]);
        PairsCut(hs[1..], r[|value|..]);
      }
    }
  }

  lemma ListCut(hs: seq<Header>, q: Bytes)
    requires q < List(hs)
    ensures GetList(q) == None
  {
    var cut := CutHeaders(hs);
    Powers();
    hide Power, LittleEndian, GetPairs;
    CutInside(q, LittleEndian(|cut|, 2), Pairs(cut));
    if |q| >= 2 {
      NumberBack(|cut|, 2, q[2..]);
      PairsCut(cut, q[2..]);
    }
  }

  lemma BlobCut(v: Bytes, q: Bytes)
    requires q < Blob(v)
    ensures GetBlob(q) == None
  {
    Powers();
    SizedCut(Cut(v, MAX_UINT32), 4, q);
  }

  lemma TraceCut(t: Option<TraceId>, q: Bytes)
    requires q < Trace(t)
    ensures GetTrace(q) == None
  {
    if t.Some? && q != [] {
      var hi, lo := LittleEndian(t.value.hi, 8), LittleEndian(t.value.lo, 8);
      CutInside(q, [1], hi + lo);
      var r := q[1..];
      CutInside(r, hi, lo);
      hide LittleEndian;
      if |r| >= 8 {
        Uint64Back(t.value.hi, r[8..]);
      }
    }
  }

  /** Every strict prefix of an encoded frame is truncated. */
  lemma PrefixIsTruncated(f: Frame, q: Bytes)
    requires q < Encoded(f)
    ensures Decoded(q) == None
  {
    var e := Trace(f.trace);
    var d := Blob(OrEmpty(f.payload)) + e;
    var c := List(OrEmpty(f.headers)) + d;
    var b := Text(f.topic) + c;
    if |q| >= 2 {
      CutInside(q, [f.version], [f.kind] + b);
      var r := q[1..];
      CutInside(r, [f.kind], b);
      hide Text, List, Blob, Trace, GetSized, GetList, GetBlob, GetTrace;
      BodyCut(f, r[1..]);
    } else if |q| == 1 {
      assert q[1..] == [];
    }
  }

  lemma BodyCut(f: Frame, q: Bytes)
    requires q < Text(f.topic) + (List(OrEmpty(f.headers)) + (Blob(OrEmpty(f.payload)) + Trace(f.trace)))
    ensures DecodedBody(q) == None
  {
    hide Text, List, Blob, Trace, GetSized, GetList, GetBlob, GetTrace;
    var t, l, b := Text(f.topic), List(OrEmpty(f.headers)), Blob(OrEmpty(f.payload));
    CutInside(q, t, l + (b + Trace(f.trace)));
    if q < t {
      TextCut(f.topic, q);
    } else {
      var r := q[|t|..];
      TextBack(f.topic, r);
      CutInside(r, l, b + Trace(f.trace));
      if r < l {
        ListCut(OrEmpty(f.headers), r);
      } else {
        var s := r[|l|..];
        ListBack(OrEmpty(f.headers), s);
        CutInside(s, b, Trace(f.trace));
        if s < b {
          BlobCut(OrEmpty(f.payload), s);
        } else {
          BlobBack(OrEmpty(f.payload), s[|b|..]);
          TraceCut(f.trace, s[|b|..]);
        }
      }
    }
  }

  /** What Decoded reads after the version and the kind. */
  function DecodedBody(b: Bytes): Option<Frame> {
    match GetSized(b, 2)
    case None => None
    case Some(topic) =>
      match GetList(topic.1)
      case None => None
      case Some(headers) =>
        match GetBlob(headers.1)
        case None => None
        case Some(payload) =>
          match GetTrace(payload.1)
          case None => None
          case Some(trace) => Some(Frame(0, 0, topic.0, headers.0, payload.0, trace.0))
  }

  // ---------------------------------------------------------------- the code

  method PutString(b: Bytes, s: Bytes) returns (r: Bytes)
    ensures r == b + Text(s)
  {
    var n, v := |s|, s;
    if n > MAX_UINT16 {
      n := MAX_UINT16;
      v := v[..n];
    }
    r := b + LittleEndian(n, 2);
    r := r + v;
  }

  method PutBytes(b: Bytes, s: Bytes) returns (r: Bytes)
    ensures r == b + Blob(s)
  {
    var n, v := |s|, s;
    if n > MAX_UINT32 {
      n := MAX_UINT32;
      v := v[..n];
    }
    r := b + LittleEndian(n, 4);
    r := r + v;
  }

  method PutHeaders(b: Bytes, headers: seq<Header>) returns (r: Bytes)
    ensures r == b + List(headers)
  {
    var n, hs := |headers|, headers;
    if n > MAX_UINT16 {
      n := MAX_UINT16;
      hs := hs[..n];
    }
    r := b + LittleEndian(n, 2);
    ListIs(b, r, headers, hs);
    hide LittleEndian, Text, Pairs, List;
    for i := 0 to |hs|
      invariant r + Pairs(hs[i..]) == b + List(headers)
    {
      assert hs[i..][1..] == hs[i + 1..] && hs[i..][0] == hs[i];
      PairsOpen(hs[i..], []);
      Joined(r, Text(hs[i].name), Text(hs[i].value), Pairs(hs[i + 1..]), Pairs(hs[i..]));
      r := PutString(r, hs[i].name);
      r := PutString(r, hs[i].value);
    }
    assert hs[|hs|..] == [] && Pairs([]) == [] by { NoneIsEmpty(); }
  }

  lemma ListIs(b: Bytes, r: Bytes, headers: seq<Header>, hs: seq<Header>)
    requires hs == CutHeaders(headers) && r == b + LittleEndian(|hs|, 2)
    ensures r + Pairs(hs[0..]) == b + List(headers)
  {
    hide LittleEndian, Pairs;
    assert hs[0..] == hs;
    var count, pairs := LittleEndian(|hs|, 2), Pairs(hs);
    assert b + count + pairs == b + (count + pairs);
  }

  lemma NoneIsEmpty()
    ensures Pairs([]) == []
  {
  }

  lemma Joined(r: Bytes, name: Bytes, value: Bytes, tail: Bytes, all: Bytes)
    requires all + [] == name + (value + (tail + []))
    ensures r + name + value + tail == r + all
  {
    assert tail + [] == tail && all + [] == all;
    assert r + name + value + tail == r + (name + (value + tail));
  }

  method PutTrace(b: Bytes, t: Option<TraceId>) returns (r: Bytes)
    ensures r == b + Trace(t)
  {
    if t.None? {
      return b + [0];
    }
    r := b + [1];
    r := r + LittleEndian(t.value.hi, 8);
    r := r + LittleEndian(t.value.lo, 8);
  }

  method Encode(f: Frame) returns (b: Bytes)
    ensures b == Encoded(f)
  {
    hide Text, List, Blob, Trace;
    b := [f.version, f.kind];
    b := PutString(b, f.topic);
    b := PutHeaders(b, OrEmpty(f.headers));
    b := PutBytes(b, OrEmpty(f.payload));
    b := PutTrace(b, f.trace);
    assert [f.version, f.kind] == [f.version] + [f.kind];
  }

  /** Reads from the front and keeps what remains. */
  class Reader {
    var b: Bytes

    constructor (b: Bytes)
      ensures this.b == b
    {
      this.b := b;
    }

    method TakeNext(n: nat) returns (v: Option<Bytes>)
      modifies this
      ensures match Take(old(b), n)
              case None => v == None && b == old(b)
              case Some(p) => v == Some(p.0) && b == p.1
    {
      if n > |b| {
        return None;
      }
      v := Some(b[..n]);
      b := b[n..];
    }

    method NextByte() returns (v: Option<Byte>)
      modifies this
      ensures match GetByte(old(b)) case None => v == None case Some(p) => v == Some(p.0) && b == p.1
    {
      var t := TakeNext(1);
      if t.None? {
        return None;
      }
      return Some(t.value[0]);
    }

    method NextNumber(w: nat) returns (v: Option<nat>)
      modifies this
      ensures match GetNumber(old(b), w) case None => v == None case Some(p) => v == Some(p.0) && b == p.1
    {
      var t := TakeNext(w);
      if t.None? {
        return None;
      }
      return Some(Value(t.value));
    }

    method NextUint64() returns (v: Option<Uint64>)
      modifies this
      ensures match GetUint64(old(b)) case None => v == None case Some(p) => v == Some(p.0) && b == p.1
    {
      var t := TakeNext(8);
      if t.None? {
        return None;
      }
      ValueBound(t.value);
      Powers();
      return Some(Value(t.value));
    }

    method NextSized(w: nat) returns (v: Option<Bytes>)
      modifies this
      ensures match GetSized(old(b), w) case None => v == None case Some(p) => v == Some(p.0) && b == p.1
    {
      var n := NextNumber(w);
      if n.None? {
        return None;
      }
      v := TakeNext(n.value);
    }

    method NextBlob() returns (v: Option<Option<Bytes>>)
      modifies this
      ensures match GetBlob(old(b)) case None => v == None case Some(p) => v == Some(p.0) && b == p.1
    {
      var t := NextSized(4);
      if t.None? {
        return None;
      }
      return if |t.value| == 0 then Some(None) else Some(Some(t.value));
    }

    method NextHeaders() returns (v: Option<Option<seq<Header>>>)
      modifies this
      ensures match GetList(old(b)) case None => v == None case Some(p) => v == Some(p.0) && b == p.1
    {
      hide GetSized, GetNumber;
      var n := NextNumber(2);
      if n.None? {
        return None;
      }
      if n.value == 0 {
        return Some(None);
      }
      var out: seq<Header> := [];
      ghost var start := b;
      AfterNothing(GetPairs(b, n.value));
      hide GetPairs, After;
      NoPairs();
      for i := 0 to n.value
        invariant |out| == i
        invariant GetPairs(start, n.value) == After(out, GetPairs(b, n.value - i))
      {
        ghost var was := GetPairs(b, n.value - i);
        PairsStep(b, n.value - i);
        var name := NextSized(2);
        if name.None? {
          return None;
        }
        var value := NextSized(2);
        if value.None? {
          return None;
        }
        AfterMore(out, Header(name.value, value.value), GetPairs(b, n.value - i - 1));
        out := out + [Header(name.value, value.value)];
      }
      AfterEnds(out, b);
      return Some(Some(out));
    }

    method NextTrace() returns (v: Option<Option<TraceId>>)
      modifies this
      ensures match GetTrace(old(b)) case None => v == None case Some(p) => v == Some(p.0) && b == p.1
    {
      var present := NextByte();
      if present.None? {
        return None;
      }
      if present.value == 0 {
        return Some(None);
      }
      var hi := NextUint64();
      if hi.None? {
        return None;
      }
      var lo := NextUint64();
      if lo.None? {
        return None;
      }
      return Some(Some(TraceId(hi.value, lo.value)));
    }
  }

  method Decode(b: Bytes) returns (f: Option<Frame>)
    ensures f == Decoded(b)
  {
    hide GetSized, GetList, GetBlob, GetTrace;
    var r := new Reader(b);
    var version := r.NextByte();
    if version.None? {
      return None;
    }
    var kind := r.NextByte();
    if kind.None? {
      return None;
    }
    var topic := r.NextSized(2);
    if topic.None? {
      return None;
    }
    var headers := r.NextHeaders();
    if headers.None? {
      return None;
    }
    var payload := r.NextBlob();
    if payload.None? {
      return None;
    }
    var trace := r.NextTrace();
    if trace.None? {
      return None;
    }
    return Some(Frame(version.value, kind.value, topic.value, headers.value, payload.value, trace.value));
  }
}
