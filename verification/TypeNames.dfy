/** How the generator tells types apart: by the string a type is shown as, with package
    names for package paths, and by the identifier it makes of that string. */
module TypeNames {
  import opened GoTypes

  function Digit(d: nat): char
    requires d < 10
  {
    "0123456789"[d]
  }

  function Decimal(n: nat): (s: string)
    ensures s != ""
  {
    if n < 10 then [Digit(n)] else Decimal(n / 10) + [Digit(n % 10)]
  }

  lemma {:induction false} DecimalIsInjective(a: nat, b: nat)
    requires Decimal(a) == Decimal(b)
    ensures a == b
  {
    var s, r := Decimal(a), Decimal(b);
    assert s[|s| - 1] == Digit(a % 10) && r[|r| - 1] == Digit(b % 10);
    if a >= 10 && b >= 10 {
      assert Decimal(a / 10) == s[..|s| - 1] == r[..|r| - 1] == Decimal(b / 10);
      DecimalIsInjective(a / 10, b / 10);
    }
  }

  function KindName(k: Kind): string {
    match k
    case Bool => "bool" case String => "string"
    case Int => "int" case Int8 => "int8" case Int16 => "int16" case Int32 => "int32" case Int64 => "int64"
    case Uint => "uint" case Uint8 => "uint8" case Uint16 => "uint16" case Uint32 => "uint32" case Uint64 => "uint64"
    case Float32 => "float32" case Float64 => "float64"
    case Unsupported(what) => what
  }

  /** types.TypeString with the generator's qualifier. */
  function Shown(defs: Defs, t: Type): string {
    match t
    case Basic(k) => KindName(k)
    case Slice(e) => "[]" + Shown(defs, e)
    case Array(n, e) => "[" + Decimal(n) + "]" + Shown(defs, e)
    case Struct(fs) => "struct{" + ShownFields(defs, fs) + "}"
    case Pointer(e) => "*" + Shown(defs, e)
    case Named(n) => defs.display(n)
    case Other(what) => what
  }

  function ShownFields(defs: Defs, fs: seq<Field>): string {
    if fs == [] then "" else
      fs[0].name + " " + Shown(defs, fs[0].ty) + if |fs| == 1 then "" else "; " + ShownFields(defs, fs[1..])
  }

  /** The types on a stack, as it holds them. */
  function Stack(defs: Defs, path: seq<Type>): (r: seq<string>)
    ensures |r| == |path| && forall i :: 0 <= i < |path| ==> r[i] == Shown(defs, path[i])
  {
    seq(|path|, i requires 0 <= i < |path| => Shown(defs, path[i]))
  }

  lemma StackOfMore(defs: Defs, path: seq<Type>, t: Type)
    ensures Stack(defs, path + [t]) == Stack(defs, path) + [Shown(defs, t)]
  {
  }

  lemma StackHolds(defs: Defs, path: seq<Type>, t: Type)
    requires t in path
    ensures Shown(defs, t) in Stack(defs, path)
  {
    var i :| 0 <= i < |path| && path[i] == t;
    assert Stack(defs, path)[i] == Shown(defs, t);
  }

  // ------------------------------------------------------------ identifiers

  /** The identifiers tried for a string in turn: the string cleaned up, then that with
      _2, _3 and so on. */
  function Candidate(base: string, n: nat): string {
    if n == 0 then base else base + "_" + Decimal(n + 1)
  }

  /** The first candidate that is not taken. */
  ghost predicate IsFirstFree(base: string, taken: set<string>, name: string) {
    exists n: nat {:trigger Candidate(base, n)} ::
      && name == Candidate(base, n) && name !in taken
      && forall m: nat {:trigger Candidate(base, m)} :: m < n ==> Candidate(base, m) in taken
  }

  lemma CandidatesDiffer(base: string, m: nat, n: nat)
    requires m != n
    ensures Candidate(base, m) != Candidate(base, n)
  {
    if m > 0 && n > 0 && Candidate(base, m) == Candidate(base, n) {
      var k := |base + "_"|;
      assert Decimal(m + 1) == Candidate(base, m)[k..] == Candidate(base, n)[k..] == Decimal(n + 1);
      DecimalIsInjective(m + 1, n + 1);
    }
  }

  ghost predicate OneToOne(idents: map<string, string>) {
    forall a, b :: a in idents && b in idents && idents[a] == idents[b] ==> a == b
  }

  /** What is kept by identifier, by the string the identifier was made of. */
  ghost function Resolved<T>(idents: map<string, string>, kept: map<string, T>): map<string, T> {
    map s | s in idents && idents[s] in kept :: kept[idents[s]]
  }

  /** A new identifier for a new string names nothing kept yet. */
  lemma FreshNameKeeps<T>(idents: map<string, string>, kept: map<string, T>, s: string, name: string)
    requires s !in idents && name !in kept
    ensures Resolved(idents[s := name], kept) == Resolved(idents, kept)
  {
  }

  /** What is kept under a string's identifier is kept for that string alone. */
  lemma KeptForOne<T>(idents: map<string, string>, kept: map<string, T>, s: string, v: T)
    requires OneToOne(idents) && s in idents
    ensures Resolved(idents, kept[idents[s] := v]) == Resolved(idents, kept)[s := v]
    ensures s in Resolved(idents, kept) <==> idents[s] in kept
    ensures idents[s] in kept ==> Resolved(idents, kept)[s] == kept[idents[s]]
  {
  }
}
