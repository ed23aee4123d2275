/** When the strings types are shown as tell them apart: whenever those of their names do. */
module ShownTypes {
  import opened GoTypes
  import opened TypeNames
  import opened FuzzWalk

  // -------------------------------------------------------- cutting a string

  /** How much of the text comes before the first such character. */
  function Before(text: string, stop: char -> bool): nat {
    if text == "" || stop(text[0]) then 0 else 1 + Before(text[1..], stop)
  }

  ghost predicate StartsWith(text: string, stop: char -> bool) {
    text == "" || stop(text[0])
  }

  lemma {:induction false} BeforeIs(x: string, y: string, stop: char -> bool)
    requires (forall c <- x :: !stop(c)) && StartsWith(y, stop)
    ensures Before(x + y, stop) == |x|
  {
    if x == "" {
      assert x + y == y;
    } else {
      assert (x + y)[1..] == x[1..] + y;
      assert forall c <- x[1..] :: c in x;
      BeforeIs(x[1..], y, stop);
    }
  }

  lemma SameCut(x: string, y: string, x': string, y': string, stop: char -> bool)
    requires (forall c <- x :: !stop(c)) && (forall c <- x' :: !stop(c)) && x + y == x' + y'
    requires StartsWith(y, stop) && StartsWith(y', stop)
    ensures x == x' && y == y'
  {
    BeforeIs(x, y, stop);
    BeforeIs(x', y', stop);
    assert x == (x + y)[..|x|] && y == (x + y)[|x|..] && x' == (x' + y')[..|x'|] && y' == (x' + y')[|x'|..];
  }

  // ------------------------------------------------------------ tidy types

  /** What a type is followed by inside another. */
  const ENDS: char -> bool := c => c == ';' || c == '}'

  const STRUCT := "struct{"

  /** A name, or whatever else is shown as it is, that does not read as a composite type. */
  predicate IsName(s: string) {
    s != "" && s[0] != '[' && s[0] != '*' && !(STRUCT <= s) && forall c <- s :: !ENDS(c)
  }

  predicate IsLeaf(t: Type) {
    t.Basic? || t.Named? || t.Other?
  }

  /** The leaves are shown apart. */
  ghost predicate LeavesApart(defs: Defs, leaves: iset<Type>) {
    && (forall t <- leaves :: IsLeaf(t) && IsName(Shown(defs, t)))
    && (forall t, u :: t in leaves && u in leaves && Shown(defs, t) == Shown(defs, u) ==> t == u)
  }

  /** Made of these leaves, its fields named as Go allows and exported by their names. */
  ghost predicate Tidy(leaves: iset<Type>, public: string -> bool, t: Type) {
    match t
    case Slice(e) => Tidy(leaves, public, e)
    case Array(_, e) => Tidy(leaves, public, e)
    case Pointer(e) => Tidy(leaves, public, e)
    case Struct(fs) => forall f <- fs :: TidyName(public, f) && Tidy(leaves, public, f.ty)
    case _ => t in leaves
  }

  predicate TidyName(public: string -> bool, f: Field) {
    f.name != "" && f.name[0] != '}' && ' ' !in f.name && f.exported == public(f.name)
  }

  // ----------------------------------------------------- one string, one type

  /** The kind of type a text starts with. */
  function Head(text: string): nat {
    if text == "" then 0
    else if text[0] == '*' then 1
    else if "[]" <= text then 2
    else if text[0] == '[' then 3
    else if STRUCT <= text then 4
    else 0
  }

  function Form(t: Type): nat {
    match t
    case Pointer(_) => 1
    case Slice(_) => 2
    case Array(_, _) => 3
    case Struct(_) => 4
    case _ => 0
  }

  lemma {:induction false} DecimalIsDigits(n: nat)
    ensures forall c <- Decimal(n) :: '0' <= c <= '9'
  {
    assert forall d: nat :: d < 10 ==> '0' <= Digit(d) <= '9';
    if n >= 10 {
      DecimalIsDigits(n / 10);
    }
  }

  lemma HeadIs(defs: Defs, leaves: iset<Type>, public: string -> bool, t: Type, rest: string)
    requires LeavesApart(defs, leaves) && Tidy(leaves, public, t) && StartsWith(rest, ENDS)
    ensures Head(Shown(defs, t) + rest) == Form(t)
  {
    match t
    case Array(n, e) =>
      DecimalIsDigits(n);
      var text := Shown(defs, t) + rest;
      assert text[1] == Decimal(n)[0] && Decimal(n)[0] in Decimal(n);
      assert text[0] == '[' && "[]"[1] != text[1];
    case Struct(fs) =>
    case Slice(_) =>
    case Pointer(_) =>
    case _ => NameHead(Shown(defs, t), rest);
  }

  lemma NameHead(name: string, rest: string)
    requires IsName(name) && StartsWith(rest, ENDS)
    ensures Head(name + rest) == 0
  {
    var text := name + rest;
    if |name| < |STRUCT| && |name| < |text| {
      assert text[|name|] == rest[0];
      assert forall i :: 0 <= i < |STRUCT| ==> !ENDS(STRUCT[i]);
    }
  }

  /** A shown type can be read back, and where it ends. */
  lemma {:induction false} ReadsAsOne(
      defs: Defs, leaves: iset<Type>, public: string -> bool, t: Type, u: Type, r: string, s: string)
    requires LeavesApart(defs, leaves) && Tidy(leaves, public, t) && Tidy(leaves, public, u)
    requires StartsWith(r, ENDS) && StartsWith(s, ENDS) && Shown(defs, t) + r == Shown(defs, u) + s
    ensures t == u && r == s
    decreases t, 1
  {
    hide LeavesApart, Head, IsName, StartsWith, TidyName, Decimal;
    HeadIs(defs, leaves, public, t, r);
    HeadIs(defs, leaves, public, u, s);
    match t
    case Pointer(e) =>
      AfterFirst("*", Shown(defs, e), r, "*", Shown(defs, u.elem), s);
      ReadsAsOne(defs, leaves, public, e, u.elem, r, s);
    case Slice(e) =>
      AfterFirst("[]", Shown(defs, e), r, "[]", Shown(defs, u.elem), s);
      ReadsAsOne(defs, leaves, public, e, u.elem, r, s);
    case Array(n, e) =>
      ArraysAsOne(n, Shown(defs, e), r, u.len, Shown(defs, u.elem), s);
      ReadsAsOne(defs, leaves, public, e, u.elem, r, s);
    case Struct(fs) =>
      var a, b := ShownFields(defs, fs), ShownFields(defs, u.fields);
      assert Shown(defs, t) + r == STRUCT + (a + "}") + r && Shown(defs, u) + s == STRUCT + (b + "}") + s;
      AfterFirst(STRUCT, a + "}", r, STRUCT, b + "}", s);
      assert a + "}" + r == a + ("}" + r) && b + "}" + s == b + ("}" + s);
      FieldsAsOne(defs, leaves, public, fs, u.fields, r, s);
    case _ => LeavesAsOne(defs, leaves, t, u, r, s);
  }

  lemma AfterFirst(first: string, x: string, r: string, first': string, y: string, s: string)
    requires |first| == |first'| && first + x + r == first' + y + s
    ensures first == first' && x + r == y + s
  {
    assert first + x + r == first + (x + r) && first' + y + s == first' + (y + s);
    assert (first + (x + r))[..|first|] == first && (first + (x + r))[|first|..] == x + r;
    assert (first' + (y + s))[..|first|] == first' && (first' + (y + s))[|first|..] == y + s;
  }

  lemma ArraysAsOne(n: nat, x: string, r: string, m: nat, y: string, s: string)
    requires "[" + Decimal(n) + "]" + x + r == "[" + Decimal(m) + "]" + y + s
    ensures n == m && x + r == y + s
  {
    DecimalIsDigits(n);
    DecimalIsDigits(m);
    hide Decimal;
    var a, b := "]" + x + r, "]" + y + s;
    assert "[" + Decimal(n) + "]" + x + r == "[" + Decimal(n) + a;
    assert "[" + Decimal(m) + "]" + y + s == "[" + Decimal(m) + b;
    AfterFirst("[", Decimal(n), a, "[", Decimal(m), b);
    SameCut(Decimal(n), a, Decimal(m), b, c => c == ']');
    DecimalIsInjective(n, m);
    assert a[1..] == x + r && b[1..] == y + s;
  }

  lemma LeavesAsOne(defs: Defs, leaves: iset<Type>, t: Type, u: Type, r: string, s: string)
    requires LeavesApart(defs, leaves) && t in leaves && u in leaves
    requires StartsWith(r, ENDS) && StartsWith(s, ENDS) && Shown(defs, t) + r == Shown(defs, u) + s
    ensures t == u && r == s
  {
    hide Shown;
    assert IsName(Shown(defs, t)) && IsName(Shown(defs, u));
    SameCut(Shown(defs, t), r, Shown(defs, u), s, ENDS);
  }

  /** What stands after a field's type. */
  function RestOf(defs: Defs, fs: seq<Field>, r: string): string
    requires fs != []
  {
    if |fs| == 1 then "}" + r else "; " + ShownFields(defs, fs[1..]) + "}" + r
  }

  lemma FieldsSplit(defs: Defs, fs: seq<Field>, r: string)
    requires fs != []
    ensures ShownFields(defs, fs) + "}" + r == fs[0].name + (" " + (Shown(defs, fs[0].ty) + RestOf(defs, fs, r)))
  {
  }

  lemma {:induction false} FieldsAsOne(
      defs: Defs, leaves: iset<Type>, public: string -> bool, fs: seq<Field>, gs: seq<Field>, r: string, s: string)
    requires LeavesApart(defs, leaves)
    requires forall f <- fs :: TidyName(public, f) && Tidy(leaves, public, f.ty)
    requires forall f <- gs :: TidyName(public, f) && Tidy(leaves, public, f.ty)
    requires ShownFields(defs, fs) + "}" + r == ShownFields(defs, gs) + "}" + s
    ensures fs == gs && r == s
    decreases fs, 0
  {
    hide LeavesApart;
    NoFields(defs, fs, r);
    NoFields(defs, gs, s);
    if fs != [] {
      FieldsSplit(defs, fs, r);
      FieldsSplit(defs, gs, s);
      var x, y := Shown(defs, fs[0].ty) + RestOf(defs, fs, r), Shown(defs, gs[0].ty) + RestOf(defs, gs, s);
      SameCut(fs[0].name, " " + x, gs[0].name, " " + y, c => c == ' ');
      assert (" " + x)[1..] == x && (" " + y)[1..] == y;
      ReadsAsOne(defs, leaves, public, fs[0].ty, gs[0].ty, RestOf(defs, fs, r), RestOf(defs, gs, s));
      RestsAsOne(defs, fs, gs, r, s);
      if |fs| > 1 {
        FieldsAsOne(defs, leaves, public, fs[1..], gs[1..], r, s);
      }
      assert fs == [fs[0]] + fs[1..] && gs == [gs[0]] + gs[1..];
    } else {
      assert ("" + "}" + r)[1..] == r && ("" + "}" + s)[1..] == s;
    }
  }

  lemma NoFields(defs: Defs, fs: seq<Field>, r: string)
    requires forall f <- fs :: f.name != "" && f.name[0] != '}'
    ensures fs == [] <==> (ShownFields(defs, fs) + "}" + r)[0] == '}'
  {
    if fs != [] {
      FieldsSplit(defs, fs, r);
    }
  }

  lemma RestsAsOne(defs: Defs, fs: seq<Field>, gs: seq<Field>, r: string, s: string)
    requires fs != [] && gs != [] && RestOf(defs, fs, r) == RestOf(defs, gs, s)
    ensures |fs| == 1 <==> |gs| == 1
    ensures |fs| == 1 ==> r == s
    ensures |fs| > 1 ==> ShownFields(defs, fs[1..]) + "}" + r == ShownFields(defs, gs[1..]) + "}" + s
  {
    hide ShownFields;
    if |fs| == 1 {
      assert RestOf(defs, fs, r)[0] == '}' && ("}" + r)[1..] == r && ("}" + s)[1..] == s;
    } else {
      assert RestOf(defs, fs, r)[0] == ';';
      assert RestOf(defs, fs, r) == "; " + (ShownFields(defs, fs[1..]) + "}") + r;
      assert RestOf(defs, gs, s) == "; " + (ShownFields(defs, gs[1..]) + "}") + s;
      AfterFirst("; ", ShownFields(defs, fs[1..]) + "}", r, "; ", ShownFields(defs, gs[1..]) + "}", s);
    }
  }

  /** Types made of leaves that are shown apart are shown apart. */
  lemma NamesTellApart(defs: Defs, leaves: iset<Type>, public: string -> bool, scope: iset<Type>)
    requires LeavesApart(defs, leaves) && forall t <- scope :: Tidy(leaves, public, t)
    ensures ShownApart(defs, scope)
  {
    hide LeavesApart, Shown;
    forall t, u | t in scope && u in scope && Shown(defs, t) == Shown(defs, u) ensures t == u {
      assert Shown(defs, t) + "" == Shown(defs, t) && Shown(defs, u) + "" == Shown(defs, u);
      ReadsAsOne(defs, leaves, public, t, u, "", "");
    }
  }

  /** So where they are, a fresh generator takes exactly the accepted types. */
  lemma NamedApartIsRight(defs: Defs, leaves: iset<Type>, public: string -> bool, t: Type)
    requires WellFormed(defs) && LeavesApart(defs, leaves) && forall u <- Reach(defs, [t]) :: Tidy(leaves, public, u)
    ensures FanWalk(defs, EMPTY, [], t).0.Some? <==> Accepted(defs, t)
  {
    NamesTellApart(defs, leaves, public, Reach(defs, [t]));
    hide LeavesApart, FanWalk, Accepted, Reach, ShownApart;
    FreshFanIsRight(defs, t);
  }
}
