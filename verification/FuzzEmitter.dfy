module FuzzEmitter {
  /** The fuzz generator itself: it walks Go types, emits each function once, keeps
      what it emitted by the identifier it gives the function, what it knows by the
      string a type is shown as, and the strings of the types being emitted on stacks.
      It is proved to walk as FuzzWalk says, whatever types it is given; a call it
      emits is written by the string its callee's identifier was made of. */

  import opened Options
  import opened GoTypes
  import opened TypeNames
  import opened FuzzCodec
  import opened FuzzProgram
  import opened FuzzWalk

  /** The live ones of the first i fields. */
  ghost function LiveTo(fs: seq<Field>, i: nat): seq<Field>
    requires i <= |fs|
  {
    Live(fs[..i])
  }

  lemma LiveEnds(fs: seq<Field>)
    ensures LiveTo(fs, 0) == [] && LiveTo(fs, |fs|) == Live(fs)
  {
    assert fs[..|fs|] == fs;
  }

  lemma LiveStep(fs: seq<Field>, i: nat)
    requires i < |fs|
    ensures LiveTo(fs, i + 1) == if fs[i].name == "_" then LiveTo(fs, i) else LiveTo(fs, i) + [fs[i]]
    ensures LiveTo(fs, i + 1) <= Live(fs)
  {
    assert fs[..i + 1][..i] == fs[..i];
    LiveOfFirst(fs, i + 1);
  }

  lemma {:induction false} LiveOfFirst(fs: seq<Field>, k: nat)
    requires k <= |fs|
    ensures Live(fs[..k]) <= Live(fs)
    decreases |fs|
  {
    var n := |fs| - 1;
    if k <= n {
      LiveOfFirst(fs[..n], k);
      assert fs[..n][..k] == fs[..k];
    } else {
      assert fs[..k] == fs;
    }
  }

  /** A live field can be walked into after those before it. */
  lemma LiveIsPart(defs: Defs, t: Type, fs: seq<Field>, i: nat)
    requires i < |fs| && fs[i].name != "_" && PartFields(defs, t, Live(fs))
    ensures fs[i].ty in Parts(defs, t) && PartFields(defs, t, LiveTo(fs, i))
    ensures LiveTo(fs, i) + [fs[i]] <= Live(fs) && fs[i] in Live(fs)
  {
    hide Parts, Live, LiveTo, PartFields;
    LiveStep(fs, i);
    FirstArePartFields(defs, t, LiveTo(fs, i), fs[i], Live(fs));
  }

  lemma FirstArePartFields(defs: Defs, t: Type, first: seq<Field>, f: Field, fs: seq<Field>)
    requires first + [f] <= fs && PartFields(defs, t, fs)
    ensures f in fs && f.ty in Parts(defs, t) && PartFields(defs, t, first)
  {
    hide Parts;
    assert fs[|first|] == f;
    assert forall i :: 0 <= i < |first| ==> fs[i] == first[i];
  }

  /** The second walk over a type finds what the first emitted. */
  lemma VisitAgain(defs: Defs, p: Program, path: seq<Type>, t: Type)
    requires Visit(defs, p, path, t).0
    ensures var q := Visit(defs, p, path, t).1; Visit(defs, q, path, t) == (true, q)
  {
    hide Shown, VisitFields, NamesOn;
  }

  /** The walk over some fields ends where that over the first of them fails. */
  lemma {:induction false} VisitStops(
      defs: Defs, p: Program, path: seq<Type>, t: Type, first: seq<Field>, fs: seq<Field>)
    requires t !in path && PartFields(defs, t, fs) && first <= fs
    requires !VisitFields(defs, p, path, t, first).0
    ensures VisitFields(defs, p, path, t, fs) == VisitFields(defs, p, path, t, first)
    decreases |fs|
  {
    hide Shown, NamesOn, Visit, Parts;
    if |first| == |fs| {
      assert first == fs;
    } else {
      VisitStops(defs, p, path, t, first, fs[..|fs| - 1]);
    }
  }

  lemma VisitOneMore(defs: Defs, p: Program, path: seq<Type>, t: Type, fs: seq<Field>, f: Field)
    requires t !in path && f.ty in Parts(defs, t) && PartFields(defs, t, fs)
    requires VisitFields(defs, p, path, t, fs).0
    ensures var q := VisitFields(defs, p, path, t, fs).1;
      VisitFields(defs, p, path, t, fs + [f]) == if f.exported then Visit(defs, q, path + [t], f.ty) else (false, q)
  {
    hide Shown, NamesOn, Visit, Parts;
    assert (fs + [f])[..|fs|] == fs;
  }

  lemma VisitNothing(defs: Defs, p: Program, path: seq<Type>, t: Type)
    requires t !in path
    ensures PartFields(defs, t, []) && VisitFields(defs, p, path, t, []) == (true, p) && AccessesOf(defs, []) == []
  {
  }

  lemma AccessesOfMore(defs: Defs, fs: seq<Field>, f: Field)
    ensures AccessesOf(defs, fs + [f]) == AccessesOf(defs, fs) + [AccessOf(defs, f.ty)]
  {
    hide AccessOf;
  }

  lemma VisitOnlyPart(defs: Defs, p: Program, path: seq<Type>, t: Type, e: Type)
    requires t !in path && FieldsOf(defs, t) == [Field("", true, e)]
    ensures VisitFields(defs, p, path, t, FieldsOf(defs, t)) == Visit(defs, p, path + [t], e)
  {
    hide Shown, NamesOn, Visit, Parts, FieldsOf;
    assert VisitFields(defs, p, path, t, []) == (true, p);
    VisitOneMore(defs, p, path, t, [], Field("", true, e));
    assert [] + [Field("", true, e)] == [Field("", true, e)];
  }

  lemma {:induction false} FanStops(defs: Defs, p: Program, path: seq<Type>, t: Type, first: seq<Field>, fs: seq<Field>)
    requires t !in path && PartFields(defs, t, fs) && first <= fs
    requires FanFieldsWalk(defs, p, path, t, first).0.None?
    ensures FanFieldsWalk(defs, p, path, t, fs) == FanFieldsWalk(defs, p, path, t, first)
    decreases |fs|
  {
    hide Shown, NamesOn, FanWalk, Parts, Slots.Then;
    if |first| == |fs| {
      assert first == fs;
    } else {
      FanStops(defs, p, path, t, first, fs[..|fs| - 1]);
    }
  }

  lemma FanOneMore(defs: Defs, p: Program, path: seq<Type>, t: Type, fs: seq<Field>, f: Field)
    requires t !in path && f.ty in Parts(defs, t) && PartFields(defs, t, fs)
    requires FanFieldsWalk(defs, p, path, t, fs).0.Some?
    ensures var w := FanFieldsWalk(defs, p, path, t, fs);
      var r := FanWalk(defs, w.1, path + [t], f.ty);
      FanFieldsWalk(defs, p, path, t, fs + [f]) ==
        if !f.exported then (None, w.1)
        else (if r.0.None? then None else Some(w.0.value.Then(defs, f.ty, r.0.value)), r.1)
  {
    hide Shown, NamesOn, FanWalk, Parts, Slots.Then;
    assert (fs + [f])[..|fs|] == fs;
  }

  lemma FanNothing(defs: Defs, p: Program, path: seq<Type>, t: Type)
    requires t !in path
    ensures PartFields(defs, t, []) && FanFieldsWalk(defs, p, path, t, []) == (Some(NO_SLOTS), p)
  {
  }

  lemma StructForm(defs: Defs, path: seq<Type>, t: Type, fs: seq<Field>)
    requires Underlying(defs, t) == Struct(fs) && Shown(defs, t) !in Stack(defs, path)
    requires PartFields(defs, t, Live(fs))
    ensures LiteralForm(defs, path, t) <==> forall f <- Live(fs) :: f.exported && LiteralPart(defs, path, t, f.ty)
    ensures LiteralForm(defs, path, t) <==> FieldsHaveForm(defs, path, t, Live(fs))
    ensures FieldsHaveForm(defs, path, t, [])
  {
    hide Shown, NamesOn, Live, Parts;
  }

  ghost predicate FieldsHaveForm(defs: Defs, path: seq<Type>, t: Type, fs: seq<Field>)
    requires Shown(defs, t) !in Stack(defs, path)
  {
    PartFields(defs, t, fs) && forall f <- fs :: f.exported && LiteralPart(defs, path, t, f.ty)
  }

  lemma OneFormMore(defs: Defs, path: seq<Type>, t: Type, fs: seq<Field>, f: Field)
    requires Shown(defs, t) !in Stack(defs, path) && FieldsHaveForm(defs, path, t, fs)
    requires f.exported && f.ty in Parts(defs, t) && LiteralPart(defs, path, t, f.ty)
    ensures FieldsHaveForm(defs, path, t, fs + [f])
  {
    hide Shown, Parts, LiteralPart, Stack;
  }

  /** The leaves of every fan, and of no other. */
  ghost predicate InfosOf(infos: map<string, seq<LeafKind>>, fans: map<string, FanFn>) {
    infos.Keys == fans.Keys && forall s <- infos :: infos[s] == fans[s].params
  }

  lemma InfosOfMore(infos: map<string, seq<LeafKind>>, fans: map<string, FanFn>, s: string, fn: FanFn)
    requires InfosOf(infos, fans)
    ensures InfosOf(infos[s := fn.params], fans[s := fn])
  {
  }

  class Emitter {
    const defs: Defs
    /** A string with what no identifier may hold cleaned out. */
    const clean: string -> string
    var idents: map<string, string>
    var taken: set<string>
    var fanInfos: map<string, seq<LeafKind>>
    var fans: map<string, FanFn>
    var hybrids: map<string, HybridFn>
    var helpers: map<string, HelperFn>
    var fanStack: seq<string>
    var stack: seq<string>
    var litStack: seq<string>

    constructor (defs: Defs, clean: string -> string)
      ensures this.defs == defs && this.clean == clean && Valid() && Emitted() == EMPTY
      ensures fanStack == stack == litStack == []
    {
      this.defs, this.clean := defs, clean;
      idents, taken, fanInfos := map[], {}, map[];
      fans, hybrids, helpers := map[], map[], map[];
      fanStack, stack, litStack := [], [], [];
    }

    /** What was emitted, by the strings its types are shown as. */
    ghost function Emitted(): Program
      reads `idents, `fans, `hybrids, `helpers
    {
      Program(Resolved(idents, fans), Resolved(idents, hybrids), Resolved(idents, helpers))
    }

    /** No two strings share an identifier, and nothing has one that is not taken. */
    ghost predicate Valid()
      reads `idents, `taken, `fanInfos, `fans, `hybrids, `helpers
    {
      && OneToOne(idents) && idents.Values <= taken
      && fans.Keys <= taken && hybrids.Keys <= taken && helpers.Keys <= taken
      && InfosOf(fanInfos, Emitted().fans)
    }

    /** Strings keep the identifiers they got. */
    twostate predicate NamesKept()
      reads this
    {
      forall s <- old(idents) :: s in idents && idents[s] == old(idents[s])
    }

    /** assignName: a string's identifier, a new one for a new string; it is the first
        candidate not taken. */
    method AssignName(s: string) returns (name: string)
      requires Valid()
      modifies this`idents, this`taken
      ensures Valid() && Emitted() == old(Emitted()) && NamesKept()
      ensures s in idents && idents[s] == name
      ensures s in old(idents) ==> idents == old(idents) && taken == old(taken)
      ensures s !in old(idents) ==>
        && idents == old(idents)[s := name] && taken == old(taken) + {name}
        && IsFirstFree(clean(s), old(taken), name)
    {
      hide Resolved, Candidate;
      if s in idents {
        return idents[s];
      }
      name := FirstFree(clean(s));
      FreshNameKeeps(idents, fans, s, name);
      FreshNameKeeps(idents, hybrids, s, name);
      FreshNameKeeps(idents, helpers, s, name);
      taken := taken + {name};
      idents := idents[s := name];
    }

    method FirstFree(base: string) returns (name: string)
      ensures IsFirstFree(base, taken, name)
    {
      name := base;
      var i := 2;
      ghost var n: nat := 0;
      ghost var tried: set<string> := {};
      while name in taken
        invariant i == n + 2 && name == Candidate(base, n)
        invariant tried <= taken && forall m: nat {:trigger Candidate(base, m)} :: m < n ==> Candidate(base, m) in tried
        invariant forall x <- tried :: exists m: nat {:trigger Candidate(base, m)} :: m < n && x == Candidate(base, m)
        decreases taken - tried
      {
        forall m: nat | m < n ensures Candidate(base, m) != Candidate(base, n) {
          CandidatesDiffer(base, m, n);
        }
        assert name !in tried;
        tried := tried + {name};
        n := n + 1;
        name := base + "_" + Decimal(i);
        i := i + 1;
      }
    }

    /** Emits the pair for the one type the string stands for. */
    method KeepHelper(s: string, fn: HelperFn)
      requires Valid() && s in idents
      modifies this`helpers
      ensures Valid() && Emitted() == old(Emitted()).(helpers := old(Emitted()).helpers[s := fn])
    {
      KeptForOne(idents, helpers, s, fn);
      helpers := helpers[idents[s] := fn];
    }

    method KeepHybrid(s: string, fn: HybridFn)
      requires Valid() && s in idents
      modifies this`hybrids
      ensures Valid() && Emitted() == old(Emitted()).(hybrids := old(Emitted()).hybrids[s := fn])
    {
      KeptForOne(idents, hybrids, s, fn);
      hybrids := hybrids[idents[s] := fn];
    }

    method KeepFan(s: string, fn: FanFn)
      requires Valid() && s in idents
      modifies this`fans, this`fanInfos
      ensures Valid() && Emitted() == old(Emitted()).(fans := old(Emitted()).fans[s := fn])
    {
      hide Resolved, InfosOf;
      KeptForOne(idents, fans, s, fn);
      InfosOfMore(fanInfos, Emitted().fans, s, fn);
      fans := fans[idents[s] := fn];
      fanInfos := fanInfos[s := fn.params];
    }

    /** readCall: an expression that reads a value of the type. */
    method ReadCall(t: Type, ghost path: seq<Type>) returns (r: Option<Access>)
      requires Valid() && stack == Stack(defs, path)
      modifies this`helpers, this`stack, this`idents, this`taken
      ensures Valid() && stack == old(stack) && NamesKept()
      ensures (r.Some?, Emitted()) == Visit(defs, old(Emitted()), path, t)
      ensures r.Some? ==> r.value == AccessOf(defs, t)
      decreases defs.under.Keys - NamesOn(path), t, 6
    {
      hide Valid, Emitted, Shown, NamesOn, VisitHelper;
      match Underlying(defs, t)
      case Basic(k) =>
        r := if k.Unsupported? then None else Some(ViaBasic(k));
      case Slice(e) =>
        if IsByte(e) {
          r := Some(ViaBlob);
        } else {
          var name := Helper(t, path);
          r := if name.Some? then Some(ViaHelper(Shown(defs, t))) else None;
        }
      case Other(_) => r := None;
      case Named(_) => r := None;
      case _ =>
        var name := Helper(t, path);
        r := if name.Some? then Some(ViaHelper(Shown(defs, t))) else None;
    }

    /** writeStmt, for the same types. */
    method WriteStmt(t: Type, ghost path: seq<Type>) returns (r: Option<Access>)
      requires Valid() && stack == Stack(defs, path)
      modifies this`helpers, this`stack, this`idents, this`taken
      ensures Valid() && stack == old(stack) && NamesKept()
      ensures (r.Some?, Emitted()) == Visit(defs, old(Emitted()), path, t)
      ensures r.Some? ==> r.value == AccessOf(defs, t)
      decreases defs.under.Keys - NamesOn(path), t, 6
    {
      hide Valid, Emitted, Shown, NamesOn, VisitHelper;
      match Underlying(defs, t)
      case Basic(k) =>
        r := if k.Unsupported? then None else Some(ViaBasic(k));
      case Slice(e) =>
        if IsByte(e) {
          r := Some(ViaBlob);
        } else {
          var name := Helper(t, path);
          r := if name.Some? then Some(ViaHelper(Shown(defs, t))) else None;
        }
      case Other(_) => r := None;
      case Named(_) => r := None;
      case _ =>
        var name := Helper(t, path);
        r := if name.Some? then Some(ViaHelper(Shown(defs, t))) else None;
    }

    /** helper: emits the pair once and refuses what is shown like a type being emitted. */
    method Helper(t: Type, ghost path: seq<Type>) returns (r: Option<string>)
      requires Valid() && stack == Stack(defs, path) && Composite(defs, t)
      modifies this`helpers, this`stack, this`idents, this`taken
      ensures Valid() && stack == old(stack) && NamesKept()
      ensures (r.Some?, Emitted()) == VisitHelper(defs, old(Emitted()), path, t)
      ensures r.Some? ==> Shown(defs, t) in idents && idents[Shown(defs, t)] == r.value
      decreases defs.under.Keys - NamesOn(path), t, 5
    {
      hide Valid, Emitted, Shown, NamesOn, VisitFields, FieldsOf, BodyOf, Composite;
      var s := Shown(defs, t);
      if s in stack {
        return None;
      }
      NotOnPath(defs, path, t);
      StackOfMore(defs, path, t);
      var name := AssignName(s);
      IsKnown(s);
      if name in helpers {
        return Some(name);
      }
      stack := stack + [s];
      var src := HelperSource(t, path);
      stack := stack[..|stack| - 1];
      if src.None? {
        return None;
      }
      KeepHelper(s, src.value);
      return Some(name);
    }

    lemma IsKnown(s: string)
      requires Valid() && s in idents
      ensures s in Emitted().helpers <==> idents[s] in helpers
      ensures s in Emitted().hybrids <==> idents[s] in hybrids
    {
    }

    method HelperSource(t: Type, ghost path: seq<Type>) returns (src: Option<HelperFn>)
      requires Valid() && Composite(defs, t) && stack == Stack(defs, path + [t]) && t !in path
      modifies this`helpers, this`stack, this`idents, this`taken
      ensures Valid() && stack == old(stack) && NamesKept()
      ensures (src.Some?, Emitted()) == VisitFields(defs, old(Emitted()), path, t, FieldsOf(defs, t))
      ensures src.Some? ==> src.value == HelperFn(t, BodyOf(defs, t), BodyOf(defs, t))
      decreases defs.under.Keys - NamesOn(path), t, 4
    {
      hide Valid, Emitted, Shown, NamesOn, Live, Visit, VisitFields, AccessOf;
      match Underlying(defs, t)
      case Struct(fs) =>
        var parts := StructSource(t, path, fs);
        src := if parts.None? then None else Some(HelperFn(t, OfStruct(parts.value.0), OfStruct(parts.value.1)));
      case Slice(e) =>
        VisitOnlyPart(defs, Emitted(), path, t, e);
        var r, w := Pair(t, path, e);
        src := if r.None? then None else Some(HelperFn(t, OfSlice(r.value), OfSlice(w.value)));
      case Array(n, e) =>
        VisitOnlyPart(defs, Emitted(), path, t, e);
        var r, w := Pair(t, path, e);
        src := if r.None? then None else Some(HelperFn(t, OfArray(n, r.value), OfArray(n, w.value)));
      case Pointer(e) =>
        VisitOnlyPart(defs, Emitted(), path, t, e);
        var r, w := Pair(t, path, e);
        src := if r.None? then None else Some(HelperFn(t, OfPointer(r.value), OfPointer(w.value)));
    }

    /** Field by field, the blank ones left out. */
    method StructSource(t: Type, ghost path: seq<Type>, fs: seq<Field>) returns (r: Option<(seq<Access>, seq<Access>)>)
      requires Valid() && Underlying(defs, t) == Struct(fs) && stack == Stack(defs, path + [t]) && t !in path
      requires PartFields(defs, t, Live(fs))
      modifies this`helpers, this`stack, this`idents, this`taken
      ensures Valid() && stack == old(stack) && NamesKept()
      ensures (r.Some?, Emitted()) == VisitFields(defs, old(Emitted()), path, t, Live(fs))
      ensures r.Some? ==> r.value == (AccessesOf(defs, Live(fs)), AccessesOf(defs, Live(fs)))
      decreases defs.under.Keys - NamesOn(path), t, 3
    {
      hide Valid, Emitted, Shown, NamesOn, Live, LiveTo, Visit, VisitFields, AccessOf, AccessesOf, Underlying, Parts,
           PartFields;
      LiveEnds(fs);
      VisitNothing(defs, Emitted(), path, t);
      ghost var p := Emitted();
      var rs, ws := [], [];
      for i := 0 to |fs|
        invariant Valid() && stack == Stack(defs, path + [t]) && NamesKept()
        invariant PartFields(defs, t, LiveTo(fs, i))
          && (true, Emitted()) == VisitFields(defs, p, path, t, LiveTo(fs, i))
        invariant rs == AccessesOf(defs, LiveTo(fs, i)) && ws == AccessesOf(defs, LiveTo(fs, i))
      {
        LiveStep(fs, i);
        if fs[i].name != "_" {
          LiveIsPart(defs, t, fs, i);
          var r, w := FieldPair(t, path, p, Live(fs), LiveTo(fs, i), fs[i]);
          if r.None? {
            return None;
          }
          AccessesOfMore(defs, LiveTo(fs, i), fs[i]);
          rs, ws := rs + [r.value], ws + [w.value];
        }
      }
      return Some((rs, ws));
    }

    method FieldPair(
        t: Type, ghost path: seq<Type>, ghost p: Program, ghost all: seq<Field>, ghost live: seq<Field>, f: Field)
      returns (r: Option<Access>, w: Option<Access>)
      requires Valid() && stack == Stack(defs, path + [t]) && t !in path
      requires live + [f] <= all && PartFields(defs, t, all) && PartFields(defs, t, live) && f.ty in Parts(defs, t)
      requires (true, Emitted()) == VisitFields(defs, p, path, t, live)
      modifies this`helpers, this`stack, this`idents, this`taken
      ensures Valid() && stack == old(stack) && NamesKept()
      ensures r.None? ==> (false, Emitted()) == VisitFields(defs, p, path, t, all)
      ensures r.Some? ==>
        && PartFields(defs, t, live + [f]) && (true, Emitted()) == VisitFields(defs, p, path, t, live + [f])
        && r == w == Some(AccessOf(defs, f.ty))
      decreases defs.under.Keys - NamesOn(path), t, 2
    {
      VisitOneMore(defs, p, path, t, live, f);
      hide Valid, Emitted, Shown, NamesOn, Visit, VisitFields, AccessOf, Underlying, Parts;
      r, w := None, None;
      if f.exported {
        r, w := Pair(t, path, f.ty);
      }
      if r.None? {
        VisitStops(defs, p, path, t, live + [f], all);
      }
    }

    /** The reading expression and the writing statement of a part, both or none. */
    method Pair(t: Type, ghost path: seq<Type>, u: Type) returns (r: Option<Access>, w: Option<Access>)
      requires Valid() && u in Parts(defs, t) && stack == Stack(defs, path + [t]) && t !in path
      modifies this`helpers, this`stack, this`idents, this`taken
      ensures Valid() && stack == old(stack) && NamesKept()
      ensures (r.Some?, Emitted()) == Visit(defs, old(Emitted()), path + [t], u)
      ensures w == r && (r.Some? ==> r.value == AccessOf(defs, u))
      decreases defs.under.Keys - NamesOn(path), t, 1
    {
      hide Valid, Emitted, Shown, Visit, Parts;
      PartDescends(defs, path, t, u);
      w := None;
      ghost var p := Emitted();
      r := ReadCall(u, path + [t]);
      if r.Some? {
        VisitAgain(defs, p, path + [t], u);
        w := WriteStmt(u, path + [t]);
      }
    }

    /** fan: the leaves of a type, emitting its fan and everything it calls. */
    method Fan(t: Type, ghost path: seq<Type>) returns (params: Option<seq<LeafKind>>)
      requires Valid() && fanStack == Stack(defs, path) && stack == []
      modifies this`fans, this`fanInfos, this`hybrids, this`helpers, this`fanStack, this`stack, this`idents, this`taken
      ensures Valid() && stack == [] && fanStack == old(fanStack) && NamesKept()
      ensures (params, Emitted()) == FanWalk(defs, old(Emitted()), path, t)
      decreases defs.under.Keys - NamesOn(path), t, 6
    {
      hide Valid, Emitted, Shown, NamesOn, FanSourceWalk, Passthrough, PassthroughParam, Stack, IsFirstFree;
      if Passthrough(t) {
        return Some([PassthroughParam(t)]);
      }
      var s := Shown(defs, t);
      InfoIsFan(s);
      if s in fanInfos {
        return Some(fanInfos[s]);
      }
      if s in fanStack {
        return None;
      }
      NotOnPath(defs, path, t);
      StackOfMore(defs, path, t);
      fanStack := fanStack + [s];
      var ident := AssignName(s);
      var fn := FanSource(t, path, ident);
      fanStack := fanStack[..|fanStack| - 1];
      if fn.None? {
        return None;
      }
      KeepFan(s, fn.value);
      return Some(fn.value.params);
    }

    lemma InfoIsFan(s: string)
      requires Valid()
      ensures s in fanInfos <==> s in Emitted().fans
      ensures s in fanInfos ==> fanInfos[s] == Emitted().fans[s].params
    {
    }

    method FanSource(t: Type, ghost path: seq<Type>, ident: string) returns (fn: Option<FanFn>)
      requires Valid() && fanStack == Stack(defs, path + [t]) && t !in path && stack == []
      requires Shown(defs, t) in idents && idents[Shown(defs, t)] == ident
      modifies this`fans, this`fanInfos, this`hybrids, this`helpers, this`fanStack, this`stack, this`idents, this`taken
      ensures Valid() && stack == [] && fanStack == old(fanStack) && NamesKept()
      ensures (fn, Emitted()) == FanSourceWalk(defs, old(Emitted()), path, t)
      decreases defs.under.Keys - NamesOn(path), t, 5
    {
      hide Valid, Emitted, Shown, NamesOn, FanWalk, HybridWalk, Live, FanFieldsWalk, CopySlots;
      match Underlying(defs, t)
      case Basic(k) =>
        if k.Bool? || k.String? {
          fn := Some(FanFn(t, [if k.Bool? then BoolLeaf else StringLeaf], Converted));
        } else if k.Unsupported? {
          fn := None;
        } else {
          fn := Some(FanFn(t, [BytesLeaf], Numbered(k)));
        }
      case Slice(e) =>
        if IsByte(e) {
          fn := Some(FanFn(t, [BytesLeaf], Blob));
        } else {
          var ok := HybridOf(t, ident);
          fn := if ok then Some(FanFn(t, [BytesLeaf], Hybrid)) else None;
        }
      case Array(n, e) =>
        if IsByte(e) {
          fn := Some(FanFn(t, [BytesLeaf], Filled(n)));
        } else {
          fn := ArrayFan(t, path, n, e, ident);
        }
      case Struct(fs) => fn := StructFan(t, path, fs);
      case Pointer(e) =>
        var sub := PartFan(t, path, e);
        fn := if sub.None? then None else
          Some(FanFn(t, [BoolLeaf] + sub.value, PointerTo(e, InSlot(defs, e, 1, |sub.value|), OutSlot(defs, e))));
      case _ => fn := None;
    }

    /** hybrid: the codec of a type that rides as one leaf, emitted once. */
    method HybridOf(t: Type, ident: string) returns (ok: bool)
      requires Valid() && stack == []
      requires Shown(defs, t) in idents && idents[Shown(defs, t)] == ident
      modifies this`hybrids, this`helpers, this`stack, this`idents, this`taken
      ensures Valid() && stack == [] && NamesKept()
      ensures (ok, Emitted()) == HybridWalk(defs, old(Emitted()), t)
    {
      hide Valid, Emitted, Shown, Visit, AccessOf;
      IsKnown(Shown(defs, t));
      if ident in hybrids {
        return true;
      }
      ghost var p := Emitted();
      assert Stack(defs, []) == [];
      var r := ReadCall(t, []);
      if r.None? {
        return false;
      }
      VisitAgain(defs, p, [], t);
      var w := WriteStmt(t, []);
      if w.None? {
        return false;
      }
      KeepHybrid(Shown(defs, t), HybridFn(t, r.value, w.value));
      return true;
    }

    method PartFan(t: Type, ghost path: seq<Type>, u: Type) returns (params: Option<seq<LeafKind>>)
      requires Valid() && u in Parts(defs, t) && fanStack == Stack(defs, path + [t]) && t !in path && stack == []
      modifies this`fans, this`fanInfos, this`hybrids, this`helpers, this`fanStack, this`stack, this`idents, this`taken
      ensures Valid() && stack == [] && fanStack == old(fanStack) && NamesKept()
      ensures (params, Emitted()) == FanWalk(defs, old(Emitted()), path + [t], u)
      decreases defs.under.Keys - NamesOn(path), t, 1
    {
      hide Valid, Emitted, Shown, FanWalk, Parts;
      PartDescends(defs, path, t, u);
      params := Fan(u, path + [t]);
    }

    /** Element by element within the limit, else one leaf. */
    method ArrayFan(t: Type, ghost path: seq<Type>, n: nat, e: Type, ident: string) returns (fn: Option<FanFn>)
      requires Valid() && fanStack == Stack(defs, path + [t]) && t !in path && stack == []
      requires Underlying(defs, t) == Array(n, e) && !IsByte(e)
      requires Shown(defs, t) in idents && idents[Shown(defs, t)] == ident
      modifies this`fans, this`fanInfos, this`hybrids, this`helpers, this`fanStack, this`stack, this`idents, this`taken
      ensures Valid() && stack == [] && fanStack == old(fanStack) && NamesKept()
      ensures (fn, Emitted()) == FanSourceWalk(defs, old(Emitted()), path, t)
      decreases defs.under.Keys - NamesOn(path), t, 3
    {
      hide Valid, Emitted, Shown, NamesOn, FanWalk, HybridWalk, CopySlots;
      var elem := PartFan(t, path, e);
      if elem.None? {
        return None;
      }
      if n > 0 && n * |elem.value| <= ARRAY_FAN_LIMIT {
        var s := Elements(e, elem.value, n);
        return Some(FanFn(t, s.params, ArrayOf(s.ins, s.outs)));
      }
      var ok := HybridOf(t, ident);
      return if ok then Some(FanFn(t, [BytesLeaf], Hybrid)) else None;
    }

    method Elements(e: Type, elem: seq<LeafKind>, n: nat) returns (s: Slots)
      ensures s == CopySlots(defs, e, elem, n)
    {
      s := NO_SLOTS;
      hide InSlot, OutSlot;
      for i := 0 to n
        invariant s == CopySlots(defs, e, elem, i)
      {
        s := s.Then(defs, e, elem);
      }
    }

    /** Field by field, the blank ones left out. */
    method StructFan(t: Type, ghost path: seq<Type>, fs: seq<Field>) returns (fn: Option<FanFn>)
      requires Valid() && fanStack == Stack(defs, path + [t]) && t !in path && stack == []
      requires Underlying(defs, t) == Struct(fs)
      modifies this`fans, this`fanInfos, this`hybrids, this`helpers, this`fanStack, this`stack, this`idents, this`taken
      ensures Valid() && stack == [] && fanStack == old(fanStack) && NamesKept()
      ensures (fn, Emitted()) == FanSourceWalk(defs, old(Emitted()), path, t)
      decreases defs.under.Keys - NamesOn(path), t, 4
    {
      LiveFieldsAreParts(defs, t, fs);
      var s := FieldFans(t, path, fs);
      hide Live, FanFieldsWalk;
      fn := if s.None? then None else Some(FanFn(t, s.value.params, StructOf(s.value.ins, s.value.outs)));
    }

    method FieldFans(t: Type, ghost path: seq<Type>, fs: seq<Field>) returns (s: Option<Slots>)
      requires Valid() && fanStack == Stack(defs, path + [t]) && t !in path && stack == []
      requires Underlying(defs, t) == Struct(fs) && PartFields(defs, t, Live(fs))
      modifies this`fans, this`fanInfos, this`hybrids, this`helpers, this`fanStack, this`stack, this`idents, this`taken
      ensures Valid() && stack == [] && fanStack == old(fanStack) && NamesKept()
      ensures (s, Emitted()) == FanFieldsWalk(defs, old(Emitted()), path, t, Live(fs))
      decreases defs.under.Keys - NamesOn(path), t, 3
    {
      hide Valid, Emitted, Shown, NamesOn, Live, LiveTo, FanWalk, FanFieldsWalk, Underlying, Parts, PartFields,
           Slots.Then;
      LiveEnds(fs);
      FanNothing(defs, Emitted(), path, t);
      ghost var p := Emitted();
      var slots := NO_SLOTS;
      for i := 0 to |fs|
        invariant Valid() && stack == [] && fanStack == Stack(defs, path + [t]) && NamesKept()
        invariant PartFields(defs, t, LiveTo(fs, i))
        invariant (Some(slots), Emitted()) == FanFieldsWalk(defs, p, path, t, LiveTo(fs, i))
      {
        var more := FieldFan(t, path, p, fs, i, slots);
        if more.None? {
          return None;
        }
        slots := more.value;
      }
      return Some(slots);
    }

    /** The field's leaves after those before it; a blank field has none. */
    method FieldFan(t: Type, ghost path: seq<Type>, ghost p: Program, fs: seq<Field>, i: nat, slots: Slots)
      returns (s: Option<Slots>)
      requires Valid() && fanStack == Stack(defs, path + [t]) && t !in path && stack == []
      requires i < |fs| && PartFields(defs, t, Live(fs)) && PartFields(defs, t, LiveTo(fs, i))
      requires (Some(slots), Emitted()) == FanFieldsWalk(defs, p, path, t, LiveTo(fs, i))
      modifies this`fans, this`fanInfos, this`hybrids, this`helpers, this`fanStack, this`stack, this`idents, this`taken
      ensures Valid() && stack == [] && fanStack == old(fanStack) && NamesKept()
      ensures s.None? ==> (None, Emitted()) == FanFieldsWalk(defs, p, path, t, Live(fs))
      ensures s.Some? ==> PartFields(defs, t, LiveTo(fs, i + 1))
      ensures s.Some? ==> (s, Emitted()) == FanFieldsWalk(defs, p, path, t, LiveTo(fs, i + 1))
      decreases defs.under.Keys - NamesOn(path), t, 2
    {
      hide Valid, Emitted, Shown, NamesOn, Live, LiveTo, FanWalk, FanFieldsWalk, Underlying, Parts, Slots.Then;
      LiveStep(fs, i);
      var f := fs[i];
      if f.name == "_" {
        return Some(slots);
      }
      LiveIsPart(defs, t, fs, i);
      FanOneMore(defs, p, path, t, LiveTo(fs, i), f);
      if !f.exported {
        FanStops(defs, p, path, t, LiveTo(fs, i + 1), Live(fs));
        return None;
      }
      var sub := PartFan(t, path, f.ty);
      if sub.None? {
        FanStops(defs, p, path, t, LiveTo(fs, i + 1), Live(fs));
        return None;
      }
      return Some(slots.Then(defs, f.ty, sub.value));
    }

    /** literalSupported. */
    method LiteralSupported(t: Type, ghost path: seq<Type>) returns (ok: bool)
      requires litStack == Stack(defs, path)
      modifies this`litStack
      ensures litStack == old(litStack)
      ensures ok == LiteralForm(defs, path, t)
      decreases defs.under.Keys - NamesOn(path), t, 3
    {
      hide Shown, NamesOn, Live;
      var s := Shown(defs, t);
      if s in litStack {
        return false;
      }
      NotOnPath(defs, path, t);
      match Underlying(defs, t)
      case Basic(k) => ok := !k.Unsupported?;
      case Slice(e) =>
        if IsByte(e) {
          ok := true;
        } else {
          ok := LitPart(t, path, e);
        }
      case Array(_, e) => ok := LitPart(t, path, e);
      case Pointer(e) => ok := LitPart(t, path, e);
      case Struct(fs) => ok := LitFields(t, path, fs);
      case _ => ok := false;
    }

    method LitPart(t: Type, ghost path: seq<Type>, u: Type) returns (ok: bool)
      requires litStack == Stack(defs, path) && Shown(defs, t) !in litStack && t !in path && u in Parts(defs, t)
      modifies this`litStack
      ensures litStack == old(litStack)
      ensures ok == LiteralPart(defs, path, t, u)
      decreases defs.under.Keys - NamesOn(path), t, 1
    {
      PartIsForm(defs, path, t, u);
      hide Shown, NamesOn, LiteralForm, LiteralPart, Parts;
      PartDescends(defs, path, t, u);
      StackOfMore(defs, path, t);
      litStack := litStack + [Shown(defs, t)];
      ok := LiteralSupported(u, path + [t]);
      litStack := litStack[..|litStack| - 1];
    }

    method LitFields(t: Type, ghost path: seq<Type>, fs: seq<Field>) returns (ok: bool)
      requires litStack == Stack(defs, path) && Shown(defs, t) !in litStack && t !in path
      requires Underlying(defs, t) == Struct(fs)
      modifies this`litStack
      ensures litStack == old(litStack)
      ensures ok == LiteralForm(defs, path, t)
      decreases defs.under.Keys - NamesOn(path), t, 2
    {
      hide Shown, NamesOn, Live, LiveTo, Underlying, Parts, LiteralForm, LiteralPart, FieldsHaveForm;
      LiveFieldsAreParts(defs, t, fs);
      LiveEnds(fs);
      StructForm(defs, path, t, fs);
      for i := 0 to |fs|
        invariant litStack == old(litStack) && FieldsHaveForm(defs, path, t, LiveTo(fs, i))
      {
        LiveStep(fs, i);
        var f := fs[i];
        if f.name != "_" {
          LiveIsPart(defs, t, fs, i);
          if !f.exported {
            return false;
          }
          var good := LitPart(t, path, f.ty);
          if !good {
            return false;
          }
          OneFormMore(defs, path, t, LiveTo(fs, i), f);
        }
      }
      return true;
    }
  }
}
