/** Two readers of go test arguments: one sorts them into build flags, run flags and
    package patterns, the other finds the patterns alone. */
module GoTestArgs {
  import opened Options

  const BUILD_ONLY: set<string> := {
    "-race", "-msan", "-asan", "-cover", "-a", "-c", "-n", "-x", "-trimpath", "-work", "-linkshared", "-modcacherw",
    "-buildvcs"}

  const BUILD_SPECIAL_VALUE: set<string> := {"-o", "-exec"}

  const BUILD_VALUE: set<string> := {
    "-covermode", "-coverpkg", "-vet", "-tags", "-ldflags", "-gcflags", "-gccgoflags", "-asmflags", "-mod",
    "-modfile", "-p",
    "-toolexec", "-pkgdir", "-pgo", "-overlay", "-buildmode", "-compiler", "-installsuffix"}

  const RUN_ONLY: set<string> := {"-v", "-failfast", "-short", "-benchmem", "-fullpath"}

  const RUN_VALUE: set<string> := {
    "-count", "-timeout", "-run", "-skip", "-parallel", "-shuffle", "-bench", "-benchtime", "-coverprofile",
    "-cpuprofile",
    "-memprofile", "-blockprofile", "-mutexprofile", "-trace", "-outputdir", "-list", "-fuzz", "-fuzztime",
    "-fuzzminimizetime", "-cpu", "-blockprofilerate", "-memprofilerate", "-mutexprofilerate"}

  predicate BuildOnly(name: string) { name in BUILD_ONLY }
  predicate BuildValue(name: string) { name in BUILD_VALUE || name in BUILD_SPECIAL_VALUE }
  predicate RunOnly(name: string) { name in RUN_ONLY }
  predicate RunValue(name: string) { name in RUN_VALUE }

  predicate IsFlag(arg: string) {
    "-" <= arg
  }

  /** What stands before the first equals sign. */
  function Name(arg: string): (name: string)
    ensures name <= arg && ('=' !in arg ==> name == arg)
  {
    if arg == "" || arg[0] == '=' then "" else [arg[0]] + Name(arg[1..])
  }

  function TrimDashes(s: string): string {
    if s != "" && s[0] == '-' then TrimDashes(s[1..]) else s
  }

  /** Whether go test knows the flag, and whether it takes a value. */
  function IsGoTestFlag(name: string): (bool, bool) {
    if BuildOnly(name) then (false, true)
    else if BuildValue(name) then (true, true)
    else if RunOnly(name) then (false, true)
    else if RunValue(name) then (true, true)
    else if name == "-json" || name == "-args" then (false, true)
    else (false, false)
  }

  // ---------------------------------------------------------- classification

  datatype Class = Pattern | Dropped | Build | Run | Binary

  function ClassOf(arg: string): Class {
    if !IsFlag(arg) then Pattern
    else if Name(arg) == "-json" then Dropped
    else if BuildOnly(Name(arg)) || BuildOnly(arg) || BuildValue(Name(arg)) then Build
    else if RunOnly(Name(arg)) || RunOnly(arg) || RunValue(Name(arg)) then Run
    else Binary
  }

  /** The tokens an argument takes: itself, and a value. */
  function Width(args: seq<string>, i: nat): (w: nat)
    requires i < |args|
    ensures 1 <= w <= |args| - i
  {
    var arg := args[i];
    var more := '=' !in arg && i + 1 < |args|;
    if !IsFlag(arg) || Name(arg) == "-json" || BuildOnly(Name(arg)) || BuildOnly(arg) then 1
    else if BuildValue(Name(arg)) then if more then 2 else 1
    else if RunOnly(Name(arg)) || RunOnly(arg) then 1
    else if RunValue(Name(arg)) then if more then 2 else 1
    else if more && !IsFlag(args[i + 1]) then 2 else 1
  }

  /** The tokens of one class from the i-th on, in order. */
  function Collected(args: seq<string>, i: nat, c: Class): seq<string>
    requires i <= |args|
    decreases |args| - i
  {
    if i == |args| || args[i] == "-args" then [] else
      var w := Width(args, i);
      (if ClassOf(args[i]) == c then args[i..i + w] else []) + Collected(args, i + w, c)
  }

  /** Where the reading ends: at the -args marker, or after the last argument. */
  function Stop(args: seq<string>, i: nat): (stop: nat)
    requires i <= |args|
    ensures i <= stop <= |args| && (stop < |args| ==> args[stop] == "-args")
    decreases |args| - i
  {
    if i == |args| || args[i] == "-args" then i else Stop(args, i + Width(args, i))
  }

  /** A coverage profile is asked for, which needs a build with coverage. */
  function NeedsCover(args: seq<string>, i: nat): bool
    requires i <= |args|
    decreases |args| - i
  {
    if i == |args| || args[i] == "-args" then false else
      (ClassOf(args[i]) == Run && !RunOnly(Name(args[i])) && !RunOnly(args[i]) && Name(args[i]) == "-coverprofile")
        || NeedsCover(args, i + Width(args, i))
  }

  datatype Classified = Classified(build: seq<string>, run: seq<string>, patterns: seq<string>)

  function AddsCover(args: seq<string>): bool {
    NeedsCover(args, 0) && "-cover" !in Collected(args, 0, Build)
  }

  function AddsMarker(args: seq<string>): bool {
    Collected(args, 0, Binary) != [] || Stop(args, 0) < |args|
  }

  function AfterMarker(args: seq<string>): seq<string> {
    var stop := Stop(args, 0);
    if stop < |args| then args[stop + 1..] else []
  }

  function ClassifiedOf(args: seq<string>): Classified {
    Classified(
      Collected(args, 0, Build) + if AddsCover(args) then ["-cover"] else [],
      Collected(args, 0, Run)
        + if AddsMarker(args) then ["-args"] + Collected(args, 0, Binary) + AfterMarker(args) else [],
      Collected(args, 0, Pattern))
  }

  /** What is collected so far, and what is still to come, of each class. */
  ghost predicate SoFar(
      args: seq<string>, i: nat, build: seq<string>, run: seq<string>, patterns: seq<string>, binary: seq<string>) {
    && i <= |args|
    && build + Collected(args, i, Build) == Collected(args, 0, Build)
    && run + Collected(args, i, Run) == Collected(args, 0, Run)
    && patterns + Collected(args, i, Pattern) == Collected(args, 0, Pattern)
    && binary + Collected(args, i, Binary) == Collected(args, 0, Binary)
  }

  lemma SoFarOn(
      args: seq<string>, i: nat, build: seq<string>, run: seq<string>, patterns: seq<string>, binary: seq<string>)
    requires i < |args| && args[i] != "-args" && SoFar(args, i, build, run, patterns, binary)
    ensures var w, c := Width(args, i), ClassOf(args[i]);
      var tokens := args[i..i + w];
      SoFar(args, i + w, if c == Build then build + tokens else build, if c == Run then run + tokens else run,
        if c == Pattern then patterns + tokens else patterns, if c == Binary then binary + tokens else binary)
  {
    var w := Width(args, i);
    CollectedStep(args, i, Build, build);
    CollectedStep(args, i, Run, run);
    CollectedStep(args, i, Pattern, patterns);
    CollectedStep(args, i, Binary, binary);
    hide Collected, Width, ClassOf;
  }

  lemma CollectedStep(args: seq<string>, i: nat, c: Class, before: seq<string>)
    requires i < |args| && args[i] != "-args"
    ensures var w := Width(args, i);
      before + Collected(args, i, c)
        == (if ClassOf(args[i]) == c then before + args[i..i + w] else before) + Collected(args, i + w, c)
  {
    hide Width, ClassOf;
    var w := Width(args, i);
    var rest := Collected(args, i + w, c);
    assert before + (args[i..i + w] + rest) == before + args[i..i + w] + rest;
    assert [] + rest == rest;
  }

  /** ClassifyGoTestArgs. */
  method Classify(args: seq<string>) returns (r: Classified)
    ensures r == ClassifiedOf(args)
  {
    var build, run, patterns, binary: seq<string> := [], [], [], [];
    var needsCover := false;
    var explicit: Option<seq<string>> := None;
    var i := 0;
    SoFarAtFirst(args);
    hide Name, Collected, SoFar, Width, ClassOf, Stop, NeedsCover, AddsCover, AddsMarker, AfterMarker;
    while i < |args|
      invariant i <= |args| && SoFar(args, i, build, run, patterns, binary)
      invariant explicit == None && Stop(args, i) == Stop(args, 0)
      invariant NeedsCover(args, 0) == (needsCover || NeedsCover(args, i))
    {
      if args[i] == "-args" {
        explicit := Some(args[i + 1..]);
        break;
      }
      var w, c, cover := TakeOne(args, i);
      SoFarOn(args, i, build, run, patterns, binary);
      match c {
        case Pattern => patterns := patterns + args[i..i + w];
        case Dropped =>
        case Build => build := build + args[i..i + w];
        case Run => run := run + args[i..i + w];
        case Binary => binary := binary + args[i..i + w];
      }
      needsCover := needsCover || cover;
      i := i + w;
    }
    SoFarAtLast(args, i, build, run, patterns, binary);
    if |binary| > 0 || explicit.Some? {
      run := run + ["-args"] + binary + if explicit.Some? then explicit.value else [];
    }
    if needsCover {
      var hasCover := false;
      for k := 0 to |build|
        invariant hasCover <==> "-cover" in build[..k]
      {
        assert build[..k + 1] == build[..k] + [build[k]];
        if build[k] == "-cover" {
          hasCover := true;
        }
      }
      assert build[..|build|] == build;
      if !hasCover {
        build := build + ["-cover"];
      }
    }
    CoverIs(args);
    MarkerIs(args, binary, explicit);
    r := Classified(build, run, patterns);
  }

  lemma CoverIs(args: seq<string>)
    ensures AddsCover(args) <==> NeedsCover(args, 0) && "-cover" !in Collected(args, 0, Build)
  {
  }

  lemma SoFarAtFirst(args: seq<string>)
    ensures SoFar(args, 0, [], [], [], [])
  {
  }

  lemma SoFarAtLast(
      args: seq<string>, i: nat, build: seq<string>, run: seq<string>, patterns: seq<string>, binary: seq<string>)
    requires SoFar(args, i, build, run, patterns, binary) && (i == |args| || args[i] == "-args")
    ensures build == Collected(args, 0, Build) && run == Collected(args, 0, Run)
    ensures patterns == Collected(args, 0, Pattern) && binary == Collected(args, 0, Binary)
    ensures Stop(args, i) == i && !NeedsCover(args, i) && i <= |args|
  {
  }

  lemma MarkerIs(args: seq<string>, binary: seq<string>, explicit: Option<seq<string>>)
    requires binary == Collected(args, 0, Binary)
    requires explicit == if Stop(args, 0) < |args| then Some(args[Stop(args, 0) + 1..]) else None
    ensures AddsMarker(args) <==> |binary| > 0 || explicit.Some?
    ensures AfterMarker(args) == if explicit.Some? then explicit.value else []
  {
    hide Collected, Stop;
  }

  /** One argument: its tokens, its class, and whether it asks for a coverage profile. */
  method TakeOne(args: seq<string>, i: nat) returns (w: nat, c: Class, cover: bool)
    requires i < |args| && args[i] != "-args"
    ensures w == Width(args, i) && c == ClassOf(args[i])
    ensures NeedsCover(args, i) == (cover || NeedsCover(args, i + w))
    ensures Stop(args, i) == Stop(args, i + w)
  {
    hide BuildOnly, BuildValue, RunOnly, RunValue, Name;
    var arg := args[i];
    w, cover := 1, false;
    if !IsFlag(arg) {
      c := Pattern;
      return;
    }
    var name, hasEquals := Name(arg), '=' in arg;
    if name == "-json" {
      c := Dropped;
    } else if BuildOnly(name) || BuildOnly(arg) {
      c := Build;
    } else if BuildValue(name) {
      c := Build;
      if !hasEquals && i + 1 < |args| {
        w := 2;
      }
    } else if RunOnly(name) || RunOnly(arg) {
      c := Run;
    } else if RunValue(name) {
      c := Run;
      cover := name == "-coverprofile";
      if !hasEquals && i + 1 < |args| {
        w := 2;
      }
    } else {
      c := Binary;
      if !hasEquals && i + 1 < |args| && !IsFlag(args[i + 1]) {
        w := 2;
      }
    }
  }

  // --------------------------------------------------------- pattern indices

  /** Which flags are the caller's own, and which of them take a value. */
  type Own = Option<string -> (bool, bool)>

  /** Whether the flag takes the argument after it. */
  function TakesNext(args: seq<string>, i: nat, own: Own): bool
    requires i < |args|
  {
    var name := Name(args[i]);
    var mine := if own.Some? then own.value(name) else (false, false);
    var known := if mine.1 then mine else IsGoTestFlag("-" + TrimDashes(name));
    if known.1 then known.0 else i + 1 < |args| && !IsFlag(args[i + 1])
  }

  function IndicesFrom(args: seq<string>, i: nat, own: Own): (idx: seq<nat>)
    ensures forall j :: 0 <= j < |idx| ==> idx[j] < |args|
    decreases |args| - i
  {
    if i >= |args| || args[i] == "-args" || args[i] == "--args" then []
    else if args[i] == "--" then IndicesFrom(args, i + 1, own)
    else if !IsFlag(args[i]) then [i] + IndicesFrom(args, i + 1, own)
    else if '=' !in args[i] && TakesNext(args, i, own) then IndicesFrom(args, i + 2, own)
    else IndicesFrom(args, i + 1, own)
  }

  /** The tokens the second reader takes at once. */
  function Advance(args: seq<string>, i: nat, own: Own): (w: nat)
    requires i < |args|
    ensures 1 <= w <= |args| - i
  {
    if args[i] != "--" && IsFlag(args[i]) && '=' !in args[i] && i + 1 < |args| && TakesNext(args, i, own) then 2 else 1
  }

  lemma IndicesOn(args: seq<string>, i: nat, own: Own)
    requires i < |args| && args[i] != "-args" && args[i] != "--args"
    ensures IndicesFrom(args, i, own) ==
      (if IsFlag(args[i]) then [] else [i]) + IndicesFrom(args, i + Advance(args, i, own), own)
  {
    hide TakesNext;
  }

  lemma IndicesStep(args: seq<string>, i: nat, own: Own, idx: seq<nat>)
    requires i < |args|
    ensures idx + IndicesFrom(args, i, own) ==
      if args[i] == "-args" || args[i] == "--args" then idx
      else (if IsFlag(args[i]) then idx else idx + [i]) + IndicesFrom(args, i + Advance(args, i, own), own)
    ensures i + 1 == |args| ==> IndicesFrom(args, i + 1, own) == IndicesFrom(args, i + 2, own)
  {
    hide IndicesFrom, Advance;
    if args[i] == "-args" || args[i] == "--args" {
      NoMoreIndices(args, i, own);
    } else {
      IndicesOn(args, i, own);
      Append(idx, i, IsFlag(args[i]), IndicesFrom(args, i + Advance(args, i, own), own));
    }
    if i + 1 == |args| {
      NoMoreIndices(args, i + 1, own);
      NoMoreIndices(args, i + 2, own);
    }
  }

  lemma NoMoreIndices(args: seq<string>, i: nat, own: Own)
    requires i >= |args| || args[i] == "-args" || args[i] == "--args"
    ensures IndicesFrom(args, i, own) == []
  {
  }

  lemma Append(idx: seq<nat>, i: nat, skip: bool, rest: seq<nat>)
    ensures idx + ((if skip then [] else [i]) + rest) == (if skip then idx else idx + [i]) + rest
  {
    assert [] + rest == rest && idx + ([i] + rest) == idx + [i] + rest;
  }

  method PatternIndices(args: seq<string>, own: Own) returns (idx: seq<nat>)
    ensures idx == IndicesFrom(args, 0, own)
  {
    hide Name, IsGoTestFlag, IndicesFrom;
    idx := [];
    var i := 0;
    assert [] + IndicesFrom(args, 0, own) == IndicesFrom(args, 0, own);
    while i < |args|
      invariant idx + IndicesFrom(args, i, own) == IndicesFrom(args, 0, own)
      decreases |args| - i
    {
      var arg := args[i];
      IndicesStep(args, i, own, idx);
      if arg == "-args" || arg == "--args" {
        return;
      }
      if arg == "--" {
        i := i + 1;
        continue;
      }
      if !IsFlag(arg) {
        idx := idx + [i];
        i := i + 1;
        continue;
      }
      if '=' in arg {
        i := i + 1;
        continue;
      }
      var isValue, known := false, false;
      if own.Some? {
        var mine := own.value(Name(arg));
        isValue, known := mine.0, mine.1;
      }
      if !known {
        var theirs := IsGoTestFlag("-" + TrimDashes(Name(arg)));
        isValue, known := theirs.0, theirs.1;
      }
      if !known {
        isValue := i + 1 < |args| && !IsFlag(args[i + 1]);
      }
      i := if isValue then i + 2 else i + 1;
    }
    NoMoreIndices(args, i, own);
  }

  // ------------------------------------------------------------ they agree

  function At(args: seq<string>, idx: seq<nat>): (r: seq<string>)
    requires forall j :: 0 <= j < |idx| ==> idx[j] < |args|
    ensures |r| == |idx|
  {
    seq(|idx|, j requires 0 <= j < |idx| => args[idx[j]])
  }

  /** The tokens the first reader looks at, and where it ends. */
  function Stops(args: seq<string>, i: nat): (r: seq<nat>)
    requires i <= |args|
    ensures r != [] && r[0] == i
    decreases |args| - i
  {
    if i == |args| || args[i] == "-args" then [i] else [i] + Stops(args, i + Width(args, i))
  }

  /** The tokens the second reader looks at, and where it ends. */
  function IndexStops(args: seq<string>, i: nat, own: Own): (r: seq<nat>)
    requires i <= |args|
    ensures r != [] && r[0] == i
    decreases |args| - i
  {
    if i == |args| || args[i] == "-args" || args[i] == "--args" then [i]
    else [i] + IndexStops(args, i + Advance(args, i, own), own)
  }

  /** The indices of the patterns are the tokens looked at that are no flags. */
  lemma {:induction false} IndicesAreStops(args: seq<string>, i: nat, own: Own, k: nat)
    requires i <= |args|
    ensures k in IndicesFrom(args, i, own) ==> k in IndexStops(args, i, own) && k < |args| && !IsFlag(args[k])
    ensures k in IndexStops(args, i, own) && k < |args| && !IsFlag(args[k]) ==> k in IndicesFrom(args, i, own)
    decreases |args| - i
  {
    hide Advance, TakesNext;
    if i < |args| && args[i] != "-args" && args[i] != "--args" {
      IndicesOn(args, i, own);
      IndicesAreStops(args, i + Advance(args, i, own), own, k);
    }
  }

  /** A token that starts with two dashes and is read as a flag is known to the second
      reader alone: it does no harm unless it is --args, or a known flag before a token
      the two then read differently. */
  predicate Harmless(args: seq<string>, i: nat)
    requires i < |args|
  {
    "--" <= args[i] ==>
      && args[i] != "--args"
      && ('=' in args[i] || i + 1 == |args| || HarmlessBefore(args[i], IsFlag(args[i + 1])))
  }

  predicate HarmlessBefore(arg: string, flagNext: bool) {
    if arg == "--" then flagNext else
      var (value, known) := IsGoTestFlag("-" + TrimDashes(arg));
      known ==> value != flagNext
  }

  /** Every token the first reader looks at is harmless. */
  predicate AllHarmless(args: seq<string>, i: nat)
    requires i <= |args|
    decreases |args| - i
  {
    i == |args| || args[i] == "-args" || (Harmless(args, i) && AllHarmless(args, i + Width(args, i)))
  }

  lemma OneDash(arg: string)
    requires IsFlag(arg) && !("--" <= arg)
    ensures "-" + TrimDashes(Name(arg)) == Name(arg) || '=' in arg
  {
    if '=' !in arg {
      assert Name(arg) == arg == "-" + arg[1..];
      if |arg| > 1 {
        assert arg[..2] == ['-', arg[1]] && arg[..2] != "--";
      }
      assert TrimDashes(arg) == TrimDashes(arg[1..]) == arg[1..];
    }
  }

  /** Both readers take the same tokens with a flag of one dash. */
  lemma OneDashSteps(args: seq<string>, i: nat)
    requires i < |args| && args[i] != "-args" && !("--" <= args[i])
    ensures Width(args, i) == Advance(args, i, None)
  {
    assert args[i] != "--" by { assert "--" <= "--"; }
    if IsFlag(args[i]) {
      OneDash(args[i]);
    }
    hide BuildOnly, BuildValue, RunOnly, RunValue, TrimDashes, Name;
  }

  /** A flag of two dashes is in no table as it stands. */
  lemma TwoDashWidth(args: seq<string>, i: nat)
    requires i < |args| && "--" <= args[i]
    ensures Width(args, i) == if '=' !in args[i] && i + 1 < |args| && !IsFlag(args[i + 1]) then 2 else 1
  {
    TwoDashName(args[i]);
    TablesHaveOneDash(args[i]);
    TablesHaveOneDash(Name(args[i]));
    hide BuildOnly, BuildValue, RunOnly, RunValue, Name;
  }

  lemma TwoDashName(arg: string)
    requires "--" <= arg
    ensures "--" <= Name(arg) && Name(arg) != "-json" && |Name(arg)| >= 2 && Name(arg)[1] == '-' && arg[1] == '-'
    ensures '=' !in arg ==> Name(arg) == arg
  {
    assert arg[..2] == "--" && arg[0] == '-' && arg[1] == '-' && arg[1..][0] == '-';
    assert Name(arg) == ['-'] + Name(arg[1..]) && Name(arg[1..]) == ['-'] + Name(arg[1..][1..]);
    assert Name(arg)[1] == '-' && "-json"[1] == 'j';
  }

  lemma HarmlessIffSameStep(args: seq<string>, i: nat)
    requires i < |args| && args[i] != "-args"
    ensures Harmless(args, i) <==> args[i] != "--args" && Width(args, i) == Advance(args, i, None)
  {
    hide Width, IsGoTestFlag, TrimDashes, Name;
    if "--" <= args[i] {
      TwoDashWidth(args, i);
      TwoDashName(args[i]);
    } else {
      OneDashSteps(args, i);
      assert "--" <= "--args";
    }
  }

  /** The two readers look at the same tokens exactly when each of these is harmless. */
  lemma {:induction false} SameStopsIff(args: seq<string>, i: nat)
    requires i <= |args|
    ensures Stops(args, i) == IndexStops(args, i, None) <==> AllHarmless(args, i)
    decreases |args| - i
  {
    hide Width, Advance, Harmless;
    if i < |args| && args[i] != "-args" {
      HarmlessIffSameStep(args, i);
      var w := Width(args, i);
      SameStopsIff(args, i + w);
      var rest := Stops(args, i + w);
      assert Stops(args, i) == [i] + rest && ([i] + rest)[1..] == rest;
      if args[i] != "--args" {
        var others := IndexStops(args, i + Advance(args, i, None), None);
        assert IndexStops(args, i, None) == [i] + others && ([i] + others)[1..] == others;
      }
    }
  }

  /** Then they find the same patterns. */
  lemma {:induction false} AgreeFrom(args: seq<string>, i: nat)
    requires i <= |args| && AllHarmless(args, i)
    ensures Collected(args, i, Pattern) == At(args, IndicesFrom(args, i, None))
    decreases |args| - i
  {
    hide Width, ClassOf, Advance, Harmless, IndicesFrom, At;
    if i < |args| && args[i] != "-args" {
      HarmlessIffSameStep(args, i);
      AgreeFrom(args, i + Width(args, i));
      IndicesOn(args, i, None);
      PatternOn(args, i);
      AtFirst(args, i, IndicesFrom(args, i + Width(args, i), None));
    } else {
      NoIndices(args, i);
    }
  }

  lemma NoIndices(args: seq<string>, i: nat)
    requires i == |args| || (i < |args| && args[i] == "-args")
    ensures At(args, IndicesFrom(args, i, None)) == []
  {
  }

  lemma PatternOn(args: seq<string>, i: nat)
    requires i < |args| && args[i] != "-args"
    ensures Collected(args, i, Pattern) ==
      (if IsFlag(args[i]) then [] else [args[i]]) + Collected(args, i + Width(args, i), Pattern)
  {
    hide BuildOnly, BuildValue, RunOnly, RunValue, Name;
    if !IsFlag(args[i]) {
      assert args[i..i + 1] == [args[i]];
    }
  }

  lemma AtFirst(args: seq<string>, i: nat, idx: seq<nat>)
    requires i < |args| && forall j :: 0 <= j < |idx| ==> idx[j] < |args|
    ensures At(args, [i] + idx) == [args[i]] + At(args, idx) && [] + idx == idx && [] + At(args, idx) == At(args, idx)
  {
  }

  /** The two readers find the same patterns when every token looked at is harmless. */
  lemma ReadersAgree(args: seq<string>)
    requires AllHarmless(args, 0)
    ensures ClassifiedOf(args).patterns == At(args, IndicesFrom(args, 0, None))
  {
    AgreeFrom(args, 0);
  }

  /** So they do when no token before -args starts with two dashes. */
  lemma {:induction false} SingleDashesAreHarmless(args: seq<string>, i: nat)
    requires i <= |args| && forall k :: i <= k < Stop(args, i) ==> !("--" <= args[k])
    ensures AllHarmless(args, i)
    decreases |args| - i
  {
    hide Width;
    if i < |args| && args[i] != "-args" {
      assert Stop(args, i) == Stop(args, i + Width(args, i)) >= i + Width(args, i);
      SingleDashesAreHarmless(args, i + Width(args, i));
    }
  }

  // ------------------------------------------------------- nothing is lost

  function Times(s: seq<string>, x: string): nat {
    multiset(s)[x]
  }

  lemma TimesOfBoth(a: seq<string>, b: seq<string>, x: string)
    ensures Times(a + b, x) == Times(a, x) + Times(b, x)
  {
  }

  lemma {:induction false} CollectedConserve(args: seq<string>, i: nat, x: string)
    requires i <= |args|
    ensures Times(args[i..Stop(args, i)], x) ==
      Times(Collected(args, i, Build), x) + Times(Collected(args, i, Run), x) + Times(Collected(args, i, Pattern), x)
        + Times(Collected(args, i, Binary), x) + Times(Collected(args, i, Dropped), x)
    decreases |args| - i
  {
    hide Width, ClassOf, Times;
    if i < |args| && args[i] != "-args" {
      var w := Width(args, i);
      CollectedConserve(args, i + w, x);
      assert args[i..Stop(args, i)] == args[i..i + w] + args[i + w..Stop(args, i)];
      TimesOfBoth(args[i..i + w], args[i + w..Stop(args, i)], x);
      ClassStep(args, i, Build, w, x);
      ClassStep(args, i, Run, w, x);
      ClassStep(args, i, Pattern, w, x);
      ClassStep(args, i, Binary, w, x);
      ClassStep(args, i, Dropped, w, x);
    } else {
      assert args[i..i] == [];
      TimesOfNothing(x);
    }
  }

  lemma TimesOfNothing(x: string)
    ensures Times([], x) == 0
  {
  }

  lemma ClassStep(args: seq<string>, i: nat, c: Class, w: nat, x: string)
    requires i < |args| && args[i] != "-args" && w == Width(args, i)
    ensures Times(Collected(args, i, c), x) ==
      (if ClassOf(args[i]) == c then Times(args[i..i + w], x) else 0) + Times(Collected(args, i + w, c), x)
  {
    hide Width, ClassOf, Times;
    var rest := Collected(args, i + w, c);
    assert Collected(args, i, c) == (if ClassOf(args[i]) == c then args[i..i + w] else []) + rest;
    TimesOfBoth(if ClassOf(args[i]) == c then args[i..i + w] else [], rest, x);
    TimesOfNothing(x);
  }

  lemma {:induction false} DroppedIsJson(args: seq<string>, i: nat)
    requires i <= |args|
    ensures forall x <- Collected(args, i, Dropped) :: Name(x) == "-json"
    decreases |args| - i
  {
    hide BuildOnly, BuildValue, RunOnly, RunValue, Name;
    if i < |args| && args[i] != "-args" {
      DroppedIsJson(args, i + Width(args, i));
    }
  }

  function Marker(b: bool, arg: string): seq<string> {
    if b then [arg] else []
  }

  /** The three lists hold each token exactly once, apart from the -json tokens, the
      -args marker, and an added -cover. */
  lemma TokensAreConserved(args: seq<string>, x: string)
    ensures var c, json := ClassifiedOf(args), Collected(args, 0, Dropped);
      && (forall j <- json :: Name(j) == "-json")
      && Times(c.build, x) + Times(c.run, x) + Times(c.patterns, x) + Times(json, x)
         + Times(Marker(Stop(args, 0) < |args|, "-args"), x)
         == Times(args, x) + Times(Marker(AddsMarker(args), "-args"), x) + Times(Marker(AddsCover(args), "-cover"), x)
  {
    hide Collected, AddsCover, Name, Times;
    DroppedIsJson(args, 0);
    CollectedConserve(args, 0, x);
    var stop := Stop(args, 0);
    var read, marker, after := args[0..stop], Marker(stop < |args|, "-args"), AfterMarker(args);
    assert args == read + marker + after;
    TimesOfBoth(read + marker, after, x);
    TimesOfBoth(read, marker, x);
    RunCounts(args, x);
    TimesOfBoth(Collected(args, 0, Build), Marker(AddsCover(args), "-cover"), x);
  }

  lemma RunCounts(args: seq<string>, x: string)
    ensures Times(ClassifiedOf(args).run, x) == Times(Collected(args, 0, Run), x)
      + Times(Marker(AddsMarker(args), "-args"), x) + Times(Collected(args, 0, Binary), x) + Times(AfterMarker(args), x)
  {
    var run, binary, after := Collected(args, 0, Run), Collected(args, 0, Binary), AfterMarker(args);
    hide Collected, Stop, AddsCover, Times;
    TimesOfNothing(x);
    if AddsMarker(args) {
      TimesOfBoth(["-args"] + binary, after, x);
      TimesOfBoth(["-args"], binary, x);
      TimesOfBoth(run, ["-args"] + binary + after, x);
    } else {
      NothingAfter(args);
      TimesOfBoth(run, [], x);
    }
  }

  lemma NothingAfter(args: seq<string>)
    requires !AddsMarker(args)
    ensures Collected(args, 0, Binary) == [] && AfterMarker(args) == []
  {
  }

  // ------------------------------------------------------- what goes where

  const BUILD_FLAGS := BUILD_ONLY + BUILD_SPECIAL_VALUE + BUILD_VALUE
  const RUN_FLAGS := RUN_ONLY + RUN_VALUE

  lemma NoEqualsInBuildFlags()
    ensures forall f <- BUILD_ONLY :: '=' !in f
  {
    hide Name;
  }

  lemma NoEqualsInRunFlags()
    ensures forall f <- RUN_ONLY :: '=' !in f
  {
    hide Name;
  }

  lemma {:induction false} NameBefore(f: string, v: string)
    requires '=' !in f
    ensures Name(f + "=" + v) == f
  {
    if f == "" {
      assert f + "=" + v == "=" + v;
    } else {
      assert (f + "=" + v)[1..] == f[1..] + "=" + v && f[0] in f;
      assert forall c <- f[1..] :: c in f;
      NameBefore(f[1..], v);
    }
  }

  /** A flag the build knows is a build flag, bare or with a value, one the test binary
      knows a run flag, and any other but -json the test's own. */
  lemma Roles(f: string, v: string)
    requires '=' !in f && IsFlag(f) && f != "-args"
    ensures var c := if f == "-json" then Dropped else if f in BUILD_FLAGS then Build
                     else if f in RUN_FLAGS then Run else Binary;
      ClassOf(f) == c && ClassOf(f + "=" + v) == c
  {
    var arg := f + "=" + v;
    NameBefore(f, v);
    assert f <= arg && arg[|f|] == '=';
    NoEqualsInBuildFlags();
    NoEqualsInRunFlags();
    hide Name, BUILD_ONLY, RUN_ONLY, BUILD_VALUE, BUILD_SPECIAL_VALUE, RUN_VALUE;
  }

  /** A flag asks for a coverage profile. */
  predicate IsCoverProfile(arg: string) {
    arg == "-coverprofile" || "-coverprofile=" <= arg
  }

  lemma CoverProfileIs(arg: string)
    ensures IsCoverProfile(arg) <==>
      ClassOf(arg) == Run && !RunOnly(Name(arg)) && !RunOnly(arg) && Name(arg) == "-coverprofile"
  {
    NameCut(arg);
    if "-coverprofile=" <= arg {
      assert arg == "-coverprofile" + "=" + arg[14..];
      CoverProfileRuns(arg[14..]);
    } else {
      CoverProfileRuns("");
    }
    hide ClassOf, Name, RunOnly;
  }

  lemma CoverProfileRuns(v: string)
    ensures var f := "-coverprofile"; var arg := f + "=" + v;
      && ClassOf(f) == Run && !RunOnly(Name(f)) && !RunOnly(f) && Name(f) == f
      && ClassOf(arg) == Run && !RunOnly(Name(arg)) && !RunOnly(arg) && Name(arg) == f
  {
    hide Name, ClassOf;
    var f := "-coverprofile";
    assert '=' !in f;
    NameBefore(f, v);
    Roles(f, v);
    NoEqualsInRunFlags();
    CoverProfileIsRun();
  }

  lemma CoverProfileIsRun()
    ensures var f := "-coverprofile"; f in RUN_VALUE && f !in BUILD_FLAGS && f !in RUN_ONLY
  {
    assert |"-coverprofile"| == 13 && "-coverprofile" in RUN_VALUE;
    assert forall g <- BUILD_ONLY :: |g| != 13;
    assert forall g <- BUILD_SPECIAL_VALUE :: |g| != 13;
    assert forall g <- BUILD_VALUE :: |g| != 13;
    assert forall g <- RUN_ONLY :: |g| != 13;
    hide BUILD_ONLY, BUILD_SPECIAL_VALUE, BUILD_VALUE, RUN_ONLY, RUN_VALUE;
  }

  lemma {:induction false} NameCut(arg: string)
    ensures Name(arg) == arg || Name(arg) + "=" <= arg
  {
    if arg != "" && arg[0] != '=' {
      NameCut(arg[1..]);
    }
  }

  /** The build has -cover whenever the run writes a coverage profile, and none is added
      otherwise. */
  lemma {:induction false} NeedsCoverIff(args: seq<string>, i: nat)
    requires i <= |args|
    ensures NeedsCover(args, i) <==> exists k <- Stops(args, i) :: k < Stop(args, i) && IsCoverProfile(args[k])
    decreases |args| - i
  {
    hide Width, IsCoverProfile, ClassOf;
    if i < |args| && args[i] != "-args" {
      CoverProfileIs(args[i]);
      NeedsCoverIff(args, i + Width(args, i));
    }
  }

  lemma CoverIsBuilt(args: seq<string>)
    ensures (exists k <- Stops(args, 0) :: k < Stop(args, 0) && IsCoverProfile(args[k])) ==>
      "-cover" in ClassifiedOf(args).build
    ensures !(exists k <- Stops(args, 0) :: k < Stop(args, 0) && IsCoverProfile(args[k])) ==>
      ClassifiedOf(args).build == Collected(args, 0, Build)
  {
    NeedsCoverIff(args, 0);
    hide Collected, Stops, Stop, IsCoverProfile;
  }

  // ---------------------------------------------- two dashes are read two ways

  /** The value flags aside, "--race" is known to one reader only. */
  lemma TwoDashesAreUnknown()
    ensures ClassOf("--race") == Binary && IsGoTestFlag("-race") == (false, true)
  {
    TablesHaveOneDash("--race");
    assert Name("--race") == "--race";
    assert "--race"[0] == '-' && "-race" in BUILD_ONLY;
    assert "--race" != "-json" by { assert "--race"[1] != "-json"[1]; }
  }

  lemma TablesHaveOneDash(flag: string)
    requires |flag| >= 2 && flag[1] == '-'
    ensures !BuildOnly(flag) && !BuildValue(flag) && !RunOnly(flag) && !RunValue(flag)
  {
    assert forall f <- BUILD_ONLY :: f[1] != '-';
    assert forall f <- BUILD_VALUE :: f[1] != '-';
    assert forall f <- BUILD_SPECIAL_VALUE :: f[1] != '-';
    assert forall f <- RUN_ONLY :: f[1] != '-';
    assert forall f <- RUN_VALUE :: f[1] != '-';
  }

  /** The package after "--race" is its value to one reader and a pattern to the other. */
  lemma ReadersDisagree()
    ensures var args := ["--race", "p"];
      && !AllHarmless(args, 0)
      && ClassifiedOf(args).patterns == [] && At(args, IndicesFrom(args, 0, None)) == ["p"]
  {
    hide Width, ClassOf, Advance, TrimDashes, IsGoTestFlag, Name;
    var args := ["--race", "p"];
    RaceSteps();
    assert Collected(args, 2, Pattern) == [] && Collected(args, 0, Pattern) == [];
    IndicesOn(args, 0, None);
    IndicesOn(args, 1, None);
    assert IndicesFrom(args, 2, None) == [];
  }

  lemma RaceSteps()
    ensures var args := ["--race", "p"];
      && !Harmless(args, 0) && Width(args, 0) == 2 && ClassOf(args[0]) == Binary
      && Advance(args, 0, None) == 1 && Advance(args, 1, None) == 1 && IsFlag(args[0]) && !IsFlag(args[1])
      && args[0] != "-args" && args[1] != "-args" && args[0] != "--args" && args[1] != "--args"
  {
    hide Name, TrimDashes, IsGoTestFlag, Width, ClassOf;
    var args := ["--race", "p"];
    TwoDashesAreUnknown();
    RaceIsNoValueFlag();
    TwoDashWidth(args, 0);
    assert |"--race"| == |"--args"| == 6 && "--race"[2] != "--args"[2] && "--race"[1] != "-args"[1];
  }

  lemma RaceIsNoValueFlag()
    ensures "--" <= "--race" && '=' !in "--race" && !HarmlessBefore("--race", false) && !IsFlag("p")
    ensures forall args :: |args| == 2 && args[0] == "--race" ==> !TakesNext(args, 0, None)
  {
    TwoDashesAreUnknown();
    TwoDashName("--race");
    assert TrimDashes("--race") == TrimDashes("-race") == TrimDashes("race") == "race" && "-" + "race" == "-race";
    hide IsGoTestFlag, Name;
  }
}
