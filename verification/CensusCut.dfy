/** Which units the census calls cut short: those the converter failed under way, without a
    result line of their own. */
module CensusCut {
  import opened Options
  import opened Census

  // --------------------------------------------------------- the result line

  function Spaces(n: nat): string {
    seq(n, i => ' ')
  }

  /** go test's result line of the unit, however deeply indented. */
  ghost predicate ShowsVerdict(text: string, test: string) {
    exists n, verdict, rest :: VerdictAt(text, test, n, verdict, rest)
  }

  ghost predicate VerdictAt(text: string, test: string, n: nat, verdict: string, rest: string) {
    verdict in ["PASS", "FAIL", "SKIP"] && text == Spaces(n) + ("--- " + verdict + ": " + test + " (" + rest)
  }

  lemma {:induction false} TrimLeftIs(n: nat, s: string)
    requires s != "" && s[0] != ' '
    ensures TrimLeft(Spaces(n) + s) == s
  {
    if n > 0 {
      assert (Spaces(n) + s)[1..] == Spaces(n - 1) + s;
      TrimLeftIs(n - 1, s);
    } else {
      assert Spaces(0) + s == s;
    }
  }

  lemma {:induction false} TrimLeftCuts(s: string) returns (n: nat)
    ensures s == Spaces(n) + TrimLeft(s)
  {
    n := 0;
    if s != "" && s[0] == ' ' {
      var m := TrimLeftCuts(s[1..]);
      n := m + 1;
      assert Spaces(n) == [' '] + Spaces(m) && s == [s[0]] + s[1..];
    }
  }

  lemma ResultLineIff(text: string, test: string)
    ensures IsResultLine(text, test) <==> ShowsVerdict(text, test)
  {
    hide IsResultLine, ShowsVerdict;
    if IsResultLine(text, test) {
      ResultLineIsShown(text, test);
    }
    if ShowsVerdict(text, test) {
      ShownIsResultLine(text, test);
    }
  }

  lemma ResultLineIsShown(text: string, test: string)
    requires IsResultLine(text, test)
    ensures ShowsVerdict(text, test)
  {
    hide TrimLeft;
    var verdict :| verdict in ["PASS", "FAIL", "SKIP"]
      && HasPrefix(TrimLeft(text), "--- " + verdict + ": " + test + " (");
    var n := TrimLeftCuts(text);
    var line := "--- " + verdict + ": " + test + " (";
    assert TrimLeft(text) == line + TrimLeft(text)[|line|..];
    assert VerdictAt(text, test, n, verdict, TrimLeft(text)[|line|..]);
  }

  lemma ShownIsResultLine(text: string, test: string)
    requires ShowsVerdict(text, test)
    ensures IsResultLine(text, test)
  {
    hide TrimLeft;
    var n, verdict, rest :| VerdictAt(text, test, n, verdict, rest);
    var line := "--- " + verdict + ": " + test + " (";
    TrimLeftIs(n, line + rest);
    assert HasPrefix(line + rest, line);
  }

  // ------------------------------------------------------------- a unit's state

  /** A method or a suite, not a benchmark. */
  predicate IsUnit(key: Case) {
    key.path != "" && Slashes(key.path) <= 1 && !HasPrefix(key.path, BENCHMARK)
  }

  /** Whether its last start came after its last verdict. */
  function RunsAfter(evs: seq<Event>, key: Case, before: bool): bool {
    if evs == [] then before else
      var ev := evs[|evs| - 1];
      if ev.Key() == key && ev.action.Started? then true
      else if ev.Key() == key && (ev.action.Pass? || ev.action.Fail? || ev.action.Skip?) then false
      else RunsAfter(evs[..|evs| - 1], key, before)
  }

  /** Whether its own result line came since its last start. */
  ghost function ShownAfter(evs: seq<Event>, key: Case, before: bool): bool {
    if evs == [] then before else
      var ev := evs[|evs| - 1];
      if ev.Key() == key && ev.action.Started? then false
      else if ev.Key() == key && ev.action.Output? && ShowsVerdict(ev.output, key.path) then true
      else ShownAfter(evs[..|evs| - 1], key, before)
  }

  /** The i-th event fails the unit while it runs, does not wait and has shown no result. */
  ghost predicate CutsAt(v: Verdicts, evs: seq<Event>, key: Case, i: nat)
    requires i < |evs|
  {
    && evs[i].Key() == key && evs[i].action.Fail?
    && RunsAfter(evs[..i], key, Runs(v, key))
    && !Waits(evs[..i], key, key in v.waiting)
    && !ShownAfter(evs[..i], key, key in v.resulted)
  }

  lemma MethodPathKeepsPrefix(test: string)
    requires HasPrefix(test, BENCHMARK) && Slashes(test) > 1
    ensures HasPrefix(MethodPath(test), BENCHMARK)
  {
    SuiteSplits(test);
    var first := Suite(test);
    assert forall i :: 0 <= i < |BENCHMARK| ==> test[i] == BENCHMARK[i] && BENCHMARK[i] != '/';
    assert |first| < |test| && test[|first|] == '/';
    assert |first| >= |BENCHMARK|;
    assert first == test[..|first|];
    hide Slashes, Suite;
  }

  lemma CreditSpares(v: Verdicts, key: Case, other: Case)
    requires key != other
    ensures var w := Credited(v, other);
      && (Runs(w, key) <==> Runs(v, key)) && w.resulted == v.resulted && w.cut == v.cut && w.waiting == v.waiting
  {
  }

  /** One event's effect on the unit. */
  ghost predicate Stepped(v: Verdicts, w: Verdicts, ev: Event, key: Case) {
    && (Runs(w, key) <==>
          if ev.Key() == key && ev.action.Started? then true
          else if ev.Key() == key && (ev.action.Pass? || ev.action.Fail? || ev.action.Skip?) then false
          else Runs(v, key))
    && (key in w.resulted <==>
          if ev.Key() == key && ev.action.Started? then false
          else key in v.resulted || (ev.Key() == key && ev.action.Output? && ShowsVerdict(ev.output, key.path)))
    && (key in w.cut <==>
          || key in v.cut
          || (ev.Key() == key && ev.action.Fail? && Runs(v, key) && key !in v.waiting && key !in v.resulted))
  }

  lemma NotedSteps(v: Verdicts, ev: Event, key: Case)
    requires IsUnit(key)
    ensures Stepped(v, Noted(v, ev), ev, key)
  {
    hide IsResultLine, ShowsVerdict, Slashes, HasPrefix, WithVerdict;
    ResultLineIff(ev.output, ev.test);
    if ev.action.Pass? || ev.action.Fail? || ev.action.Skip? {
      VerdictSteps(v, ev, key);
    }
  }

  lemma VerdictSteps(v: Verdicts, ev: Event, key: Case)
    requires IsUnit(key) && (ev.action.Pass? || ev.action.Fail? || ev.action.Skip?)
    ensures Stepped(v, WithVerdict(v, ev), ev, key)
  {
    hide ShowsVerdict, Slashes, HasPrefix;
  }

  lemma ObservedSteps(v: Verdicts, ev: Event, key: Case)
    requires IsUnit(key)
    ensures Stepped(v, Observed(v, ev), ev, key)
  {
    NotedSteps(v, ev, key);
    if HasPrefix(ev.test, BENCHMARK) && Slashes(ev.test) > 1 {
      MethodPathKeepsPrefix(ev.test);
      CreditSpares(v, key, Case(ev.pkg, MethodPath(ev.test)));
    }
    if HasPrefix(ev.test, BENCHMARK) {
      CreditSpares(Noted(v, ev), key, ev.Key());
    }
    hide Noted, Credited, Slashes, MethodPath, BenchVerdict, ShowsVerdict, Runs, HasPrefix;
  }

  /** A unit is cut short exactly when some event fails it under way, without a result line
      of its own. */
  lemma {:induction false} CutIff(v: Verdicts, evs: seq<Event>, key: Case)
    requires IsUnit(key)
    ensures var w := After(v, Saws(evs));
      && (Runs(w, key) <==> RunsAfter(evs, key, Runs(v, key)))
      && (key in w.resulted <==> ShownAfter(evs, key, key in v.resulted))
      && (key in w.cut <==> key in v.cut || exists i :: 0 <= i < |evs| && CutsAt(v, evs, key, i))
    decreases |evs|
  {
    hide Observed, After, Saws, IsUnit, ShowsVerdict, Runs;
    if evs == [] {
      NothingWaits(v);
    } else {
      var before, ev := evs[..|evs| - 1], evs[|evs| - 1];
      AfterOneMore(v, evs);
      CutIff(v, before, key);
      ObservedSteps(After(v, Saws(before)), ev, key);
      assert key.path != "" by { PathOfUnit(key); }
      WaitingIs(v, before, key);
      OneMoreCut(v, evs, key);
    }
  }

  lemma PathOfUnit(key: Case)
    requires IsUnit(key)
    ensures key.path != ""
  {
  }

  lemma OneMoreCut(v: Verdicts, evs: seq<Event>, key: Case)
    requires evs != []
    ensures var n := |evs| - 1;
      (exists i :: 0 <= i < |evs| && CutsAt(v, evs, key, i)) <==>
      (exists i :: 0 <= i < n && CutsAt(v, evs[..n], key, i)) || CutsAt(v, evs, key, n)
  {
    var n := |evs| - 1;
    hide RunsAfter, ShownAfter, Waits, Runs;
    forall i | 0 <= i < n ensures CutsAt(v, evs[..n], key, i) == CutsAt(v, evs, key, i) {
      assert evs[..n][..i] == evs[..i];
    }
    hide CutsAt;
  }
}
