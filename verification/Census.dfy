/** The census of a run: an index of the verdicts in the event stream, and the check
    that every declared unit has one. Decoding a line is a parameter. */
module Census {
  import opened Options

  // ------------------------------------------------------------------ names

  function Slashes(s: string): nat {
    if s == "" then 0 else (if s[0] == '/' then 1 else 0) + Slashes(s[1..])
  }

  /** What stands before the first slash. */
  function Suite(s: string): (r: string)
    ensures |r| <= |s| && r == s[..|r|] && '/' !in r
  {
    if s == "" || s[0] == '/' then "" else [s[0]] + Suite(s[1..])
  }

  /** The Benchmark<Suite>/<Method> prefix of a deeper path. */
  function MethodPath(s: string): string {
    var first := Suite(s);
    if |first| == |s| then s else first + "/" + Suite(s[|first| + 1..])
  }

  predicate HasPrefix(s: string, prefix: string) {
    prefix <= s
  }

  const BENCHMARK := "Benchmark"
  const FUZZ := "Fuzz"
  const TEST_SUITE := "TestSuite_"

  predicate IsWord(c: char) {
    'a' <= c <= 'z' || 'A' <= c <= 'Z' || '0' <= c <= '9' || c == '_'
  }

  /** The suite type in a fuzz wrapper's name: up to the last TestSuite_ that leaves a
      method, over word characters only. */
  function WrapperSuite(name: string, upTo: nat): (r: Option<string>)
    requires upTo <= |name|
    ensures r.Some? ==> '/' !in r.value
  {
    if upTo == 0 || !HasPrefix(name, FUZZ) then None
    else if |FUZZ| < upTo - 1 && HasPrefix(name[upTo - 1..], TEST_SUITE) && upTo - 1 + |TEST_SUITE| < |name|
         && forall c <- name[|FUZZ|..upTo - 1] :: IsWord(c) then
      var s := name[|FUZZ|..upTo - 1];
      assert '/' in s ==> IsWord('/');
      Some(s + "TestSuite")
    else WrapperSuite(name, upTo - 1)
  }

  /** The suite test a unit's verdict folds into. */
  function SuitePath(path: string): (r: Option<string>)
    ensures r.Some? ==> '/' !in r.value
  {
    if '/' in path then Some(Suite(path))
    else match WrapperSuite(path, |path|)
      case Some(s) => Some("Test" + s)
      case None => None
  }

  lemma {:induction false} NoSlash(s: string)
    ensures Slashes(s) == 0 <==> '/' !in s
  {
    if s != "" {
      NoSlash(s[1..]);
      assert s == [s[0]] + s[1..];
    }
  }

  // ----------------------------------------------------------------- events

  datatype Action = Started | Pause | Cont | Output | Pass | Fail | Skip | Bench | Other

  datatype Event = Event(time: string, action: Action, pkg: string, test: string, output: string, elapsed: real)
  {
    function Key(): Case { Case(pkg, test) }
  }

  /** A declared unit under the path go test reports it by. */
  datatype Case = Case(pkg: string, path: string)

  function TrimLeft(s: string): string {
    if s != "" && s[0] == ' ' then TrimLeft(s[1..]) else s
  }

  /** The unit's own result line. */
  predicate IsResultLine(output: string, test: string) {
    exists verdict <- ["PASS", "FAIL", "SKIP"] :: HasPrefix(TrimLeft(output), "--- " + verdict + ": " + test + " (")
  }

  predicate IsSpace(c: char) {
    c == ' ' || c == '\t' || c == '\n' || c == '\U{0C}' || c == '\r'
  }

  /** A "<value> <unit>/op" pair somewhere in the text. */
  predicate HasResult(output: string) {
    exists i, j :: 0 <= i < j < |output| && IsResult(output, i, j)
  }

  predicate IsResult(output: string, i: nat, j: nat)
    requires i < j < |output|
  {
    && IsSpace(output[i]) && j > i + 1 && (forall c <- output[i + 1..j] :: !IsSpace(c))
    && HasPrefix(output[j..], "/op") && (j + 3 == |output| || IsSpace(output[j + 3]))
  }

  /** What settles a benchmark: go test emits no pass for one. */
  predicate BenchVerdict(ev: Event) {
    match ev.action
    case Fail => true
    case Skip => true
    case Bench => true
    case Output => HasResult(ev.output)
    case _ => false
  }

  predicate IsVerdict(a: Action) {
    a.Pass? || a.Fail? || a.Skip?
  }

  // -------------------------------------------------------------- the index

  datatype Verdicts = Verdicts(
    last: map<Case, Event>, order: seq<Case>,
    benched: set<Case>, benchOrder: seq<Case>,
    running: map<Case, bool>, started: seq<Case>,
    resulted: set<Case>, cut: set<Case>, waiting: set<Case>,
    ranNow: seq<Case>, cutNow: seq<Case>)

  const EMPTY := Verdicts(map[], [], {}, [], map[], [], {}, {}, {}, [], [])

  function Settled(v: Verdicts, key: Case): Verdicts {
    if key in v.running && v.running[key] then v.(running := v.running[key := false]) else v
  }

  function Credited(v: Verdicts, key: Case): Verdicts {
    var w := Settled(v, key);
    if key in w.benched then w else w.(benched := w.benched + {key}, benchOrder := w.benchOrder + [key])
  }

  function WithStart(v: Verdicts, key: Case): Verdicts {
    v.(started := if key in v.running then v.started else v.started + [key],
       running := v.running[key := true],
       ranNow := v.ranNow + [key],
       resulted := v.resulted - {key},
       waiting := v.waiting - {key})
  }

  /** A unit the converter failed without a result line of its own. */
  predicate IsCut(v: Verdicts, ev: Event) {
    var key := ev.Key();
    && ev.action.Fail? && ev.test != "" && key in v.running && v.running[key]
    && key !in v.waiting && key !in v.resulted && !HasPrefix(ev.test, BENCHMARK)
  }

  function WithVerdict(v: Verdicts, ev: Event): Verdicts {
    Settled(Recorded(v, ev), ev.Key())
  }

  function Recorded(v: Verdicts, ev: Event): Verdicts {
    var key := ev.Key();
    var w := v.(order := if key in v.last then v.order else v.order + [key]);
    var c := if IsCut(v, ev) then w.(cut := w.cut + {key}, cutNow := w.cutNow + [key]) else w;
    c.(last := c.last[key := ev.(output := "")])
  }

  function Noted(v: Verdicts, ev: Event): Verdicts {
    var key := ev.Key();
    match ev.action
    case Started => if ev.test != "" then WithStart(v, key) else v
    case Pause => if ev.test != "" then v.(waiting := v.waiting + {key}) else v
    case Cont => v.(waiting := v.waiting - {key})
    case Output => if ev.test != "" && IsResultLine(ev.output, ev.test) then v.(resulted := v.resulted + {key}) else v
    case Pass => WithVerdict(v, ev)
    case Fail => WithVerdict(v, ev)
    case Skip => WithVerdict(v, ev)
    case _ => v
  }

  /** The index after one event. */
  function Observed(v: Verdicts, ev: Event): Verdicts {
    if Slashes(ev.test) > 1 then
      if HasPrefix(ev.test, BENCHMARK) && BenchVerdict(ev) then Credited(v, Case(ev.pkg, MethodPath(ev.test))) else v
    else
      var w := Noted(v, ev);
      if Slashes(ev.test) == 1 && HasPrefix(ev.test, BENCHMARK) && BenchVerdict(ev) then Credited(w, ev.Key()) else w
  }

  /** A unit of a process that ended on its own neither runs nor waits. */
  function Finished(v: Verdicts, key: Case): Verdicts {
    Settled(v, key).(waiting := v.waiting - {key})
  }

  function FinishAll(v: Verdicts, keys: seq<Case>): Verdicts
    decreases |keys|
  {
    if keys == [] then v else FinishAll(Finished(v, keys[0]), keys[1..])
  }

  ghost function FinishFrom(v: Verdicts, keys: seq<Case>, i: nat): Verdicts
    requires i <= |keys|
  {
    FinishAll(v, keys[i..])
  }

  lemma FinishNext(v: Verdicts, keys: seq<Case>, i: nat)
    requires i < |keys|
    ensures FinishFrom(v, keys, i) == FinishFrom(Finished(v, keys[i]), keys, i + 1)
  {
    assert keys[i..][1..] == keys[i + 1..];
  }

  lemma FinishEnds(v: Verdicts, keys: seq<Case>)
    ensures FinishFrom(v, keys, 0) == FinishAll(v, keys) && FinishFrom(v, keys, |keys|) == v
  {
    assert keys[0..] == keys;
  }

  function Range(keys: seq<Case>): set<Case> {
    set k | k in keys
  }

  /** The index at the end of one suite process. */
  function Ended(v: Verdicts, cutShort: bool): Verdicts {
    var w := if cutShort then v else FinishAll(v, v.ranNow).(cut := v.cut - Range(v.cutNow));
    w.(resulted := v.resulted - Range(v.ranNow), ranNow := [], cutNow := [])
  }

  // ----------------------------------------------------------------- lines

  type Byte = x: int | 0 <= x < 256
  type Text = seq<Byte>
  const NEWLINE: Byte := 10

  /** The text up to the first newline, and what comes after it. */
  function FirstLine(s: Text): (r: Option<(Text, Text)>)
    ensures r.Some? <==> NEWLINE in s
    ensures r.Some? ==> NEWLINE !in r.value.0 && s == r.value.0 + [NEWLINE] + r.value.1
  {
    if s == [] then None
    else if s[0] == NEWLINE then Some(([], s[1..]))
    else
      match FirstLine(s[1..])
      case None => None
      case Some(p) => Some(([s[0]] + p.0, p.1))
  }

  /** The whole lines of a text, and the rest after the last newline. */
  function Lines(s: Text): (seq<Text>, Text)
    decreases |s|
  {
    match FirstLine(s)
    case None => ([], s)
    case Some(p) => var (ls, rest) := Lines(p.1); ([p.0] + ls, rest)
  }

  type Decoder = Text -> Option<Event>

  function ObserveLine(decode: Decoder, v: Verdicts, line: Text): Verdicts {
    match decode(line)
    case None => v
    case Some(ev) => Observed(v, ev)
  }

  function ObserveLines(decode: Decoder, v: Verdicts, lines: seq<Text>): Verdicts
    decreases |lines|
  {
    if lines == [] then v else ObserveLines(decode, ObserveLine(decode, v, lines[0]), lines[1..])
  }

  /** The index and the kept partial line after some more text. */
  function Fed(decode: Decoder, v: Verdicts, partial: Text, p: Text): (Verdicts, Text) {
    var (lines, rest) := Lines(partial + p);
    (ObserveLines(decode, v, lines), rest)
  }

  lemma FedNothing(decode: Decoder, v: Verdicts, partial: Text)
    ensures forall q, p :: q + p == partial ==> Fed(decode, v, q, p) == Fed(decode, v, partial, [])
    ensures FirstLine(partial).None? ==> Fed(decode, v, partial, []) == (v, partial)
  {
    assert partial + [] == partial;
  }

  /** One line of the text observed, the rest still to come. */
  lemma FedStep(decode: Decoder, v: Verdicts, partial: Text)
    requires FirstLine(partial).Some?
    ensures var p := FirstLine(partial).value;
      |p.1| < |partial| && Fed(decode, v, partial, []) == Fed(decode, ObserveLine(decode, v, p.0), p.1, [])
  {
    var p := FirstLine(partial).value;
    LinesStep(partial);
    assert partial + [] == partial && p.1 + [] == p.1;
    hide Lines, FirstLine, ObserveLine;
    assert ([p.0] + Lines(p.1).0)[1..] == Lines(p.1).0;
  }

  function FedAll(decode: Decoder, v: Verdicts, partial: Text, chunks: seq<Text>): (Verdicts, Text)
    decreases |chunks|
  {
    if chunks == [] then (v, partial) else
      var (w, rest) := Fed(decode, v, partial, chunks[0]);
      FedAll(decode, w, rest, chunks[1..])
  }

  function Concat(chunks: seq<Text>): Text {
    if chunks == [] then [] else chunks[0] + Concat(chunks[1..])
  }

  lemma {:induction false} FirstLineOfMore(a: Text, b: Text)
    requires FirstLine(a).Some?
    ensures FirstLine(a + b) == Some((FirstLine(a).value.0, FirstLine(a).value.1 + b))
  {
    assert a + b == [a[0]] + (a[1..] + b);
    if a[0] != NEWLINE {
      FirstLineOfMore(a[1..], b);
    }
  }

  /** One line off the front. */
  lemma LinesStep(s: Text)
    requires FirstLine(s).Some?
    ensures var p := FirstLine(s).value;
      |p.1| < |s| && Lines(s) == ([p.0] + Lines(p.1).0, Lines(p.1).1)
  {
  }

  lemma NoLine(s: Text)
    requires FirstLine(s).None?
    ensures Lines(s) == ([], s)
  {
  }

  lemma {:induction false} LinesOfMore(a: Text, b: Text)
    ensures Lines(a + b) == (Lines(a).0 + Lines(Lines(a).1 + b).0, Lines(Lines(a).1 + b).1)
    decreases |a|
  {
    hide Lines, FirstLine;
    if FirstLine(a).None? {
      NoLine(a);
      assert [] + Lines(a + b).0 == Lines(a + b).0;
    } else {
      FirstLineOfMore(a, b);
      LinesStep(a);
      LinesStep(a + b);
      var p := FirstLine(a).value;
      LinesOfMore(p.1, b);
      var more := Lines(Lines(a).1 + b).0;
      assert [p.0] + (Lines(p.1).0 + more) == ([p.0] + Lines(p.1).0) + more;
    }
  }

  lemma {:induction false} ObserveBoth(decode: Decoder, v: Verdicts, a: seq<Text>, b: seq<Text>)
    ensures ObserveLines(decode, v, a + b) == ObserveLines(decode, ObserveLines(decode, v, a), b)
    decreases |a|
  {
    if a == [] {
      assert a + b == b;
    } else {
      assert (a + b)[1..] == a[1..] + b;
      ObserveBoth(decode, ObserveLine(decode, v, a[0]), a[1..], b);
    }
  }

  lemma {:induction false} PartialHasNoLine(s: Text)
    ensures Lines(Lines(s).1) == ([], Lines(s).1)
    decreases |s|
  {
    match FirstLine(s)
    case None =>
    case Some(p) => PartialHasNoLine(p.1);
  }

  lemma FedTwice(decode: Decoder, v: Verdicts, partial: Text, p: Text, q: Text)
    ensures var (w, rest) := Fed(decode, v, partial, p);
      && Lines(rest) == ([], rest)
      && Fed(decode, w, rest, q) == Fed(decode, v, partial, p + q)
  {
    hide Lines, ObserveLines;
    PartialHasNoLine(partial + p);
    LinesOfMore(partial + p, q);
    assert partial + (p + q) == (partial + p) + q;
    ObserveBoth(decode, v, Lines(partial + p).0, Lines(Lines(partial + p).1 + q).0);
  }

  /** However the stream is cut into writes, the index and the kept partial line are
      those of one write of it all. */
  lemma {:induction false} CutsDoNotMatter(decode: Decoder, v: Verdicts, partial: Text, chunks: seq<Text>)
    requires Lines(partial) == ([], partial)
    ensures FedAll(decode, v, partial, chunks) == Fed(decode, v, partial, Concat(chunks))
    decreases |chunks|
  {
    if chunks == [] {
      assert partial + [] == partial;
    } else {
      hide Lines, Fed;
      var (w, rest) := Fed(decode, v, partial, chunks[0]);
      FedTwice(decode, v, partial, chunks[0], Concat(chunks[1..]));
      CutsDoNotMatter(decode, w, rest, chunks[1..]);
    }
  }

  class VerdictIndex {
    const decode: Decoder
    var partial: Text
    var last: map<Case, Event>
    var order: seq<Case>
    var benched: set<Case>
    var benchOrder: seq<Case>
    var running: map<Case, bool>
    var started: seq<Case>
    var resulted: set<Case>
    var cut: set<Case>
    var waiting: set<Case>
    var ranNow: seq<Case>
    var cutNow: seq<Case>

    constructor (decode: Decoder)
      ensures State() == EMPTY && partial == [] && this.decode == decode
    {
      this.decode, partial := decode, [];
      last, order, benched, benchOrder, running, started := map[], [], {}, [], map[], [];
      resulted, cut, waiting, ranNow, cutNow := {}, {}, {}, [], [];
    }

    function State(): Verdicts
      reads this
    {
      Verdicts(last, order, benched, benchOrder, running, started, resulted, cut, waiting, ranNow, cutNow)
    }

    method Write(p: Text)
      modifies this
      ensures (State(), partial) == old(Fed(decode, State(), partial, p))
    {
      partial := partial + p;
      var line := FirstLine(partial);
      FedNothing(decode, State(), partial);
      hide Observed, Lines, FirstLine, ObserveLines;
      while line.Some?
        invariant line == FirstLine(partial)
        invariant Fed(decode, State(), partial, []) == old(Fed(decode, State(), partial, p))
        decreases |partial|
      {
        FedStep(decode, State(), partial);
        match decode(line.value.0) {
          case None =>
          case Some(ev) => Observe(ev);
        }
        partial := line.value.1;
        line := FirstLine(partial);
      }
      FedNothing(decode, State(), partial);
    }

    method Observe(ev: Event)
      modifies this
      ensures State() == Observed(old(State()), ev) && partial == old(partial)
    {
      hide Slashes, HasPrefix, BenchVerdict, MethodPath, Credited, Noted;
      var depth := Slashes(ev.test);
      if depth > 1 {
        if HasPrefix(ev.test, BENCHMARK) && BenchVerdict(ev) {
          CreditBenchmark(Case(ev.pkg, MethodPath(ev.test)));
        }
        return;
      }
      Note(ev);
      if depth == 1 && HasPrefix(ev.test, BENCHMARK) && BenchVerdict(ev) {
        CreditBenchmark(ev.Key());
      }
    }

    method Note(ev: Event)
      modifies this
      ensures State() == Noted(old(State()), ev) && partial == old(partial)
    {
      hide IsResultLine, WithVerdict;
      var key := ev.Key();
      match ev.action {
        case Started =>
          if ev.test != "" {
            if key !in running {
              started := started + [key];
            }
            running := running[key := true];
            ranNow := ranNow + [key];
            resulted := resulted - {key};
            waiting := waiting - {key};
          }
        case Pause =>
          if ev.test != "" {
            waiting := waiting + {key};
          }
        case Cont => waiting := waiting - {key};
        case Output =>
          if ev.test != "" && IsResultLine(ev.output, ev.test) {
            resulted := resulted + {key};
          }
        case Pass => Judge(ev);
        case Fail => Judge(ev);
        case Skip => Judge(ev);
        case _ =>
      }
    }

    method Judge(ev: Event)
      modifies this
      ensures State() == WithVerdict(old(State()), ev) && partial == old(partial)
    {
      hide HasPrefix, Settled;
      var key := ev.Key();
      if key !in last {
        order := order + [key];
      }
      if ev.action.Fail? && ev.test != "" && key in running && running[key] && key !in waiting && key !in resulted
         && !HasPrefix(ev.test, BENCHMARK)
      {
        cut := cut + {key};
        cutNow := cutNow + [key];
      }
      last := last[key := ev.(output := "")];
      Settle(key);
    }

    method Settle(key: Case)
      modifies this`running
      ensures State() == Settled(old(State()), key)
    {
      if key in running && running[key] {
        running := running[key := false];
      }
    }

    method CreditBenchmark(key: Case)
      modifies this
      ensures State() == Credited(old(State()), key) && partial == old(partial)
    {
      Settle(key);
      if key !in benched {
        benched := benched + {key};
        benchOrder := benchOrder + [key];
      }
    }

    method EndSuite(cutShort: bool)
      modifies this
      ensures State() == Ended(old(State()), cutShort) && partial == old(partial)
    {
      hide Settled, FinishAll, FinishFrom, Range;
      if !cutShort {
        FinishEnds(State(), ranNow);
        for i := 0 to |ranNow|
          invariant State() == old(State()).(running := running, waiting := waiting) && partial == old(partial)
          invariant FinishFrom(State(), ranNow, i) == old(FinishAll(State(), ranNow))
        {
          FinishNext(State(), ranNow, i);
          Settle(ranNow[i]);
          waiting := waiting - {ranNow[i]};
        }
        FinishEnds(State(), ranNow);
        cut := cut - Range(cutNow);
      }
      resulted := resulted - Range(ranNow);
      ranNow, cutNow := [], [];
    }
  }

  // ------------------------------------------------- the index of a stream

  /** What the collector does with a suite's output: events, and the end of it. */
  datatype Item = Saw(ev: Event) | SuiteEnd(cutShort: bool)

  function AfterItem(v: Verdicts, item: Item): Verdicts {
    match item
    case Saw(ev) => Observed(v, ev)
    case SuiteEnd(cutShort) => Ended(v, cutShort)
  }

  function After(v: Verdicts, items: seq<Item>): Verdicts {
    if items == [] then v else AfterItem(After(v, items[..|items| - 1]), items[|items| - 1])
  }

  predicate Judges(item: Item, key: Case) {
    item.Saw? && IsVerdict(item.ev.action) && item.ev.Key() == key && Slashes(item.ev.test) <= 1
  }

  /** The last verdict the stream gives a unit. */
  function LastVerdict(items: seq<Item>, key: Case): Option<Event> {
    if items == [] then None
    else if Judges(items[|items| - 1], key) then Some(items[|items| - 1].ev.(output := ""))
    else LastVerdict(items[..|items| - 1], key)
  }

  /** The benchmark an event settles: its own, or of a deeper one the method. */
  predicate Credits(item: Item, key: Case) {
    && item.Saw? && HasPrefix(item.ev.test, BENCHMARK) && BenchVerdict(item.ev)
    && ((Slashes(item.ev.test) == 1 && key == item.ev.Key())
        || (Slashes(item.ev.test) > 1 && key == Case(item.ev.pkg, MethodPath(item.ev.test))))
  }

  /** The lists hold exactly the keys of the maps. */
  ghost predicate Indexed(v: Verdicts) {
    Range(v.order) == v.last.Keys && Range(v.benchOrder) == v.benched && forall k <- v.benched :: '/' in k.path
  }

  lemma {:induction false} FinishKeeps(v: Verdicts, keys: seq<Case>)
    ensures var w := FinishAll(v, keys);
      w.last == v.last && w.order == v.order && w.benched == v.benched && w.benchOrder == v.benchOrder
    decreases |keys|
  {
    if keys != [] {
      FinishKeeps(Finished(v, keys[0]), keys[1..]);
    }
  }

  lemma RangeOfMore(keys: seq<Case>, key: Case)
    ensures Range(keys + [key]) == Range(keys) + {key}
  {
  }

  lemma SettledLast(v: Verdicts, key: Case)
    ensures var w := Settled(v, key);
      w.last == v.last && w.order == v.order && w.benched == v.benched && w.benchOrder == v.benchOrder
  {
  }

  lemma NotedLast(v: Verdicts, ev: Event)
    ensures Noted(v, ev).benched == v.benched && Noted(v, ev).benchOrder == v.benchOrder
    ensures Noted(v, ev).last == if IsVerdict(ev.action) then v.last[ev.Key() := ev.(output := "")] else v.last
    ensures Noted(v, ev).order == if IsVerdict(ev.action) && ev.Key() !in v.last then v.order + [ev.Key()] else v.order
  {
    hide WithVerdict, IsResultLine;
    VerdictLast(v, ev);
  }

  lemma VerdictLast(v: Verdicts, ev: Event)
    ensures var w := WithVerdict(v, ev); w.benched == v.benched && w.benchOrder == v.benchOrder
    ensures WithVerdict(v, ev).last == v.last[ev.Key() := ev.(output := "")]
    ensures WithVerdict(v, ev).order == if ev.Key() in v.last then v.order else v.order + [ev.Key()]
  {
    hide IsCut, Settled;
    SettledLast(Recorded(v, ev), ev.Key());
  }

  lemma {:induction false} MethodPathHasSlash(s: string)
    requires Slashes(s) > 0
    ensures '/' in MethodPath(s)
  {
    NoSlash(s);
    assert Suite(s) == s ==> '/' !in s;
  }

  lemma CreditedLast(v: Verdicts, key: Case)
    requires Indexed(v) && '/' in key.path
    ensures Credited(v, key).last == v.last && Indexed(Credited(v, key))
    ensures Credited(v, key).benched == v.benched + {key}
  {
    RangeOfMore(v.benchOrder, key);
  }

  lemma ItemIs(v: Verdicts, item: Item, key: Case)
    requires Indexed(v)
    ensures var w := AfterItem(v, item);
      && Indexed(w)
      && (Judges(item, key) ==> key in w.last && w.last[key] == item.ev.(output := ""))
      && (!Judges(item, key) ==> (key in w.last <==> key in v.last) && (key in v.last ==> w.last[key] == v.last[key]))
      && (key in w.benched <==> key in v.benched || Credits(item, key))
  {
    match item
    case SuiteEnd(cutShort) => FinishKeeps(v, v.ranNow);
    case Saw(ev) => ObservedIs(v, ev, key);
  }

  lemma ObservedIs(v: Verdicts, ev: Event, key: Case)
    requires Indexed(v)
    ensures var w, item := Observed(v, ev), Saw(ev);
      && Indexed(w)
      && (Judges(item, key) ==> key in w.last && w.last[key] == ev.(output := ""))
      && (!Judges(item, key) ==> (key in w.last <==> key in v.last) && (key in v.last ==> w.last[key] == v.last[key]))
      && (key in w.benched <==> key in v.benched || Credits(item, key))
  {
    hide Noted, Credited, Slashes, HasPrefix, BenchVerdict, MethodPath, Indexed, IsVerdict;
    var w := Noted(v, ev);
    NotedIs(v, ev, key);
    NoSlash(ev.test);
    if Slashes(ev.test) > 1 {
      MethodPathHasSlash(ev.test);
      CreditedLast(v, Case(ev.pkg, MethodPath(ev.test)));
    } else if Slashes(ev.test) == 1 {
      CreditedLast(w, ev.Key());
    }
  }

  lemma NotedIs(v: Verdicts, ev: Event, key: Case)
    requires Indexed(v)
    ensures var w := Noted(v, ev);
      && Indexed(w) && w.benched == v.benched
      && (if IsVerdict(ev.action) && ev.Key() == key then key in w.last && w.last[key] == ev.(output := "")
          else (key in w.last <==> key in v.last) && (key in v.last ==> w.last[key] == v.last[key]))
  {
    hide Noted, IsVerdict;
    NotedLast(v, ev);
    RangeOfMore(v.order, ev.Key());
  }

  /** The index holds, of each unit, the last verdict of the stream, and of the
      benchmarks those the stream settled. */
  lemma {:induction false} IndexIsLastVerdict(v: Verdicts, items: seq<Item>, key: Case)
    requires Indexed(v)
    ensures var w := After(v, items);
      && Indexed(w)
      && match LastVerdict(items, key) {
           case Some(ev) => key in w.last && w.last[key] == ev
           case None => (key in w.last <==> key in v.last) && (key in v.last ==> w.last[key] == v.last[key])
         }
      && (key in w.benched <==> key in v.benched || exists item <- items :: Credits(item, key))
  {
    hide AfterItem, Judges, Credits, Indexed;
    if items != [] {
      var before, item := items[..|items| - 1], items[|items| - 1];
      IndexIsLastVerdict(v, before, key);
      ItemIs(After(v, before), item, key);
      assert items == before + [item];
    }
  }

  // ------------------------------------------------------------ the census

  /** A suite skipped as a whole appears bare and stands for its methods. */
  predicate TestRan(v: Verdicts, c: Case) {
    && c in v.last && c.path != "" && !HasPrefix(c.path, FUZZ)
    && ('/' in c.path || v.last[c].action.Skip?)
  }

  predicate FuzzRan(v: Verdicts, c: Case) {
    c in v.last && HasPrefix(c.path, FUZZ) && '/' !in c.path
  }

  function TestsRan(v: Verdicts): set<Case> {
    set c | c in v.last && TestRan(v, c)
  }

  function FuzzesRan(v: Verdicts): set<Case> {
    set c | c in v.last && FuzzRan(v, c)
  }

  /** A unit with a verdict, or in a suite skipped as a whole. */
  predicate Covered(d: Case, ran: set<Case>) {
    d in ran || ('/' in d.path && Case(d.pkg, Suite(d.path)) in ran)
  }

  function Missing(declared: seq<Case>, ran: set<Case>): (missing: seq<Case>)
    ensures forall d :: d in missing <==> d in declared && !Covered(d, ran)
  {
    if declared == [] then [] else
      var d := declared[|declared| - 1];
      assert declared == declared[..|declared| - 1] + [d];
      Missing(declared[..|declared| - 1], ran) + if Covered(d, ran) then [] else [d]
  }

  function BookMissing(kind: string, missing: seq<Case>): seq<Event> {
    if missing == [] then [] else
      var m := missing[|missing| - 1];
      BookMissing(kind, missing[..|missing| - 1]) + [
        Event("", Started, m.pkg, m.path, "", 0.0),
        Event("", Output, m.pkg, m.path, "    census: declared " + kind + " never ran\n", 0.0),
        Event("", Fail, m.pkg, m.path, "", 0.0)]
  }

  function SuiteOf(m: Case): Option<Case> {
    match SuitePath(m.path)
    case Some(s) => Some(Case(m.pkg, s))
    case None => None
  }

  function SuitesOf(units: seq<Case>): set<Case> {
    set m | m in units && SuiteOf(m).Some? :: SuiteOf(m).value
  }

  /** A failure that keeps the time and the duration of the verdict before it. */
  function FailureOf(v: Verdicts, c: Case): Event {
    if c in v.last then Event(v.last[c].time, Fail, c.pkg, c.path, "", v.last[c].elapsed)
    else Event("", Fail, c.pkg, c.path, "", 0.0)
  }

  predicate Known(v: Verdicts, c: Case) {
    c in v.last || c in v.running
  }

  /** Each suite of the units that the stream started or settled fails, once. */
  function SuiteFailures(v: Verdicts, units: seq<Case>): seq<Event> {
    if units == [] then [] else
      var before, suite := units[..|units| - 1], SuiteOf(units[|units| - 1]);
      SuiteFailures(v, before) +
      if suite.Some? && suite.value !in SuitesOf(before) && Known(v, suite.value)
      then [FailureOf(v, suite.value)] else []
  }

  function Packages(events: seq<Event>): set<string> {
    set e | e in events :: e.pkg
  }

  /** Each package the events name fails, once. */
  function PackageFailures(v: Verdicts, booked: seq<Event>): seq<Event> {
    if booked == [] then [] else
      var before, pkg := booked[..|booked| - 1], booked[|booked| - 1].pkg;
      PackageFailures(v, before) + if pkg in Packages(before) then [] else [FailureOf(v, Case(pkg, ""))]
  }

  datatype Declared = Declared(tests: seq<Case>, fuzz: seq<Case>, benchmarks: seq<Case>)

  function UnitsBooked(v: Verdicts, kind: string, missing: seq<Case>): seq<Event> {
    BookMissing(kind, missing) + SuiteFailures(v, missing)
  }

  function MissingTests(v: Verdicts, d: Declared): seq<Case> { Missing(d.tests, TestsRan(v)) }
  function MissingFuzz(v: Verdicts, d: Declared): seq<Case> { Missing(d.fuzz, FuzzesRan(v)) }
  function MissingBench(v: Verdicts, d: Declared): seq<Case> { Missing(d.benchmarks, v.benched) }

  function Booked(v: Verdicts, d: Declared, bench: bool): seq<Event> {
    var units := if bench then UnitsBooked(v, "benchmark", MissingBench(v, d))
                 else UnitsBooked(v, "test", MissingTests(v, d)) + UnitsBooked(v, "fuzz target", MissingFuzz(v, d));
    units + PackageFailures(v, units)
  }

  predicate NothingMissing(v: Verdicts, d: Declared, bench: bool) {
    if bench then MissingBench(v, d) == [] else MissingTests(v, d) == [] && MissingFuzz(v, d) == []
  }

  // ---------------------------------------------------- flags and methods

  const TEST_FLAGS: seq<string> := ["-run", "-skip", "-list", "-test.run", "-test.skip", "-test.list"]
  const BENCH_FLAGS: seq<string> := ["-bench", "-test.bench"] + TEST_FLAGS

  predicate Selects(arg: string, flag: string) {
    arg == flag || HasPrefix(arg, flag + "=")
  }

  method HasSelectionFlag(args: seq<string>, flags: seq<string>) returns (has: bool)
    ensures has <==> exists a <- args, f <- flags :: Selects(a, f)
  {
    for i := 0 to |args|
      invariant forall j, f :: 0 <= j < i && f in flags ==> !Selects(args[j], f)
    {
      for k := 0 to |flags|
        invariant forall j :: 0 <= j < k ==> !Selects(args[i], flags[j])
      {
        if args[i] == flags[k] || HasPrefix(args[i], flags[k] + "=") {
          assert Selects(args[i], flags[k]) && args[i] in args && flags[k] in flags;
          return true;
        }
      }
    }
    return false;
  }

  method ExecutedTests(x: VerdictIndex) returns (out: seq<Case>)
    requires Indexed(x.State())
    ensures Range(out) == TestsRan(x.State())
  {
    out := [];
    for i := 0 to |x.order|
      invariant forall c :: c in out <==> c in x.order[..i] && TestRan(x.State(), c)
    {
      var k := x.order[i];
      assert x.order[..i + 1] == x.order[..i] + [k] && k in Range(x.order);
      if k.path == "" || HasPrefix(k.path, FUZZ) {
        continue;
      }
      if '/' in k.path || x.last[k].action.Skip? {
        out := out + [k];
      }
    }
    assert x.order[..|x.order|] == x.order;
    assert forall c :: c in x.last <==> c in Range(x.order);
  }

  method ExecutedFuzz(x: VerdictIndex) returns (out: seq<Case>)
    requires Indexed(x.State())
    ensures Range(out) == FuzzesRan(x.State())
  {
    out := [];
    for i := 0 to |x.order|
      invariant forall c :: c in out <==> c in x.order[..i] && FuzzRan(x.State(), c)
    {
      var k := x.order[i];
      assert x.order[..i + 1] == x.order[..i] + [k] && k in Range(x.order);
      if HasPrefix(k.path, FUZZ) && '/' !in k.path {
        out := out + [k];
      }
    }
    assert x.order[..|x.order|] == x.order;
    assert forall c :: c in x.last <==> c in Range(x.order);
  }

  method MissingUnits(declared: seq<Case>, executed: seq<Case>) returns (missing: seq<Case>)
    ensures missing == Missing(declared, Range(executed))
  {
    var ran := Range(executed);
    missing := [];
    for i := 0 to |declared|
      invariant missing == Missing(declared[..i], ran)
    {
      var d := declared[i];
      assert declared[..i + 1][..i] == declared[..i];
      if d in ran {
        continue;
      }
      if '/' in d.path && Case(d.pkg, Suite(d.path)) in ran {
        continue;
      }
      missing := missing + [d];
    }
    assert declared[..|declared|] == declared;
  }

  method BookSuites(x: VerdictIndex, units: seq<Case>) returns (fail: seq<Event>)
    ensures fail == SuiteFailures(x.State(), units)
  {
    hide SuiteOf, SuitesOf, FailureOf;
    var seen: set<Case> := {};
    fail := [];
    NoSuites();
    for i := 0 to |units|
      invariant fail == SuiteFailures(x.State(), units[..i]) && seen == SuitesOf(units[..i])
    {
      assert units[..i + 1][..i] == units[..i] && units[..i + 1] == units[..i] + [units[i]];
      var suite := SuiteOf(units[i]);
      SuitesOfMore(units[..i], units[i]);
      if suite.None? || suite.value in seen {
        continue;
      }
      seen := seen + {suite.value};
      if suite.value in x.last || suite.value in x.running {
        fail := fail + [FailureOf(x.State(), suite.value)];
      }
    }
    assert units[..|units|] == units;
  }

  lemma NoSuites()
    ensures SuitesOf([]) == {}
  {
  }

  lemma SuitesOfMore(units: seq<Case>, m: Case)
    ensures SuitesOf(units + [m]) == SuitesOf(units) + if SuiteOf(m).Some? then {SuiteOf(m).value} else {}
  {
    hide SuiteOf;
    var all := units + [m];
    assert forall u :: u in all <==> u in units || u == m;
  }

  method BookPackages(x: VerdictIndex, booked: seq<Event>) returns (fail: seq<Event>)
    ensures fail == PackageFailures(x.State(), booked)
  {
    hide Packages, FailureOf;
    var seen: set<string> := {};
    fail := [];
    NoPackages();
    for i := 0 to |booked|
      invariant fail == PackageFailures(x.State(), booked[..i]) && seen == Packages(booked[..i])
    {
      assert booked[..i + 1][..i] == booked[..i] && booked[..i + 1] == booked[..i] + [booked[i]];
      PackagesOfMore(booked[..i], booked[i]);
      var pkg := booked[i].pkg;
      if pkg in seen {
        continue;
      }
      seen := seen + {pkg};
      fail := fail + [FailureOf(x.State(), Case(pkg, ""))];
    }
    assert booked[..|booked|] == booked;
  }

  lemma NoPackages()
    ensures Packages([]) == {}
  {
  }

  lemma PackagesOfMore(events: seq<Event>, e: Event)
    ensures Packages(events + [e]) == Packages(events) + {e.pkg}
  {
    var all := events + [e];
    assert forall x :: x in all <==> x in events || x == e;
  }

  /** The part of the configuration the census looks at. */
  datatype Config = Config(batchText: bool, bench: bool, goTestArgs: seq<string>, groups: nat, skipGroups: nat)

  /** The census looks at every declared unit. */
  ghost predicate Holds(cfg: Config, code: int, failed: bool) {
    && !cfg.batchText && code == 0 && !failed && cfg.groups + cfg.skipGroups == 0
    && !exists a <- cfg.goTestArgs, f <- (if cfg.bench then BENCH_FLAGS else TEST_FLAGS) :: Selects(a, f)
  }

  /** takeCensus: a green run over all units stays green exactly when none is missing. */
  method TakeCensus(x: VerdictIndex, cfg: Config, declared: Declared, code: int, failed: bool)
    returns (exit: int, booked: seq<Event>)
    requires Indexed(x.State())
    ensures !Holds(cfg, code, failed) ==> exit == code && booked == []
    ensures Holds(cfg, code, failed) ==>
      && exit == (if NothingMissing(x.State(), declared, cfg.bench) then 0 else 2)
      && booked == Booked(x.State(), declared, cfg.bench)
  {
    hide Selects, Missing, UnitsBooked, BookMissing, SuiteFailures, PackageFailures, GroupsBooked, AnyMissing,
         Indexed, TestsRan, FuzzesRan;
    exit, booked := code, [];
    if cfg.batchText || code != 0 || failed {
      return;
    }
    var selected := HasSelectionFlag(cfg.goTestArgs, if cfg.bench then BENCH_FLAGS else TEST_FLAGS);
    if selected || cfg.groups + cfg.skipGroups > 0 {
      return;
    }
    var groups := Groups(x, cfg.bench, declared);
    exit, booked := BookGroups(x, groups);
    GroupsAre(x.State(), declared, cfg.bench, groups);
    var packages := BookPackages(x, booked);
    booked := booked + packages;
  }

  type Group = (string, seq<Case>, seq<Case>)

  /** The kinds of units with what is declared and what ran. */
  method Groups(x: VerdictIndex, bench: bool, d: Declared) returns (groups: seq<Group>)
    requires Indexed(x.State())
    ensures AreGroups(x.State(), d, bench, groups)
  {
    if bench {
      groups := [("benchmark", d.benchmarks, x.benchOrder)];
    } else {
      var tests := ExecutedTests(x);
      var fuzz := ExecutedFuzz(x);
      groups := [("test", d.tests, tests), ("fuzz target", d.fuzz, fuzz)];
    }
  }

  ghost predicate AreGroups(v: Verdicts, d: Declared, bench: bool, groups: seq<Group>) {
    if bench then
      |groups| == 1 && groups[0].0 == "benchmark" && groups[0].1 == d.benchmarks && Range(groups[0].2) == v.benched
    else
      && |groups| == 2
      && groups[0].0 == "test" && groups[0].1 == d.tests && Range(groups[0].2) == TestsRan(v)
      && groups[1].0 == "fuzz target" && groups[1].1 == d.fuzz && Range(groups[1].2) == FuzzesRan(v)
  }

  method BookGroups(x: VerdictIndex, groups: seq<Group>) returns (exit: int, booked: seq<Event>)
    ensures booked == GroupsBooked(x.State(), groups)
    ensures exit == if AnyMissing(groups) then 2 else 0
  {
    hide Missing, UnitsBooked, BookMissing, SuiteFailures, GroupsBooked, AnyMissing;
    exit, booked := 0, [];
    NoGroups(x.State());
    for i := 0 to |groups|
      invariant booked == GroupsBooked(x.State(), groups[..i])
      invariant exit == if AnyMissing(groups[..i]) then 2 else 0
    {
      assert groups[..i + 1] == groups[..i] + [groups[i]];
      var (kind, units, executed) := groups[i];
      var missing := MissingUnits(units, executed);
      OneMoreGroup(x.State(), groups[..i], groups[i]);
      if |missing| == 0 {
        continue;
      }
      var events := BookUnits(kind, missing);
      var suites := BookSuites(x, missing);
      booked := booked + events + suites;
      exit := 2;
    }
    assert groups[..|groups|] == groups;
  }

  lemma NoGroups(v: Verdicts)
    ensures GroupsBooked(v, []) == [] && !AnyMissing([])
  {
  }

  lemma OneMoreGroup(v: Verdicts, groups: seq<Group>, g: Group)
    ensures var missing := Missing(g.1, Range(g.2));
      && (AnyMissing(groups + [g]) <==> AnyMissing(groups) || missing != [])
      && (missing == [] ==> GroupsBooked(v, groups + [g]) == GroupsBooked(v, groups))
      && GroupsBooked(v, groups + [g])
         == GroupsBooked(v, groups) + BookMissing(g.0, missing) + SuiteFailures(v, missing)
  {
    hide AnyMissing, Missing;
    OneGroupMissing(groups, g);
    BooksNothing(v, g.0);
    hide BookMissing, SuiteFailures;
    var all := groups + [g];
    assert all[..|all| - 1] == groups && all[|all| - 1] == g;
  }

  lemma OneGroupMissing(groups: seq<Group>, g: Group)
    ensures AnyMissing(groups + [g]) <==> AnyMissing(groups) || Missing(g.1, Range(g.2)) != []
  {
    hide Missing, Range;
    var all := groups + [g];
    if AnyMissing(groups) {
      var x :| x in groups && Missing(x.1, Range(x.2)) != [];
      assert x in all;
    }
    assert g in all;
    if AnyMissing(all) {
      var x :| x in all && Missing(x.1, Range(x.2)) != [];
      assert x in groups || x == g;
    }
  }

  lemma BooksNothing(v: Verdicts, kind: string)
    ensures BookMissing(kind, []) == [] && SuiteFailures(v, []) == []
  {
  }

  method BookUnits(kind: string, missing: seq<Case>) returns (events: seq<Event>)
    ensures events == BookMissing(kind, missing)
  {
    events := [];
    for i := 0 to |missing|
      invariant events == BookMissing(kind, missing[..i])
    {
      assert missing[..i + 1][..i] == missing[..i];
      var m := missing[i];
      events := events + [
        Event("", Started, m.pkg, m.path, "", 0.0),
        Event("", Output, m.pkg, m.path, "    census: declared " + kind + " never ran\n", 0.0),
        Event("", Fail, m.pkg, m.path, "", 0.0)];
    }
    assert missing[..|missing|] == missing;
  }

  ghost function GroupsBooked(v: Verdicts, groups: seq<Group>): seq<Event> {
    if groups == [] then [] else
      var g := groups[|groups| - 1];
      GroupsBooked(v, groups[..|groups| - 1]) + UnitsBooked(v, g.0, Missing(g.1, Range(g.2)))
  }

  ghost predicate AnyMissing(groups: seq<Group>) {
    exists g <- groups :: Missing(g.1, Range(g.2)) != []
  }

  lemma GroupsAre(v: Verdicts, d: Declared, bench: bool, groups: seq<Group>)
    requires AreGroups(v, d, bench, groups)
    ensures AnyMissing(groups) <==> !NothingMissing(v, d, bench)
    ensures Booked(v, d, bench) == GroupsBooked(v, groups) + PackageFailures(v, GroupsBooked(v, groups))
  {
    hide Missing, UnitsBooked, PackageFailures;
    assert groups[0] in groups && groups[|groups| - 1] in groups;
    assert GroupsBooked(v, groups[..0]) == [];
    if bench {
      assert groups[..|groups| - 1] == groups[..0];
      assert GroupsBooked(v, groups) == UnitsBooked(v, "benchmark", MissingBench(v, d));
    } else {
      assert groups[..1][..0] == groups[..0];
      assert GroupsBooked(v, groups[..1]) == UnitsBooked(v, "test", MissingTests(v, d));
    }
  }

  // ------------------------------------------------- folding the booked back

  function Items(events: seq<Event>): (items: seq<Item>)
    ensures |items| == |events|
  {
    seq(|events|, i requires 0 <= i < |events| => Saw(events[i]))
  }

  /** Declared units are named as CensusCase promises. */
  predicate WellNamed(d: Declared) {
    && (forall c <- d.tests :: Slashes(c.path) == 1 && !HasPrefix(c.path, FUZZ))
    && (forall c <- d.fuzz :: Slashes(c.path) == 0 && HasPrefix(c.path, FUZZ))
    && (forall c <- d.benchmarks :: Slashes(c.path) == 1 && HasPrefix(c.path, BENCHMARK))
  }

  /** No verdict but failures, and none too deep to be indexed. */
  predicate Failures(events: seq<Event>) {
    forall e <- events :: Slashes(e.test) <= 1 && (IsVerdict(e.action) ==> e.action.Fail?)
  }

  predicate Fails(events: seq<Event>, k: Case) {
    exists e <- events :: e.action.Fail? && e.Key() == k
  }

  lemma {:induction false} FailuresAreLast(events: seq<Event>, k: Case)
    requires Failures(events)
    ensures match LastVerdict(Items(events), k)
            case Some(ev) =>
              Fails(events, k) && exists e <- events :: e.action.Fail? && e.Key() == k && ev == e.(output := "")
            case None => !Fails(events, k)
  {
    if events != [] {
      var before, e := events[..|events| - 1], events[|events| - 1];
      assert events == before + [e] && Items(events)[..|events| - 1] == Items(before);
      FailuresAreLast(before, k);
      hide Slashes, Items, LastVerdict;
      assert e in events && forall x <- before :: x in events;
      LastStep(events, k);
    }
  }

  lemma LastStep(events: seq<Event>, k: Case)
    requires events != []
    ensures var e, before := events[|events| - 1], events[..|events| - 1];
      LastVerdict(Items(events), k) ==
        if Judges(Saw(e), k) then Some(e.(output := "")) else LastVerdict(Items(before), k)
  {
    assert Items(events)[..|events| - 1] == Items(events[..|events| - 1]);
  }

  /** Folded into the index, failures become the last verdicts and change no other. */
  lemma FoldedIn(v: Verdicts, events: seq<Event>, k: Case)
    requires Indexed(v) && Failures(events)
    ensures var w := After(v, Items(events));
      && Indexed(w)
      && (Fails(events, k) ==> k in w.last && w.last[k].action.Fail?)
      && (Fails(events, k) ==> exists e <- events :: e.action.Fail? && e.Key() == k && w.last[k] == e.(output := ""))
      && (!Fails(events, k) ==> (k in w.last <==> k in v.last) && (k in v.last ==> w.last[k] == v.last[k]))
  {
    IndexIsLastVerdict(v, Items(events), k);
    FailuresAreLast(events, k);
    hide Indexed, After, Items, Failures, LastVerdict;
  }

  // what is booked

  function PackagesOf(units: seq<Case>): set<string> {
    set m | m in units :: m.pkg
  }

  /** Whatever fails without being a missing unit keeps its time and duration. */
  ghost predicate KeepsTimes(v: Verdicts, events: seq<Event>, missing: seq<Case>) {
    forall e: Event :: e in events && e.action.Fail? && e.Key() !in missing ==> e == FailureOf(v, e.Key())
  }

  lemma {:induction false} UnitsBookedIs(kind: string, missing: seq<Case>)
    requires forall m <- missing :: Slashes(m.path) <= 1
    ensures Failures(BookMissing(kind, missing)) && forall e <- BookMissing(kind, missing) :: e.Key() in missing
    ensures forall k :: Fails(BookMissing(kind, missing), k) <==> k in missing
    ensures Packages(BookMissing(kind, missing)) == PackagesOf(missing)
  {
    if missing != [] {
      var before, m := missing[..|missing| - 1], missing[|missing| - 1];
      assert missing == before + [m];
      UnitsBookedIs(kind, before);
      var was, now := BookMissing(kind, before), BookMissing(kind, missing);
      var a, b, c := now[|was|], now[|was| + 1], now[|was| + 2];
      assert now == was + [a, b, c];
      OneUnitBooked(was, now, a, b, c);
      hide BookMissing, Slashes, Fails, Packages, Failures;
      assert PackagesOf(missing) == PackagesOf(before) + {m.pkg};
    }
  }

  lemma OneUnitBooked(was: seq<Event>, now: seq<Event>, a: Event, b: Event, c: Event)
    requires now == was + [a, b, c] && a.Key() == b.Key() == c.Key()
    requires a.action.Started? && b.action.Output? && c.action.Fail?
    ensures Failures(now) <==> Failures(was) && Slashes(c.test) <= 1
    ensures forall k :: Fails(now, k) <==> Fails(was, k) || k == c.Key()
    ensures Packages(now) == Packages(was) + {c.pkg}
    ensures forall e <- now :: e in was || e.Key() == c.Key()
  {
    hide Slashes;
    assert forall e :: e in now <==> e in was || e == a || e == b || e == c;
    assert c in now;
  }

  lemma {:induction false} SuiteFailuresAre(v: Verdicts, units: seq<Case>)
    ensures forall e <- SuiteFailures(v, units) ::
      e == FailureOf(v, e.Key()) && e.Key() in SuitesOf(units) && Known(v, e.Key())
    ensures forall s <- SuitesOf(units) :: Known(v, s) ==> FailureOf(v, s) in SuiteFailures(v, units)
  {
    if units == [] {
      NoSuites();
    } else {
      var before, m := units[..|units| - 1], units[|units| - 1];
      assert units == before + [m];
      SuiteFailuresAre(v, before);
      SuitesOfMore(before, m);
      hide SuiteOf, SuitesOf;
    }
  }

  lemma {:induction false} PackageFailuresAre(v: Verdicts, booked: seq<Event>)
    ensures forall e <- PackageFailures(v, booked) :: e == FailureOf(v, Case(e.pkg, "")) && e.pkg in Packages(booked)
    ensures forall p <- Packages(booked) :: FailureOf(v, Case(p, "")) in PackageFailures(v, booked)
  {
    if booked == [] {
      NoPackages();
    } else {
      var before, e := booked[..|booked| - 1], booked[|booked| - 1];
      assert booked == before + [e];
      PackageFailuresAre(v, before);
      PackagesOfMore(before, e);
      hide Packages;
    }
  }

  lemma SuitesHaveNoSlash(units: seq<Case>, s: Case)
    requires s in SuitesOf(units)
    ensures Slashes(s.path) == 0
  {
    NoSlash(s.path);
  }

  /** What a group books: failures of the missing units and of their known suites. */
  lemma GroupIs(v: Verdicts, kind: string, missing: seq<Case>)
    requires forall m <- missing :: Slashes(m.path) <= 1
    ensures var es := UnitsBooked(v, kind, missing);
      && Failures(es) && Packages(es) == PackagesOf(missing) && KeepsTimes(v, es, missing)
      && (forall k :: Fails(es, k) <==> k in missing || (k in SuitesOf(missing) && Known(v, k)))
  {
    hide BookMissing, SuiteFailures, SuitesOf, Slashes, PackagesOf, FailureOf, Known;
    UnitsBookedIs(kind, missing);
    SuitesFail(v, missing);
    var a, b := BookMissing(kind, missing), SuiteFailures(v, missing);
    assert forall e :: e in a + b <==> e in a || e in b;
    BothFail(a, b);
    PackagesOfBoth(a, b);
  }

  lemma SuitesFail(v: Verdicts, units: seq<Case>)
    ensures var es := SuiteFailures(v, units);
      && Failures(es) && (forall e <- es :: e == FailureOf(v, e.Key()) && e.pkg in PackagesOf(units))
      && (forall k :: Fails(es, k) <==> k in SuitesOf(units) && Known(v, k))
  {
    hide SuiteFailures, SuitesOf, Slashes, PackagesOf, Known;
    SuiteFailuresAre(v, units);
    forall s | s in SuitesOf(units) ensures Slashes(s.path) == 0 && s.pkg in PackagesOf(units) {
      SuitesHaveNoSlash(units, s);
      SuitesShareTheirPackage(units, s);
    }
  }

  lemma SuitesShareTheirPackage(units: seq<Case>, s: Case)
    requires s in SuitesOf(units)
    ensures s.pkg in PackagesOf(units)
  {
    var m :| m in units && SuiteOf(m) == Some(s);
  }

  lemma PackagesOfBoth(a: seq<Event>, b: seq<Event>)
    ensures Packages(a + b) == Packages(a) + Packages(b)
    ensures (forall e <- b :: e.pkg in Packages(a)) ==> Packages(a + b) == Packages(a)
  {
    assert forall e :: e in a + b <==> e in a || e in b;
  }

  lemma BothFail(a: seq<Event>, b: seq<Event>)
    ensures forall k :: Fails(a + b, k) <==> Fails(a, k) || Fails(b, k)
    ensures Failures(a) && Failures(b) ==> Failures(a + b)
  {
    hide Slashes;
    assert forall e :: e in a + b <==> e in a || e in b;
  }

  function AllMissing(v: Verdicts, d: Declared, bench: bool): seq<Case> {
    if bench then MissingBench(v, d) else MissingTests(v, d) + MissingFuzz(v, d)
  }

  /** What the census books: failures of the missing units, of their known suites and
      of their packages. */
  lemma BookedIs(v: Verdicts, d: Declared, bench: bool)
    requires WellNamed(d)
    ensures var es, ms := Booked(v, d, bench), AllMissing(v, d, bench);
      && Failures(es) && KeepsTimes(v, es, ms)
      && forall k :: Fails(es, k) <==>
           k in ms || (k in SuitesOf(ms) && Known(v, k)) || (k.path == "" && k.pkg in PackagesOf(ms))
  {
    hide UnitsBooked, PackageFailures, SuitesOf, PackagesOf, MissingBench, MissingTests, MissingFuzz, Packages;
    var units := if bench then UnitsBooked(v, "benchmark", MissingBench(v, d))
                 else UnitsBooked(v, "test", MissingTests(v, d)) + UnitsBooked(v, "fuzz target", MissingFuzz(v, d));
    UnitsAre(v, d, bench, units);
    PackageFailuresAre(v, units);
    var packages := PackageFailures(v, units);
    BothFail(units, packages);
    assert forall e :: e in units + packages <==> e in units || e in packages;
    forall k: Case | k.path == "" && k.pkg in Packages(units) ensures Fails(packages, k) {
      assert FailureOf(v, Case(k.pkg, "")) in packages;
    }
  }

  lemma UnitsAre(v: Verdicts, d: Declared, bench: bool, units: seq<Event>)
    requires WellNamed(d)
    requires units == if bench then UnitsBooked(v, "benchmark", MissingBench(v, d))
                      else UnitsBooked(v, "test", MissingTests(v, d)) + UnitsBooked(v, "fuzz target", MissingFuzz(v, d))
    ensures var ms := AllMissing(v, d, bench);
      && Failures(units) && KeepsTimes(v, units, ms) && Packages(units) == PackagesOf(ms)
      && forall k :: Fails(units, k) <==> k in ms || (k in SuitesOf(ms) && Known(v, k))
  {
    hide UnitsBooked, Slashes, SuiteOf, Failures, Packages, HasPrefix, Covered, TestsRan, FuzzesRan;
    GroupIs(v, "benchmark", MissingBench(v, d));
    GroupIs(v, "test", MissingTests(v, d));
    GroupIs(v, "fuzz target", MissingFuzz(v, d));
    if !bench {
      var ts, fs := MissingTests(v, d), MissingFuzz(v, d);
      var a, b := UnitsBooked(v, "test", ts), UnitsBooked(v, "fuzz target", fs);
      BothFail(a, b);
      PackagesOfBoth(a, b);
      assert forall m :: m in ts + fs <==> m in ts || m in fs;
      assert SuitesOf(ts + fs) == SuitesOf(ts) + SuitesOf(fs);
      assert PackagesOf(ts + fs) == PackagesOf(ts) + PackagesOf(fs);
      assert forall e :: e in a + b <==> e in a || e in b;
      GroupsKeepTimes(v, a, b, ts, fs);
    }
  }

  lemma GroupsKeepTimes(v: Verdicts, a: seq<Event>, b: seq<Event>, ts: seq<Case>, fs: seq<Case>)
    requires KeepsTimes(v, a, ts) && KeepsTimes(v, b, fs)
    ensures KeepsTimes(v, a + b, ts + fs)
  {
  }

  /** A suite's name is no declared unit's: it has no slash and is no fuzz wrapper. */
  lemma SuiteIsNoUnit(v: Verdicts, d: Declared, bench: bool, m: Case)
    requires WellNamed(d) && m in AllMissing(v, d, bench) && SuiteOf(m).Some?
    ensures SuiteOf(m).value !in AllMissing(v, d, bench)
  {
    var s := SuiteOf(m).value;
    NoSlash(s.path);
    NoSlash(m.path);
    assert !HasPrefix(s.path, FUZZ) by {
      if '/' in m.path {
        assert s.path <= m.path;
      } else {
        assert s.path[0] == 'T';
      }
    }
    hide SuiteOf;
  }

  /** Folding what the census books back into the index makes fail the last verdict
      of each missing unit, of its suite, if the stream started or settled it, and of
      its package; the last two keep their time and duration. */
  lemma BookedFails(v: Verdicts, d: Declared, bench: bool, m: Case)
    requires Indexed(v) && WellNamed(d) && m in AllMissing(v, d, bench)
    ensures var w := After(v, Items(Booked(v, d, bench)));
      && Indexed(w) && m in w.last && w.last[m].action.Fail?
      && Case(m.pkg, "") in w.last && w.last[Case(m.pkg, "")] == FailureOf(v, Case(m.pkg, ""))
      && (SuiteOf(m).Some? && Known(v, SuiteOf(m).value) ==>
            SuiteOf(m).value in w.last && w.last[SuiteOf(m).value] == FailureOf(v, SuiteOf(m).value))
  {
    var es, ms := Booked(v, d, bench), AllMissing(v, d, bench);
    BookedIs(v, d, bench);
    FoldedIn(v, es, m);
    var pkg := Case(m.pkg, "");
    assert pkg !in ms;
    assert m.pkg in PackagesOf(ms);
    FoldedIn(v, es, pkg);
    if SuiteOf(m).Some? {
      SuiteIsNoUnit(v, d, bench, m);
      assert SuiteOf(m).value in SuitesOf(ms);
      FoldedIn(v, es, SuiteOf(m).value);
    }
    hide Booked, AllMissing, Failures, After, SuiteOf, Indexed, Items;
  }

  /** A test that only its suite's skip covers, while a fuzz target of that suite is
      missing: booking the target fails the suite, which then covers nothing. */
  ghost predicate Uncovered(v: Verdicts, d: Declared, c: Case) {
    && c in d.tests && c !in TestsRan(v) && Case(c.pkg, Suite(c.path)) in TestsRan(v)
    && exists m <- MissingFuzz(v, d) :: SuiteOf(m) == Some(Case(c.pkg, Suite(c.path)))
  }

  lemma SuiteOfTest(c: Case)
    requires Slashes(c.path) == 1
    ensures '/' in c.path && SuiteOf(c) == Some(Case(c.pkg, Suite(c.path))) && '/' !in Suite(c.path)
  {
    NoSlash(c.path);
  }

  /** A test's coverage: its own verdict, or its suite's skip. */
  lemma TestCoverage(v: Verdicts, c: Case)
    requires Slashes(c.path) == 1 && !HasPrefix(c.path, FUZZ)
    ensures var s := Case(c.pkg, Suite(c.path));
      && (c in TestsRan(v) <==> c in v.last)
      && (s in TestsRan(v) <==> s in v.last && v.last[s].action.Skip? && s.path != "")
      && (Covered(c, TestsRan(v)) <==> c in TestsRan(v) || s in TestsRan(v))
  {
    SuiteOfTest(c);
    assert Suite(c.path) <= c.path;
    TestsRanIs(v, c);
    TestsRanIs(v, Case(c.pkg, Suite(c.path)));
    hide TestsRan, Slashes, SuiteOf, Suite;
  }

  /** After the fold, a test is covered unless it hung on a suite that now fails. */
  lemma TestAfter(v: Verdicts, d: Declared, c: Case)
    requires Indexed(v) && WellNamed(d) && c in d.tests
    ensures var w := After(v, Items(Booked(v, d, false)));
      Covered(c, TestsRan(w)) <==> !Uncovered(v, d, c)
  {
    hide Booked, Failures, After, SuiteOf, Indexed, Items, Slashes, TestsRan, Covered, MissingFuzz, Missing, Fails,
         HasPrefix;
    var es := Booked(v, d, false);
    var w := After(v, Items(es));
    var s := Case(c.pkg, Suite(c.path));
    TestCoverage(v, c);
    TestCoverage(w, c);
    BookedIs(v, d, false);
    FoldedIn(v, es, c);
    FoldedIn(v, es, s);
    OwnFailsIff(v, d, c);
    if s in TestsRan(v) {
      SuiteFailsIff(v, d, c);
    }
  }

  lemma OwnFailsIff(v: Verdicts, d: Declared, c: Case)
    requires WellNamed(d) && c in d.tests
    ensures Fails(Booked(v, d, false), c) <==> !Covered(c, TestsRan(v))
  {
    var ms := AllMissing(v, d, false);
    BookedIs(v, d, false);
    SuiteOfTest(c);
    hide Booked, Failures, TestsRan, FuzzesRan, Covered, SuiteOf;
    if c in SuitesOf(ms) {
      SuitesHaveNoSlash(ms, c);
    }
    assert c in ms <==> c in MissingTests(v, d);
  }

  lemma TestsRanIs(v: Verdicts, c: Case)
    ensures c in TestsRan(v) <==> TestRan(v, c)
  {
  }

  /** Of a test that its suite's skip covers, the suite fails exactly for a missing fuzz
      target of it. */
  lemma SuiteFailsIff(v: Verdicts, d: Declared, c: Case)
    requires Indexed(v) && WellNamed(d) && c in d.tests && Case(c.pkg, Suite(c.path)) in TestsRan(v)
    ensures Fails(Booked(v, d, false), Case(c.pkg, Suite(c.path))) <==>
      exists m <- MissingFuzz(v, d) :: SuiteOf(m) == Some(Case(c.pkg, Suite(c.path)))
  {
    var s, ms := Case(c.pkg, Suite(c.path)), AllMissing(v, d, false);
    BookedIs(v, d, false);
    SuiteOfTest(c);
    assert s in v.last && s.path != "" && !HasPrefix(s.path, FUZZ);
    NoSlash(s.path);
    assert s !in ms;
    forall m | m in MissingTests(v, d) ensures SuiteOf(m) != Some(s) {
      SuiteOfTest(m);
    }
    hide Booked, Failures, SuiteOf, Indexed, Slashes, TestsRan, MissingFuzz, MissingTests;
    assert s in SuitesOf(ms) <==> exists m <- ms :: SuiteOf(m) == Some(s);
  }

  lemma FuzzAfter(v: Verdicts, d: Declared, c: Case)
    requires Indexed(v) && WellNamed(d) && c in d.fuzz
    ensures c in FuzzesRan(After(v, Items(Booked(v, d, false))))
  {
    var es := Booked(v, d, false);
    NoSlash(c.path);
    BookedIs(v, d, false);
    FoldedIn(v, es, c);
    assert !Covered(c, FuzzesRan(v)) ==> c in MissingFuzz(v, d);
    hide Booked, Failures, After, Indexed, Items, Slashes;
  }

  /** Folding what the census books back in leaves nothing missing exactly when no
      declared test hung on the skip of a suite with a missing fuzz target. */
  lemma NothingMissingAfter(v: Verdicts, d: Declared)
    requires Indexed(v) && WellNamed(d)
    ensures NothingMissing(After(v, Items(Booked(v, d, false))), d, false) <==> !exists c :: Uncovered(v, d, c)
  {
    var w := After(v, Items(Booked(v, d, false)));
    hide Booked, After, Items, Uncovered, TestsRan, FuzzesRan;
    forall c | c in d.tests ensures Covered(c, TestsRan(w)) <==> !Uncovered(v, d, c) {
      TestAfter(v, d, c);
    }
    forall c | c in d.fuzz ensures c in FuzzesRan(w) {
      FuzzAfter(v, d, c);
    }
    forall c | Uncovered(v, d, c) ensures c in d.tests {
      UncoveredIsDeclared(v, d, c);
    }
    EmptyIff(MissingFuzz(w, d));
    EmptyIff(MissingTests(w, d));
  }

  lemma EmptyIff(cases: seq<Case>)
    ensures cases == [] <==> forall c :: c !in cases
  {
    if cases != [] {
      assert cases[0] in cases;
    }
  }

  lemma UncoveredIsDeclared(v: Verdicts, d: Declared, c: Case)
    requires Uncovered(v, d, c)
    ensures c in d.tests
  {
  }

  lemma {:induction false} SlashesOfBoth(a: string, b: string)
    ensures Slashes(a + b) == Slashes(a) + Slashes(b)
  {
    if a == "" {
      assert a + b == b;
    } else {
      assert (a + b)[1..] == a[1..] + b;
      SlashesOfBoth(a[1..], b);
    }
  }

  lemma {:induction false} SuiteBefore(a: string, b: string)
    requires '/' !in a
    ensures Suite(a + "/" + b) == a
  {
    if a != "" {
      assert (a + "/" + b)[1..] == a[1..] + "/" + b;
      assert a[0] in a && forall c <- a[1..] :: c in a;
      SuiteBefore(a[1..], b);
    }
  }

  lemma {:induction false} NoTestSuiteThere(name: string, lo: nat, hi: nat)
    requires lo <= hi <= |name| && forall j :: lo <= j < hi ==> name[j] != 'T'
    ensures WrapperSuite(name, hi) == WrapperSuite(name, lo)
    decreases hi
  {
    hide IsWord;
    if lo < hi {
      assert !HasPrefix(name[hi - 1..], TEST_SUITE) by {
        assert name[hi - 1..][0] != TEST_SUITE[0];
      }
      hide HasPrefix;
      NoTestSuiteThere(name, lo, hi - 1);
    }
  }

  /** A suite skipped as a whole covers its test; its fuzz target, which never ran, is
      booked and fails the suite, and then the test is missing. */
  lemma SkippedSuiteUncovers(skip: Event, test: Case, target: Case)
    requires skip.action.Skip? && skip.output == "" && skip.test != "" && Slashes(skip.test) == 0
    requires Slashes(test.path) == 1 && !HasPrefix(test.path, FUZZ) && Case(test.pkg, Suite(test.path)) == skip.Key()
    requires Slashes(target.path) == 0 && HasPrefix(target.path, FUZZ) && SuiteOf(target) == Some(skip.Key())
    ensures var v, d := Observed(EMPTY, skip), Declared([test], [target], []);
      && Indexed(v) && WellNamed(d) && MissingTests(v, d) == []
      && !NothingMissing(After(v, Items(Booked(v, d, false))), d, false)
  {
    NoSlash(target.path);
    SkipIs(skip);
    hide Observed, Slashes, Suite, SuiteOf, TestsRan, Booked, After, Items, HasPrefix, FuzzesRan, Indexed, Covered,
      NothingMissing, Uncovered, MissingTests;
    var v := Observed(EMPTY, skip);
    TestCoverage(v, test);
    FuzzesRanIs(v, target);
    OnlyBySuite(v, test, target);
    NothingMissingAfter(v, Declared([test], [target], []));
  }

  lemma OnlyBySuite(v: Verdicts, test: Case, target: Case)
    requires test !in TestsRan(v) && Case(test.pkg, Suite(test.path)) in TestsRan(v) && Covered(test, TestsRan(v))
    requires !Covered(target, FuzzesRan(v)) && SuiteOf(target) == Some(Case(test.pkg, Suite(test.path)))
    ensures var d := Declared([test], [target], []); MissingTests(v, d) == [] && Uncovered(v, d, test)
  {
    hide TestsRan, FuzzesRan, Covered, Suite, SuiteOf, Missing;
    var d := Declared([test], [target], []);
    EmptyIff(MissingTests(v, d));
    assert target in MissingFuzz(v, d);
  }

  lemma UnitNames(suite: string, name: string, fuzz: string)
    requires '/' !in suite && '/' !in name && '/' !in fuzz
    ensures Slashes(suite + "/" + name) == 1 && Suite(suite + "/" + name) == suite && Slashes(fuzz) == 0
  {
    NoSlash(suite);
    NoSlash(fuzz);
    NoSlash(name);
    SlashesOfBoth(suite + "/", name);
    SlashesOfBoth(suite, "/");
    SuiteBefore(suite, name);
  }

  lemma FuzzesRanIs(v: Verdicts, c: Case)
    ensures c in FuzzesRan(v) <==> FuzzRan(v, c)
    ensures '/' !in c.path ==> (Covered(c, FuzzesRan(v)) <==> FuzzRan(v, c))
  {
  }

  lemma SkippedSuiteIsUncovered()
    ensures var v := Observed(EMPTY, Event("", Skip, "p", "TestATestSuite", "", 0.0));
      var d := Declared([Case("p", "TestATestSuite/M")], [Case("p", "FuzzATestSuite_F")], []);
      && MissingTests(v, d) == []
      && !NothingMissing(After(v, Items(Booked(v, d, false))), d, false)
  {
    hide Observed, SuiteOf, NothingMissing, MissingTests, After, Booked, Indexed, WellNamed, Slashes, Suite, HasPrefix;
    FuzzSuiteIs();
    ConcreteNames();
    SkippedSuiteUncovers(Event("", Skip, "p", "TestATestSuite", "", 0.0), Case("p", "TestATestSuite/M"),
      Case("p", "FuzzATestSuite_F"));
  }

  lemma ConcreteNames()
    ensures Slashes("TestATestSuite") == 0
    ensures Slashes("TestATestSuite/M") == 1 && Suite("TestATestSuite/M") == "TestATestSuite"
      && !HasPrefix("TestATestSuite/M", FUZZ)
    ensures Slashes("FuzzATestSuite_F") == 0 && HasPrefix("FuzzATestSuite_F", FUZZ)
  {
    hide Slashes, Suite;
    assert "TestATestSuite" + "/" + "M" == "TestATestSuite/M";
    assert "TestATestSuite/M"[0] != FUZZ[0] && "FuzzATestSuite_F"[..4] == FUZZ;
    NoSlash("TestATestSuite");
    UnitNames("TestATestSuite", "M", "FuzzATestSuite_F");
  }

  lemma SkipIs(skip: Event)
    requires skip.action.Skip? && Slashes(skip.test) == 0 && skip.output == ""
    ensures var v := Observed(EMPTY, skip); v.last == map[skip.Key() := skip] && Indexed(v)
  {
    NotedIs(EMPTY, skip, skip.Key());
  }

  lemma FuzzSuiteIs()
    ensures SuiteOf(Case("p", "FuzzATestSuite_F")) == Some(Case("p", "TestATestSuite"))
  {
    var name := "FuzzATestSuite_F";
    FuzzWrapperIs(name);
    hide WrapperSuite;
    assert "Test" + "ATestSuite" == "TestATestSuite";
    assert '/' !in name;
  }

  lemma FuzzWrapperIs(name: string)
    requires name == "FuzzATestSuite_F"
    ensures WrapperSuite(name, |name|) == Some("ATestSuite")
  {
    assert |name| == 16;
    NoTestSuiteThere(name, 6, 16);
    TestSuiteThere(name);
    hide WrapperSuite;
  }

  lemma TestSuiteThere(name: string)
    requires name == "FuzzATestSuite_F"
    ensures WrapperSuite(name, 6) == Some("ATestSuite")
  {
    assert name[5..] == TEST_SUITE + "F";
    assert name[4..5] == "A" && "A" + "TestSuite" == "ATestSuite";
  }

  lemma CreditsAfter(v: Verdicts, d: Declared, c: Case)
    requires Indexed(v) && WellNamed(d) && c in d.benchmarks
    ensures c in After(v, Items(Booked(v, d, true))).benched
  {
    hide Booked, After, Indexed, Slashes, HasPrefix, Failures, KeepsTimes, PackagesOf, SuitesOf, Items, MissingBench;
    var es := Booked(v, d, true);
    IndexIsLastVerdict(v, Items(es), c);
    BookedIs(v, d, true);
    if c !in v.benched {
      NotBenched(v, d, c);
      CreditedByFail(es, c);
    }
  }

  lemma NotBenched(v: Verdicts, d: Declared, c: Case)
    requires Indexed(v) && c in d.benchmarks && c !in v.benched
    ensures c in MissingBench(v, d)
  {
    assert '/' !in Suite(c.path);
  }

  lemma CreditedByFail(es: seq<Event>, c: Case)
    requires Fails(es, c) && Slashes(c.path) == 1 && HasPrefix(c.path, BENCHMARK)
    ensures exists item <- Items(es) :: Credits(item, c)
  {
    hide Slashes, HasPrefix;
    var i :| 0 <= i < |es| && es[i].action.Fail? && es[i].Key() == c;
    assert Items(es)[i] == Saw(es[i]) && Items(es)[i] in Items(es);
    assert Credits(Saw(es[i]), c);
  }

  /** Of benchmarks, nothing stays missing. */
  lemma NoBenchmarkMissingAfter(v: Verdicts, d: Declared)
    requires Indexed(v) && WellNamed(d)
    ensures NothingMissing(After(v, Items(Booked(v, d, true))), d, true)
  {
    var w := After(v, Items(Booked(v, d, true)));
    hide Booked, After, Items;
    forall c | c in d.benchmarks ensures c in w.benched {
      CreditsAfter(v, d, c);
    }
    EmptyIff(MissingBench(w, d));
  }

  /** The last verdict on the unit's suite is a skip. */
  predicate SuiteIsSkipped(items: seq<Item>, c: Case) {
    var verdict := LastVerdict(items, Case(c.pkg, Suite(c.path)));
    Suite(c.path) != "" && verdict.Some? && verdict.value.action.Skip?
  }

  /** The census in terms of the stream: nothing is missing exactly when each declared
      test has a verdict of its own or its suite's last verdict is a skip, and each
      declared fuzz target has a verdict. */
  lemma NothingMissingIff(items: seq<Item>, d: Declared)
    requires WellNamed(d)
    ensures NothingMissing(After(EMPTY, items), d, false) <==>
      && (forall c <- d.tests :: LastVerdict(items, c).Some? || SuiteIsSkipped(items, c))
      && (forall c <- d.fuzz :: LastVerdict(items, c).Some?)
  {
    var w := After(EMPTY, items);
    forall c | c in d.tests
      ensures Covered(c, TestsRan(w)) <==> LastVerdict(items, c).Some? || SuiteIsSkipped(items, c)
    {
      TestCovered(items, c);
    }
    forall c | c in d.fuzz ensures Covered(c, FuzzesRan(w)) <==> LastVerdict(items, c).Some? {
      FuzzCovered(items, c);
    }
    hide After, LastVerdict, Covered, Suite, TestsRan, FuzzesRan, WellNamed;
    EmptyIff(MissingTests(w, d));
    EmptyIff(MissingFuzz(w, d));
  }

  lemma TestCovered(items: seq<Item>, c: Case)
    requires Slashes(c.path) == 1 && !HasPrefix(c.path, FUZZ)
    ensures Covered(c, TestsRan(After(EMPTY, items))) <==> LastVerdict(items, c).Some? || SuiteIsSkipped(items, c)
  {
    var w, s := After(EMPTY, items), Case(c.pkg, Suite(c.path));
    SuiteOfTest(c);
    assert Suite(c.path) <= c.path;
    IndexIsLastVerdict(EMPTY, items, c);
    IndexIsLastVerdict(EMPTY, items, s);
    TestCoverage(w, c);
    hide After, LastVerdict, Suite, TestsRan, Slashes, Indexed;
  }

  lemma FuzzCovered(items: seq<Item>, c: Case)
    requires Slashes(c.path) == 0 && HasPrefix(c.path, FUZZ)
    ensures Covered(c, FuzzesRan(After(EMPTY, items))) <==> LastVerdict(items, c).Some?
  {
    NoSlash(c.path);
    IndexIsLastVerdict(EMPTY, items, c);
    hide After, LastVerdict, Indexed;
  }

  // what settles a benchmark, in terms of the event alone

  const SPACES := [' ', '\t', '\n', '\U{0C}', '\r']

  /** Somewhere after a space a value without spaces, then /op, then a space or the end. */
  ghost predicate ShowsResult(text: string) {
    exists before: string, space: char, value: string, after: string ::
      ResultAt(text, before, space, value, after)
  }

  ghost predicate ResultAt(text: string, before: string, space: char, value: string, after: string) {
    && text == before + [space] + value + "/op" + after
    && space in SPACES && value != "" && (forall c <- value :: c !in SPACES)
    && (after == "" || after[0] in SPACES)
  }

  lemma HasResultIff(text: string)
    ensures HasResult(text) <==> ShowsResult(text)
  {
    hide HasResult, ShowsResult;
    if HasResult(text) {
      ResultIsShown(text);
    }
    if ShowsResult(text) {
      ShownIsResult(text);
    }
  }

  lemma ResultIsShown(text: string)
    requires HasResult(text)
    ensures ShowsResult(text)
  {
    hide ResultAt;
    var i, j :| 0 <= i < j < |text| && IsResult(text, i, j);
    ResultFromPlaces(text, i, j);
  }

  lemma ShownIsResult(text: string)
    requires ShowsResult(text)
    ensures HasResult(text)
  {
    hide HasResult, ResultAt;
    var before, space, value, after :| ResultAt(text, before, space, value, after);
    PlacesOfResult(text, before, space, value, after);
  }

  lemma ResultFromPlaces(text: string, i: nat, j: nat)
    requires i < j < |text| && IsResult(text, i, j)
    ensures ResultAt(text, text[..i], text[i], text[i + 1..j], text[j + 3..])
  {
    assert forall c :: IsSpace(c) <==> c in SPACES;
    assert text[j..] == text[j..][..3] + text[j..][3..] && text[j..][..3] == "/op" && text[j..][3..] == text[j + 3..];
    assert text == text[..i] + [text[i]] + text[i + 1..j] + text[j..];
    assert text == text[..i] + [text[i]] + text[i + 1..j] + "/op" + text[j + 3..];
    hide IsSpace;
  }

  lemma PlacesOfResult(text: string, before: string, space: char, value: string, after: string)
    requires ResultAt(text, before, space, value, after)
    ensures HasResult(text)
  {
    var i, j := |before|, |before| + 1 + |value|;
    assert text[i] == space && text[i + 1..j] == value && text[j..] == "/op" + after;
    assert after != "" ==> text[j + 3] == after[0];
    assert IsResult(text, i, j);
  }

  /** The event is the benchmark's own or of something below it, and fails it, skips it,
      ends it or shows its result. */
  ghost predicate Settles(ev: Event, c: Case) {
    && ev.pkg == c.pkg && (ev.test == c.path || c.path + "/" <= ev.test)
    && (ev.action.Fail? || ev.action.Skip? || ev.action.Bench? || (ev.action.Output? && ShowsResult(ev.output)))
  }

  /** The first two segments of a name, whatever follows. */
  lemma MethodPathIff(test: string, path: string)
    requires Slashes(path) == 1
    ensures Slashes(test) > 1 && MethodPath(test) == path <==> path + "/" <= test
  {
    hide Slashes, Suite;
    if Slashes(test) > 1 {
      MethodPathSplits(test);
    }
    if path + "/" <= test {
      MethodPathOfLonger(path, test[|path| + 1..]);
      assert test == path + "/" + test[|path| + 1..];
    }
  }

  lemma {:induction false} SuiteSplits(s: string)
    ensures var first := Suite(s);
      if |first| == |s| then first == s && Slashes(s) == 0
      else s == first + "/" + s[|first| + 1..] && Slashes(s) == 1 + Slashes(s[|first| + 1..])
  {
    if s != "" && s[0] != '/' {
      SuiteSplits(s[1..]);
      var first := Suite(s);
      assert s == [s[0]] + s[1..] && first[1..] == Suite(s[1..]);
      assert |first| < |s| ==> s[1..][|first|..] == s[|first| + 1..];
    }
  }

  lemma MethodPathSplits(test: string)
    requires Slashes(test) > 1
    ensures MethodPath(test) + "/" <= test
  {
    hide Slashes, Suite;
    SuiteSplits(test);
    var first := Suite(test);
    var rest := test[|first| + 1..];
    SuiteSplits(rest);
    assert test == first + "/" + Suite(rest) + "/" + rest[|Suite(rest)| + 1..];
  }

  lemma MethodPathOfLonger(path: string, more: string)
    requires Slashes(path) == 1
    ensures MethodPath(path + "/" + more) == path && Slashes(path + "/" + more) > 1
  {
    OneSlashMore(path, more);
    hide Slashes;
    SuiteSplits(path);
    var first := Suite(path);
    var second := path[|first| + 1..];
    NoSlash(second);
    TwoSegments(first, second, more);
    hide Suite, MethodPath;
    assert path == first + "/" + second;
  }

  lemma OneSlashMore(path: string, more: string)
    ensures Slashes(path + "/" + more) > Slashes(path)
  {
    SlashesOfBoth(path, "/");
    SlashesOfBoth(path + "/", more);
    assert Slashes("/") == 1;
  }

  lemma TwoSegments(first: string, second: string, more: string)
    requires '/' !in first && '/' !in second
    ensures MethodPath(first + "/" + second + "/" + more) == first + "/" + second
  {
    var rest := second + "/" + more;
    var test := first + "/" + rest;
    assert test == first + "/" + second + "/" + more;
    SuiteBefore(first, rest);
    SuiteBefore(second, more);
    hide Suite;
    assert test[|first| + 1..] == rest;
  }

  lemma CreditsIff(ev: Event, c: Case)
    requires Slashes(c.path) == 1 && HasPrefix(c.path, BENCHMARK)
    ensures Credits(Saw(ev), c) <==> Settles(ev, c)
  {
    HasResultIff(ev.output);
    MethodPathIff(ev.test, c.path);
    hide HasResult, ShowsResult, Slashes, MethodPath;
  }

  /** Of a benchmark run, nothing is missing exactly when some event of the stream settles
      each declared benchmark. */
  lemma NoBenchmarkMissingIff(items: seq<Item>, d: Declared)
    requires WellNamed(d)
    ensures NothingMissing(After(EMPTY, items), d, true) <==>
      forall c <- d.benchmarks :: exists ev :: Saw(ev) in items && Settles(ev, c)
  {
    var w := After(EMPTY, items);
    forall c | c in d.benchmarks
      ensures Covered(c, w.benched) <==> exists ev :: Saw(ev) in items && Settles(ev, c)
    {
      BenchedIff(items, c);
      SuiteOfTest(c);
    }
    hide After, Covered, Settles, WellNamed;
    EmptyIff(MissingBench(w, d));
  }

  lemma BenchedIff(items: seq<Item>, c: Case)
    requires Slashes(c.path) == 1 && HasPrefix(c.path, BENCHMARK)
    ensures Indexed(After(EMPTY, items))
    ensures c in After(EMPTY, items).benched <==> exists ev :: Saw(ev) in items && Settles(ev, c)
  {
    IndexIsLastVerdict(EMPTY, items, c);
    hide After, LastVerdict, Slashes, HasPrefix, Settles;
    forall item | item in items ensures Credits(item, c) <==> item.Saw? && Settles(item.ev, c) {
      if item.Saw? {
        CreditsIff(item.ev, c);
      }
    }
  }

  // ------------------------------------------------ units still running

  predicate Runs(v: Verdicts, key: Case) {
    key in v.running && v.running[key]
  }

  /** Still running, or cut short; a unit waiting for a parallel slot is neither. */
  predicate Active(v: Verdicts, key: Case) {
    (Runs(v, key) || key in v.cut) && key !in v.waiting
  }

  /** What runs or was cut since v began is on the lists of the process under way. */
  ghost predicate Tracked(v: Verdicts, w: Verdicts) {
    && (forall k :: Runs(w, k) ==> Runs(v, k) || k in w.ranNow)
    && (forall k <- w.cut :: k in v.cut || k in w.cutNow)
  }

  lemma CreditKeepsTrack(v: Verdicts, w: Verdicts, key: Case)
    requires Tracked(v, w)
    ensures Tracked(v, Credited(w, key))
  {
  }

  lemma StartKeepsTrack(v: Verdicts, w: Verdicts, key: Case)
    requires Tracked(v, w)
    ensures Tracked(v, WithStart(w, key))
  {
    forall k | Runs(WithStart(w, key), k) ensures Runs(v, k) || k in w.ranNow + [key] {
      assert k == key || Runs(w, k);
    }
    assert forall k <- w.ranNow :: k in w.ranNow + [key];
  }

  lemma VerdictKeepsTrack(v: Verdicts, w: Verdicts, ev: Event)
    requires Tracked(v, w)
    ensures Tracked(v, WithVerdict(w, ev))
  {
    hide IsCut;
    var r := Recorded(w, ev);
    assert forall k <- w.cutNow :: k in w.cutNow + [ev.Key()];
    assert r.running == w.running && r.ranNow == w.ranNow;
    forall k | k in r.cut ensures k in v.cut || k in r.cutNow {
      assert k in w.cut || k == ev.Key();
    }
  }

  lemma EventKeepsTrack(v: Verdicts, w: Verdicts, ev: Event)
    requires Tracked(v, w)
    ensures Tracked(v, Observed(w, ev))
  {
    hide Tracked, WithVerdict, WithStart, Credited, IsResultLine, HasResult, Slashes, MethodPath;
    StartKeepsTrack(v, w, ev.Key());
    VerdictKeepsTrack(v, w, ev);
    OthersKeepTrack(v, w, ev);
    CreditKeepsTrack(v, w, Case(ev.pkg, MethodPath(ev.test)));
    CreditKeepsTrack(v, Noted(w, ev), ev.Key());
  }

  lemma OthersKeepTrack(v: Verdicts, w: Verdicts, ev: Event)
    requires Tracked(v, w) && Tracked(v, WithStart(w, ev.Key())) && Tracked(v, WithVerdict(w, ev))
    ensures Tracked(v, Noted(w, ev))
  {
    hide WithVerdict, WithStart, IsResultLine;
  }

  function Saws(evs: seq<Event>): (items: seq<Item>)
    ensures |items| == |evs|
  {
    if evs == [] then [] else Saws(evs[..|evs| - 1]) + [Saw(evs[|evs| - 1])]
  }

  lemma AfterOneMore(v: Verdicts, evs: seq<Event>)
    requires evs != []
    ensures After(v, Saws(evs)) == Observed(After(v, Saws(evs[..|evs| - 1])), evs[|evs| - 1])
  {
    hide Observed;
    var before := Saws(evs[..|evs| - 1]);
    assert Saws(evs)[..|evs| - 1] == before;
  }

  lemma {:induction false} OutputKeepsTrack(v: Verdicts, evs: seq<Event>)
    ensures Tracked(v, After(v, Saws(evs)))
    decreases |evs|
  {
    hide Tracked, Observed, After, Saws;
    if evs == [] {
      NothingSeen(v);
    } else {
      AfterOneMore(v, evs);
      OutputKeepsTrack(v, evs[..|evs| - 1]);
      EventKeepsTrack(v, After(v, Saws(evs[..|evs| - 1])), evs[|evs| - 1]);
    }
  }

  lemma NothingSeen(v: Verdicts)
    ensures Tracked(v, After(v, Saws([])))
  {
  }

  /** The end settles what the process started, and takes it off the waiting. */
  lemma {:induction false} FinishSettles(v: Verdicts, keys: seq<Case>)
    ensures var w := FinishAll(v, keys);
      && w.waiting == v.waiting - Range(keys)
      && (forall k :: Runs(w, k) <==> Runs(v, k) && k !in keys)
      && w.cut == v.cut && w.ranNow == v.ranNow && w.cutNow == v.cutNow && w.resulted == v.resulted
    decreases |keys|
  {
    if keys != [] {
      FinishSettles(Finished(v, keys[0]), keys[1..]);
      assert keys == [keys[0]] + keys[1..];
    }
  }

  /** A process that ended on its own leaves no unit of it running, cut or waiting: what
      still is was so before its output. */
  lemma OwnEndLeavesNothing(v: Verdicts, evs: seq<Event>)
    ensures var u := After(v, Saws(evs)); var w := Ended(u, false);
      && w.ranNow == [] && w.cutNow == [] && w.cut <= v.cut
      && (forall k :: Runs(w, k) ==> Runs(v, k) && k !in u.ranNow)
      && w.waiting == u.waiting - Range(u.ranNow)
  {
    hide After, Saws;
    OutputKeepsTrack(v, evs);
    var u := After(v, Saws(evs));
    FinishSettles(u, u.ranNow);
  }

  /** After processes that all ended on their own no unit is active. */
  lemma {:induction false} NothingActiveAfter(outputs: seq<seq<Event>>)
    ensures var w := AfterProcesses(outputs); forall k :: !Active(w, k)
    ensures var w := AfterProcesses(outputs); w.cut == {} && forall k :: !Runs(w, k)
    decreases |outputs|
  {
    hide After, Saws, Ended;
    if outputs != [] {
      var n := |outputs| - 1;
      NothingActiveAfter(outputs[..n]);
      OwnEndLeavesNothing(AfterProcesses(outputs[..n]), outputs[n]);
    }
  }

  function AfterProcesses(outputs: seq<seq<Event>>): Verdicts
    decreases |outputs|
  {
    if outputs == [] then EMPTY else
      Ended(After(AfterProcesses(outputs[..|outputs| - 1]), Saws(outputs[|outputs| - 1])), false)
  }

  /** The event says whether the unit waits: paused, or started or continued. */
  predicate Marks(ev: Event, key: Case) {
    && Slashes(ev.test) <= 1 && ev.Key() == key && ev.test != ""
    && (ev.action.Pause? || ev.action.Started? || ev.action.Cont?)
  }

  /** Whether the last such event is a pause. */
  function Waits(evs: seq<Event>, key: Case, before: bool): bool {
    if evs == [] then before
    else if Marks(evs[|evs| - 1], key) then evs[|evs| - 1].action.Pause?
    else Waits(evs[..|evs| - 1], key, before)
  }

  /** A unit waits exactly when the last that marked it was a pause. */
  lemma {:induction false} WaitingIs(v: Verdicts, evs: seq<Event>, key: Case)
    requires key.path != ""
    ensures key in After(v, Saws(evs)).waiting <==> Waits(evs, key, key in v.waiting)
    decreases |evs|
  {
    hide Observed, After, Saws, Marks;
    if evs == [] {
      NothingWaits(v);
    } else {
      AfterOneMore(v, evs);
      WaitingIs(v, evs[..|evs| - 1], key);
      EventWaits(After(v, Saws(evs[..|evs| - 1])), evs[|evs| - 1], key);
    }
  }

  lemma NothingWaits(v: Verdicts)
    ensures After(v, Saws([])) == v
  {
  }

  lemma EventWaits(v: Verdicts, ev: Event, key: Case)
    requires key.path != ""
    ensures key in Observed(v, ev).waiting <==> if Marks(ev, key) then ev.action.Pause? else key in v.waiting
  {
    hide Noted, Slashes, MethodPath, HasPrefix, BenchVerdict;
    NotedWaits(v, ev, key);
  }

  lemma NotedWaits(v: Verdicts, ev: Event, key: Case)
    requires key.path != ""
    ensures key in Noted(v, ev).waiting <==>
            if ev.Key() == key && (ev.action.Pause? || ev.action.Started? || ev.action.Cont?) then ev.action.Pause?
            else key in v.waiting
  {
    hide IsResultLine, IsCut;
  }
}
