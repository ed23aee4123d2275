module JudgeAll {
  /** JudgeAll as a protocol: the workers of a phase, the monitor that hands them
      mutants, the goroutine that waits for each worker in turn, and a stop that may
      come at any time. A step is one critical section or one judgement; a worker
      that waits is in an explicit set until a broadcast wakes it. */

  import opened WorkQueues

  datatype Phase = Phase(names: seq<Name>, parallel: nat, prefers: Name -> nat, weight: Name -> real) {
    ghost predicate Valid() {
      forall n :: prefers(n) < parallel
    }
  }

  /** Where a worker stands in its loop. */
  datatype Worker =
    | Ready
    | Asking
    | Blocked
    | Woken
    | Judging(name: Name)
    | Leaving(err: bool)
    | Finished(err: bool)

  /** What became of each slot's mutants, in the order it happened. */
  datatype Slot = Slot(original: seq<Name>, taken: seq<Name>, stolen: seq<Name>, asked: bool)

  /** `logs` and `lost` have an entry for each phase begun: the mutants that got
      a verdict, in order, and those handed out or left over without one. */
  datatype State = State(
    board: Board,
    workers: seq<Worker>,
    slots: seq<Slot>,
    joined: nat,
    failed: bool,
    stopping: bool,
    logs: seq<seq<Name>>,
    lost: seq<multiset<Name>>)

  datatype Judged = Verdict | VerdictThenStop | Cancelled | Failed

  datatype Event =
    | Check(w: nat)
    | Ask(w: nat)
    | Judge(w: nat, result: Judged)
    | Quit(w: nat)
    | Join
    | NextPhase
    | Stop

  // ------------------------------------------------------------------ steps

  ghost function Begin(p: Phase): (Board, seq<Worker>, seq<Slot>)
    requires p.Valid()
  {
    var qs := Spread(p.prefers, p.names, p.parallel);
    (Board(qs, seq(p.parallel, i => Unasked)),
     seq(p.parallel, i => Ready),
     seq(p.parallel, i requires 0 <= i < p.parallel => Slot.Slot(qs[i], [], [], false)))
  }

  ghost function Initial(p: Phase): State
    requires p.Valid()
  {
    var (board, workers, slots) := Begin(p);
    State(board, workers, slots, 0, false, false, [[]], [multiset{}])
  }

  ghost predicate Shaped(ps: seq<Phase>, s: State) {
    && (forall p <- ps :: p.Valid())
    && 0 < |s.logs| == |s.lost| <= |ps|
    && s.board.Valid()
    && |s.board.queues| == |s.workers| == |s.slots| == ps[|s.logs| - 1].parallel
    && s.joined <= |s.workers|
  }

  ghost predicate Enabled(ps: seq<Phase>, s: State, e: Event)
    requires Shaped(ps, s)
  {
    match e
    case Check(w) => w < |s.workers| && s.workers[w].Ready?
    case Ask(w) => w < |s.workers| && (s.workers[w].Asking? || s.workers[w].Woken?)
    case Judge(w, result) => w < |s.workers| && s.workers[w].Judging? && (result.Cancelled? ==> s.stopping)
    case Quit(w) => w < |s.workers| && s.workers[w].Leaving?
    case Join => s.joined < |s.workers| && s.workers[s.joined].Finished?
    case NextPhase => s.joined == |s.workers| && !s.failed && |s.logs| < |ps|
    case Stop => !s.stopping
  }

  /** JudgeAll has returned. */
  ghost predicate Returned(ps: seq<Phase>, s: State)
    requires Shaped(ps, s)
  {
    s.joined == |s.workers| && (s.failed || |s.logs| == |ps|)
  }

  /** Broadcast: everyone who waits is to look again. */
  ghost function Wake(ws: seq<Worker>): (r: seq<Worker>)
    ensures |r| == |ws|
  {
    seq(|ws|, i requires 0 <= i < |ws| => if ws[i].Blocked? then Woken else ws[i])
  }

  ghost function Apply(ps: seq<Phase>, s: State, e: Event): State
    requires Shaped(ps, s) && Enabled(ps, s, e)
  {
    var at := |s.logs| - 1;
    match e
    case Check(w) => s.(workers := s.workers[w := if s.stopping then Leaving(false) else Asking])
    case Ask(w) => Asked(ps[at], s, w)
    case Judge(w, result) => Record(s, w, s.workers[w].name, result)
    case Quit(w) =>
      s.(board := s.board.(state := s.board.state[w := SlotState.Done]),
         workers := Wake(s.workers)[w := Finished(s.workers[w].err)])
    case Join =>
      var err := s.workers[s.joined].err;
      s.(joined := s.joined + 1, failed := s.failed || err, stopping := s.stopping || (err && !s.failed))
    case NextPhase =>
      var (board, workers, slots) := Begin(ps[at + 1]);
      State(board, workers, slots, 0, false, s.stopping, s.logs + [[]],
            s.lost[at := s.lost[at] + Pool(s.board.queues)] + [multiset{}])
    case Stop => s.(stopping := true)
  }

  /** Worker w's pass through Next. */
  ghost function Asked(p: Phase, s: State, w: nat): State
    requires s.board.Valid() && w < |s.workers| == |s.board.queues| == |s.slots|
  {
    var (board, r) := Attempt(p.weight, s.board, w);
    match r
    case Wait =>
      s.(board := board, workers := s.workers[w := Blocked], slots := s.slots[w := s.slots[w].(asked := true)])
    case Exhausted =>
      s.(board := board, workers := Wake(s.workers)[w := Leaving(false)],
         slots := s.slots[w := s.slots[w].(asked := true)])
    case Got(name) =>
      s.(board := board, workers := Wake(s.workers)[w := Judging(name)],
         slots := Noted(s.slots[w := s.slots[w].(asked := true)], From(p.weight, s.board, w), w, name))
  }

  ghost function Noted(slots: seq<Slot>, from: nat, w: nat, name: Name): seq<Slot>
    requires from < |slots|
  {
    var slot := slots[from];
    slots[from := if from == w then slot.(taken := slot.taken + [name]) else slot.(stolen := slot.stolen + [name])]
  }

  /** The judgement of a mutant and, unless there is none, its entry in results. */
  ghost function Record(s: State, w: nat, name: Name, result: Judged): State
    requires w < |s.workers| && 0 < |s.logs| == |s.lost|
  {
    var at := |s.logs| - 1;
    match result
    case Verdict => s.(workers := s.workers[w := Ready], logs := s.logs[at := s.logs[at] + [name]])
    case VerdictThenStop =>
      s.(workers := s.workers[w := Ready], logs := s.logs[at := s.logs[at] + [name]], stopping := true)
    case Cancelled => s.(workers := s.workers[w := Leaving(false)], lost := s.lost[at := s.lost[at] + multiset{name}])
    case Failed => s.(workers := s.workers[w := Leaving(true)], lost := s.lost[at := s.lost[at] + multiset{name}])
  }

  // -------------------------------------------------------------- invariant

  ghost predicate WorkerOk(b: Board, i: nat, w: Worker)
    requires b.Valid() && i < |b.queues|
  {
    && ((w.Blocked? || w.Woken?) ==> b.queues[i] == [] && b.state[i] == Unasked)
    && (b.state[i] == Unasked && b.queues[i] != [] ==> w.Ready? || w.Asking? || w.Leaving?)
    && (w.Finished? <==> b.state[i] == SlotState.Done)
  }

  /** If anyone waits, nobody may be robbed and somebody else has mutants. */
  ghost predicate WaitsInVain(b: Board, ws: seq<Worker>)
    requires b.Valid()
  {
    (exists i :: 0 <= i < |ws| && ws[i].Blocked?) ==>
      && (forall i :: 0 <= i < |b.queues| ==> !b.Robbable(i))
      && exists i :: 0 <= i < |b.queues| && b.queues[i] != []
  }

  function Reverse<T>(s: seq<T>): (r: seq<T>) {
    if s == [] then [] else [s[|s| - 1]] + Reverse(s[..|s| - 1])
  }

  ghost predicate SlotOk(b: Board, i: nat, slot: Slot)
    requires b.Valid() && i < |b.queues|
  {
    && slot.original == slot.taken + b.queues[i] + Reverse(slot.stolen)
    && (b.state[i] == Busy ==> slot.asked)
    && (slot.stolen != [] ==> slot.asked || b.state[i] == SlotState.Done)
  }

  ghost function Hand(w: Worker): multiset<Name> {
    if w.Judging? then multiset{w.name} else multiset{}
  }

  /** The mutants being judged. */
  ghost function InHand(ws: seq<Worker>): multiset<Name> {
    if ws == [] then multiset{} else InHand(ws[..|ws| - 1]) + Hand(ws[|ws| - 1])
  }

  /** Every mutant of a phase is queued, being judged, judged or lost, as often as
      the phase names it. */
  ghost predicate Balanced(
      names: seq<Name>, queues: seq<seq<Name>>, ws: seq<Worker>, log: seq<Name>, lost: multiset<Name>) {
    forall x :: multiset(names)[x] == Pool(queues)[x] + InHand(ws)[x] + multiset(log)[x] + lost[x]
  }

  ghost predicate Accounted(ps: seq<Phase>, s: State)
    requires Shaped(ps, s)
  {
    var at := |s.logs| - 1;
    && (forall j :: 0 <= j < at ==> Balanced(ps[j].names, [], [], s.logs[j], s.lost[j]))
    && Balanced(ps[at].names, s.board.queues, s.workers, s.logs[at], s.lost[at])
  }

  /** Nothing was lost and nobody stops: then a worker leaves only exhausted queues. */
  ghost predicate LeavesNothing(s: State)
    requires 0 < |s.lost|
  {
    !s.stopping && s.lost[|s.lost| - 1] == multiset{} ==>
      forall i, j :: 0 <= i < |s.workers| && 0 <= j < |s.board.queues|
        && (s.workers[i].Leaving? || s.workers[i].Finished?)
        ==> s.board.queues[j] == []
  }

  ghost predicate WorkersOk(b: Board, ws: seq<Worker>)
    requires b.Valid() && |b.queues| == |ws|
  {
    forall i :: 0 <= i < |ws| ==> WorkerOk(b, i, ws[i])
  }

  ghost predicate SlotsOk(b: Board, slots: seq<Slot>)
    requires b.Valid() && |b.queues| == |slots|
  {
    forall i :: 0 <= i < |slots| ==> SlotOk(b, i, slots[i])
  }

  ghost predicate Local(ps: seq<Phase>, s: State) {
    && Shaped(ps, s)
    && WorkersOk(s.board, s.workers)
    && SlotsOk(s.board, s.slots)
    && (forall i :: 0 <= i < s.joined ==> s.workers[i].Finished?)
    && WaitsInVain(s.board, s.workers)
    && LeavesNothing(s)
  }

  ghost predicate Inv(ps: seq<Phase>, s: State) {
    Local(ps, s) && Accounted(ps, s)
  }

  lemma StepKeepsWorkers(ps: seq<Phase>, s: State, e: Event)
    requires Local(ps, s) && Enabled(ps, s, e)
    ensures var t := Apply(ps, s, e); Shaped(ps, t) && WorkersOk(t.board, t.workers)
  {
    hide SlotsOk, WaitsInVain, LeavesNothing, Asked, Spread, Pool;
    var t := Apply(ps, s, e);
    if e.Ask? {
      AskKeepsWorkers(ps[|s.logs| - 1], s, e.w);
    } else if !e.NextPhase? {
      hide Begin, Attempt;
      forall i | 0 <= i < |t.workers| ensures WorkerOk(t.board, i, t.workers[i]) {
        assert WorkerOk(s.board, i, s.workers[i]);
      }
    }
  }

  lemma AskKeepsWorkers(p: Phase, s: State, w: nat)
    requires s.board.Valid() && w < |s.workers| == |s.board.queues| == |s.slots|
    requires (s.workers[w].Asking? || s.workers[w].Woken?) && WorkersOk(s.board, s.workers)
    ensures var t := Asked(p, s, w);
      && t.board.Valid() && |t.board.queues| == |t.workers| == |t.slots| == |s.workers| && WorkersOk(t.board, t.workers)
      && t.logs == s.logs && t.lost == s.lost && t.joined == s.joined
  {
    hide Attempt, Noted;
    var t := Asked(p, s, w);
    if !Attempt(p.weight, s.board, w).1.Got? {
      AttemptWithoutMutant(p.weight, s.board, w);
    }
    NotedCounts(p, s, w);
    forall i | 0 <= i < |t.workers| ensures WorkerOk(t.board, i, t.workers[i]) {
      assert WorkerOk(s.board, i, s.workers[i]);
    }
  }

  lemma NotedCounts(p: Phase, s: State, w: nat)
    requires s.board.Valid() && w < |s.workers| == |s.board.queues| == |s.slots|
    ensures |Asked(p, s, w).slots| == |s.slots|
  {
    hide Attempt, From;
  }

  lemma {:induction false} InHandAfterUpdate(ws: seq<Worker>, i: nat, w: Worker)
    requires i < |ws|
    ensures forall x :: InHand(ws[i := w])[x] + Hand(ws[i])[x] == InHand(ws)[x] + Hand(w)[x]
  {
    hide Hand;
    var n := |ws| - 1;
    if i == n {
      assert ws[i := w][..n] == ws[..n];
    } else {
      InHandAfterUpdate(ws[..n], i, w);
      assert ws[i := w][..n] == ws[..n][i := w];
    }
  }

  lemma {:induction false} SameHandsHoldTheSame(ws: seq<Worker>, vs: seq<Worker>)
    requires |ws| == |vs| && forall i :: 0 <= i < |ws| ==> Hand(ws[i]) == Hand(vs[i])
    ensures InHand(ws) == InHand(vs)
  {
    if ws != [] {
      SameHandsHoldTheSame(ws[..|ws| - 1], vs[..|ws| - 1]);
    }
  }

  lemma {:induction false} NoneJudgingHoldNothing(ws: seq<Worker>)
    requires forall i :: 0 <= i < |ws| ==> !ws[i].Judging?
    ensures InHand(ws) == multiset{}
  {
    if ws != [] {
      NoneJudgingHoldNothing(ws[..|ws| - 1]);
    }
  }

  lemma NewHand(ws: seq<Worker>, vs: seq<Worker>, w: nat)
    requires w < |ws| == |vs| && !ws[w].Judging?
    requires forall i :: 0 <= i < |ws| && i != w ==> Hand(ws[i]) == Hand(vs[i])
    ensures InHand(vs) == InHand(ws) + Hand(vs[w])
  {
    InHandAfterUpdate(ws, w, vs[w]);
    SameHandsHoldTheSame(ws[w := vs[w]], vs);
  }

  lemma AskKeepsBalance(p: Phase, s: State, w: nat, log: seq<Name>, lost: multiset<Name>)
    requires s.board.Valid() && w < |s.workers| == |s.board.queues| == |s.slots| && !s.workers[w].Judging?
    requires Balanced(p.names, s.board.queues, s.workers, log, lost)
    ensures var t := Asked(p, s, w); Balanced(p.names, t.board.queues, t.workers, log, lost)
  {
    hide Attempt, From, Pool, InHand, Balanced;
    var t := Asked(p, s, w);
    NewHand(s.workers, t.workers, w);
    if Attempt(p.weight, s.board, w).1.Got? {
      AttemptTakesOne(p.weight, s.board, w);
    } else {
      AttemptWithoutMutant(p.weight, s.board, w);
    }
    HandedOut(p.names, s.board.queues, s.workers, t.board.queues, t.workers, log, lost, Hand(t.workers[w]));
  }

  /** Mutants that go from the queues to the workers leave the balance. */
  lemma HandedOut(names: seq<Name>, qs: seq<seq<Name>>, ws: seq<Worker>, qs': seq<seq<Name>>, ws': seq<Worker>,
                  log: seq<Name>, lost: multiset<Name>, moved: multiset<Name>)
    requires Balanced(names, qs, ws, log, lost)
    requires Pool(qs) == Pool(qs') + moved && InHand(ws') == InHand(ws) + moved
    ensures Balanced(names, qs', ws', log, lost)
  {
    hide Pool, InHand;
  }

  lemma RecordKeepsBalance(names: seq<Name>, s: State, w: nat, result: Judged)
    requires w < |s.workers| && s.workers[w].Judging? && 0 < |s.logs| == |s.lost|
    requires var at := |s.logs| - 1; Balanced(names, s.board.queues, s.workers, s.logs[at], s.lost[at])
    ensures var t, at := Record(s, w, s.workers[w].name, result), |s.logs| - 1;
      Balanced(names, t.board.queues, t.workers, t.logs[at], t.lost[at])
  {
    InHandAfterUpdate(s.workers, w, Record(s, w, s.workers[w].name, result).workers[w]);
  }

  /** Only the last phase's entries change. */
  lemma StepKeepsEarlierEntries(ps: seq<Phase>, s: State, e: Event)
    requires Shaped(ps, s) && Enabled(ps, s, e)
    ensures var t, at := Apply(ps, s, e), |s.logs| - 1;
      && |t.logs| == |t.lost| == (if e.NextPhase? then at + 2 else at + 1)
      && t.logs[..at] == s.logs[..at] && t.lost[..at] == s.lost[..at]
      && (e.NextPhase? ==> t.logs[at + 1] == [] && t.lost[at + 1] == multiset{})
  {
    hide Attempt, From, Wake, Spread;
  }

  lemma StepKeepsAccounts(ps: seq<Phase>, s: State, e: Event)
    requires Inv(ps, s) && Enabled(ps, s, e)
    ensures var t := Apply(ps, s, e); Shaped(ps, t) && Accounted(ps, t)
  {
    hide Balanced, WorkersOk, SlotsOk, WaitsInVain, LeavesNothing, Apply;
    StepKeepsWorkers(ps, s, e);
    if e.NextPhase? {
      NextPhaseBalances(ps, s);
    } else {
      var t, at := Apply(ps, s, e), |s.logs| - 1;
      StepKeepsEarlierEntries(ps, s, e);
      StepKeepsBalance(ps, s, e);
      forall j | 0 <= j < at ensures Balanced(ps[j].names, [], [], t.logs[j], t.lost[j]) {
        assert t.logs[j] == t.logs[..at][j] == s.logs[..at][j] && t.lost[j] == t.lost[..at][j] == s.lost[..at][j];
      }
    }
  }

  lemma StepKeepsBalance(ps: seq<Phase>, s: State, e: Event)
    requires Inv(ps, s) && Enabled(ps, s, e) && !e.NextPhase?
    ensures var t, at := Apply(ps, s, e), |s.logs| - 1;
      && |t.logs| == |t.lost| == at + 1
      && Balanced(ps[at].names, t.board.queues, t.workers, t.logs[at], t.lost[at])
  {
    hide Attempt, From, Balanced, WorkersOk, SlotsOk, WaitsInVain, LeavesNothing, Wake, Spread;
    var t, at := Apply(ps, s, e), |s.logs| - 1;
    match e
    case Check(w) =>
      BalanceOfSameHands(ps[at].names, s, t.board.queues, t.workers);
    case Ask(w) =>
      AskKeepsBalance(ps[at], s, w, s.logs[at], s.lost[at]);
    case Judge(w, result) =>
      RecordKeepsBalance(ps[at].names, s, w, result);
    case Quit(w) =>
      WakeKeepsHands(s.workers, w, t.workers[w]);
      BalanceOfSameHands(ps[at].names, s, t.board.queues, t.workers);
    case _ =>
  }

  lemma WakeKeepsHands(ws: seq<Worker>, w: nat, v: Worker)
    requires w < |ws| && Hand(v) == Hand(ws[w])
    ensures forall i :: 0 <= i < |ws| ==> Hand(Wake(ws)[w := v][i]) == Hand(ws[i])
  {
  }

  lemma BalanceOfSameHands(names: seq<Name>, s: State, queues: seq<seq<Name>>, ws: seq<Worker>)
    requires 0 < |s.logs| == |s.lost| && queues == s.board.queues
    requires var at := |s.logs| - 1; Balanced(names, s.board.queues, s.workers, s.logs[at], s.lost[at])
    requires |ws| == |s.workers| && forall i :: 0 <= i < |ws| ==> Hand(s.workers[i]) == Hand(ws[i])
    ensures var at := |s.logs| - 1; Balanced(names, queues, ws, s.logs[at], s.lost[at])
  {
    SameHandsHoldTheSame(s.workers, ws);
  }

  lemma NextPhaseBalances(ps: seq<Phase>, s: State)
    requires Inv(ps, s) && Enabled(ps, s, NextPhase)
    ensures Accounted(ps, Apply(ps, s, NextPhase))
  {
    hide Attempt, From, WorkersOk, SlotsOk, WaitsInVain, LeavesNothing, Pool, InHand, Balanced;
    var t, at := Apply(ps, s, NextPhase), |s.logs| - 1;
    PhaseEndsBalanced(ps[at].names, s.board.queues, s.workers, s.logs[at], s.lost[at]);
    assert ps[at + 1] in ps;
    PhaseStartsBalanced(ps[at + 1]);
    forall j | 0 <= j < at + 1 ensures Balanced(ps[j].names, [], [], t.logs[j], t.lost[j]) {
      assert t.logs[j] == s.logs[j] && (j < at ==> t.lost[j] == s.lost[j]);
    }
  }

  /** With everybody finished, what is still queued counts as lost. */
  lemma PhaseEndsBalanced(
      names: seq<Name>, queues: seq<seq<Name>>, ws: seq<Worker>, log: seq<Name>, lost: multiset<Name>)
    requires Balanced(names, queues, ws, log, lost) && forall i :: 0 <= i < |ws| ==> ws[i].Finished?
    ensures Balanced(names, [], [], log, lost + Pool(queues))
  {
    hide Pool, InHand;
    NoneJudgingHoldNothing(ws);
    NoneJudgingHoldNothing([]);
    EmptyQueuesEmptyPool([]);
  }

  lemma PhaseStartsBalanced(p: Phase)
    requires p.Valid()
    ensures var (board, workers, _) := Begin(p); Balanced(p.names, board.queues, workers, [], multiset{})
  {
    hide Pool, InHand, Spread;
    NoneJudgingHoldNothing(Begin(p).1);
    SpreadKeepsAll(p.prefers, p.names, p.parallel);
  }

  // -------------------------------------------------------- the other parts

  lemma StepKeepsSlots(ps: seq<Phase>, s: State, e: Event)
    requires Local(ps, s) && Enabled(ps, s, e)
    ensures var t := Apply(ps, s, e); Shaped(ps, t) && SlotsOk(t.board, t.slots)
  {
    hide WorkersOk, WaitsInVain, LeavesNothing, Attempt, Heaviest, From;
    StepKeepsWorkers(ps, s, e);
    var t := Apply(ps, s, e);
    forall i | 0 <= i < |t.slots| ensures SlotOk(t.board, i, t.slots[i]) {
      assert !e.NextPhase? ==> SlotOk(s.board, i, s.slots[i]);
      if e.Ask? {
        AskKeepsSlot(ps[|s.logs| - 1], s, e.w, i);
      }
    }
  }

  lemma AskKeepsSlot(p: Phase, s: State, w: nat, i: nat)
    requires s.board.Valid() && w < |s.workers| == |s.board.queues| == |s.slots| && i < |s.slots|
    requires SlotOk(s.board, i, s.slots[i])
    ensures var t := Asked(p, s, w);
      i < |t.slots| && t.board.Valid() && i < |t.board.queues| && SlotOk(t.board, i, t.slots[i])
  {
    hide Attempt, Heaviest, Reverse, Wake;
    var (_, r) := Attempt(p.weight, s.board, w);
    if r.Got? {
      var from := From(p.weight, s.board, w);
      var q, slot := s.board.queues[from], s.slots[from];
      if i == from && from == w {
        FrontTaken(slot.original, slot.taken, q, Reverse(slot.stolen));
      } else if i == from {
        BackTaken(slot.original, slot.taken, q, slot.stolen);
      }
    } else {
      AttemptWithoutMutant(p.weight, s.board, w);
    }
  }

  lemma FrontTaken<T>(original: seq<T>, taken: seq<T>, q: seq<T>, back: seq<T>)
    requires original == taken + q + back && q != []
    ensures original == taken + [q[0]] + q[1..] + back
  {
    assert q == [q[0]] + q[1..];
  }

  lemma BackTaken<T>(original: seq<T>, taken: seq<T>, q: seq<T>, stolen: seq<T>)
    requires original == taken + q + Reverse(stolen) && q != []
    ensures original == taken + q[..|q| - 1] + Reverse(stolen + [q[|q| - 1]])
  {
    hide Reverse;
    ReverseAppend(stolen, q[|q| - 1]);
    assert q == q[..|q| - 1] + [q[|q| - 1]];
  }

  lemma ReverseAppend<T>(s: seq<T>, x: T)
    ensures Reverse(s + [x]) == [x] + Reverse(s)
  {
    assert (s + [x])[..|s|] == s;
  }

  lemma StepKeepsWaits(ps: seq<Phase>, s: State, e: Event)
    requires Local(ps, s) && Enabled(ps, s, e)
    ensures var t := Apply(ps, s, e); Shaped(ps, t) && WaitsInVain(t.board, t.workers)
  {
    hide SlotsOk, WorkersOk, LeavesNothing, Asked, Spread;
    StepKeepsWorkers(ps, s, e);
    if e.Ask? {
      AskKeepsWaits(ps[|s.logs| - 1], s, e.w);
    }
  }

  lemma AskKeepsWaits(p: Phase, s: State, w: nat)
    requires s.board.Valid() && w < |s.workers| == |s.board.queues| == |s.slots|
    requires (s.workers[w].Asking? || s.workers[w].Woken?) && WaitsInVain(s.board, s.workers)
    ensures var t := Asked(p, s, w); t.board.Valid() && WaitsInVain(t.board, t.workers)
  {
    hide Attempt, Noted;
    if !Attempt(p.weight, s.board, w).1.Got? {
      AttemptWithoutMutant(p.weight, s.board, w);
    }
  }

  lemma StepKeepsLeaves(ps: seq<Phase>, s: State, e: Event)
    requires Local(ps, s) && Enabled(ps, s, e)
    ensures LeavesNothing(Apply(ps, s, e))
  {
    hide SlotsOk, WorkersOk, WaitsInVain, Asked, Spread;
    if e.Ask? {
      AskKeepsLeaves(ps[|s.logs| - 1], s, e.w);
    } else if !e.NextPhase? {
      hide Begin, Board.Valid, Pool;
    }
  }

  lemma AskKeepsLeaves(p: Phase, s: State, w: nat)
    requires s.board.Valid() && w < |s.workers| == |s.board.queues| == |s.slots| && 0 < |s.lost|
    requires (s.workers[w].Asking? || s.workers[w].Woken?) && LeavesNothing(s)
    ensures LeavesNothing(Asked(p, s, w))
  {
    hide Attempt, Noted;
    AttemptSpares(p.weight, s.board, w);
  }

  /** A pass through Next fills no queue, and ends one only when all are empty. */
  lemma AttemptSpares(weight: Name -> real, b: Board, w: nat)
    requires b.Valid() && w < |b.queues|
    ensures var (t, r) := Attempt(weight, b, w);
      && |t.queues| == |b.queues|
      && (forall j :: 0 <= j < |b.queues| && b.queues[j] == [] ==> t.queues[j] == [])
      && (r.Exhausted? ==> forall j :: 0 <= j < |b.queues| ==> t.queues[j] == [])
  {
    hide Heaviest;
    if !Attempt(weight, b, w).1.Got? {
      AttemptWithoutMutant(weight, b, w);
    }
  }

  lemma StepKeepsInv(ps: seq<Phase>, s: State, e: Event)
    requires Inv(ps, s) && Enabled(ps, s, e)
    ensures Inv(ps, Apply(ps, s, e))
  {
    hide SlotsOk, WorkersOk, WaitsInVain, LeavesNothing, Accounted, Asked, Record;
    StepKeepsWorkers(ps, s, e);
    StepKeepsSlots(ps, s, e);
    StepKeepsWaits(ps, s, e);
    StepKeepsLeaves(ps, s, e);
    StepKeepsAccounts(ps, s, e);
    StepKeepsJoined(ps, s, e);
  }

  lemma StepKeepsJoined(ps: seq<Phase>, s: State, e: Event)
    requires Local(ps, s) && Enabled(ps, s, e)
    ensures var t := Apply(ps, s, e); Shaped(ps, t) && forall i :: 0 <= i < t.joined ==> t.workers[i].Finished?
  {
    hide SlotsOk, WorkersOk, WaitsInVain, LeavesNothing, Attempt;
    StepKeepsWorkers(ps, s, e);
  }

  // ------------------------------------------------------------ over a run

  /** States that follow one another by the events, from JudgeAll's first phase. */
  ghost predicate IsRun(ps: seq<Phase>, ss: seq<State>, es: seq<Event>) {
    && ps != [] && (forall p <- ps :: p.Valid())
    && |ss| == |es| + 1
    && ss[0] == Initial(ps[0])
    && forall n {:trigger es[n]} :: 0 <= n < |es| ==>
      Shaped(ps, ss[n]) && Enabled(ps, ss[n], es[n]) && ss[n + 1] == Apply(ps, ss[n], es[n])
  }

  lemma InitialInv(ps: seq<Phase>)
    requires ps != [] && forall p <- ps :: p.Valid()
    ensures Inv(ps, Initial(ps[0]))
  {
    InitialIsLocal(ps);
    InitialIsAccounted(ps);
  }

  lemma InitialIsLocal(ps: seq<Phase>)
    requires ps != [] && forall p <- ps :: p.Valid()
    ensures Local(ps, Initial(ps[0]))
  {
  }

  lemma InitialIsAccounted(ps: seq<Phase>)
    requires ps != [] && forall p <- ps :: p.Valid()
    ensures Accounted(ps, Initial(ps[0]))
  {
    NoneJudgingHoldNothing(Initial(ps[0]).workers);
    SpreadKeepsAll(ps[0].prefers, ps[0].names, ps[0].parallel);
  }

  lemma {:induction false} RunKeepsInv(ps: seq<Phase>, ss: seq<State>, es: seq<Event>, n: nat)
    requires IsRun(ps, ss, es) && n < |ss|
    ensures Inv(ps, ss[n])
  {
    hide Inv, Initial, Enabled, Apply;
    if n == 0 {
      InitialInv(ps);
    } else {
      RunKeepsInv(ps, ss, es, n - 1);
      var e := es[n - 1];
      StepKeepsInv(ps, ss[n - 1], e);
    }
  }

  /** No lost wakeup: whoever waits in Next has an empty queue and nobody to rob,
      and somebody who does not wait has mutants and has not asked for them. */
  lemma NoLostWakeup(ps: seq<Phase>, ss: seq<State>, es: seq<Event>, n: nat, i: nat) returns (j: nat)
    requires IsRun(ps, ss, es) && n < |ss| && i < |ss[n].workers| && ss[n].workers[i].Blocked?
    ensures Shaped(ps, ss[n]) && ss[n].board.queues[i] == []
    ensures forall k :: 0 <= k < |ss[n].workers| ==> !ss[n].board.Robbable(k)
    ensures j < |ss[n].workers| && ss[n].board.queues[j] != [] && ss[n].board.state[j] == Unasked
    ensures ss[n].workers[j].Ready? || ss[n].workers[j].Asking? || ss[n].workers[j].Leaving?
  {
    hide IsRun;
    RunKeepsInv(ps, ss, es, n);
    var s := ss[n];
    assert WorkerOk(s.board, i, s.workers[i]);
    j :| 0 <= j < |s.board.queues| && s.board.queues[j] != [];
    assert !s.board.Robbable(j) && WorkerOk(s.board, j, s.workers[j]);
  }

  /** No deadlock: until JudgeAll has returned, some step other than a stop from
      outside is enabled. */
  lemma AlwaysAStep(ps: seq<Phase>, ss: seq<State>, es: seq<Event>, n: nat) returns (e: Event)
    requires IsRun(ps, ss, es) && n < |ss| && Shaped(ps, ss[n]) && !Returned(ps, ss[n])
    ensures !e.Stop? && Enabled(ps, ss[n], e)
  {
    hide IsRun, StepOf;
    RunKeepsInv(ps, ss, es, n);
    var s := ss[n];
    if s.joined == |s.workers| {
      e := NextPhase;
    } else if s.workers[s.joined].Finished? {
      e := Join;
    } else {
      var i := s.joined;
      if s.workers[i].Blocked? {
        i := NoLostWakeup(ps, ss, es, n, i);
      }
      WorkerSteps(ps, s, i);
      e := StepOf(s.workers[i], i);
    }
  }

  lemma WorkerSteps(ps: seq<Phase>, s: State, i: nat)
    requires Shaped(ps, s) && i < |s.workers| && !s.workers[i].Blocked? && !s.workers[i].Finished?
    ensures Enabled(ps, s, StepOf(s.workers[i], i)) && !StepOf(s.workers[i], i).Stop?
  {
    hide Shaped;
  }

  ghost function StepOf(w: Worker, i: nat): Event
    requires !w.Blocked? && !w.Finished?
  {
    match w
    case Ready => Check(i)
    case Asking => Ask(i)
    case Woken => Ask(i)
    case Judging(_) => Judge(i, Verdict)
    case Leaving(_) => Quit(i)
  }

  // --------------------------------------------------------------- progress

  ghost function Effort(w: Worker): nat {
    match w
    case Ready => 4
    case Asking => 3
    case Blocked => 2
    case Woken => 2
    case Judging(_) => 5
    case Leaving(_) => 1
    case Finished(_) => 0
  }

  ghost function Efforts(ws: seq<Worker>): nat {
    if ws == [] then 0 else Efforts(ws[..|ws| - 1]) + Effort(ws[|ws| - 1])
  }

  ghost function Awake(ws: seq<Worker>): nat {
    if ws == [] then 0 else Awake(ws[..|ws| - 1]) + if ws[|ws| - 1].Woken? then 1 else 0
  }

  /** What the phase under way may still take: the last factor counts workers
      that a broadcast may send around the loop in vain. */
  ghost function Work(s: State): int {
    5 * |Pool(s.board.queues)| + Efforts(s.workers) + |s.workers| - s.joined
  }

  ghost function PhaseBudget(p: Phase): nat {
    (5 * |p.names| + 5 * p.parallel) * (p.parallel + 1) + 1
  }

  ghost function Budgets(ps: seq<Phase>): nat {
    if ps == [] then 0 else PhaseBudget(ps[0]) + Budgets(ps[1..])
  }

  /** A bound on the steps left. */
  ghost function Measure(ps: seq<Phase>, s: State): int
    requires Shaped(ps, s)
  {
    Work(s) * (|s.workers| + 1) + Awake(s.workers) + Budgets(ps[|s.logs|..])
  }

  lemma {:induction false} EffortsAfterUpdate(ws: seq<Worker>, i: nat, w: Worker)
    requires i < |ws|
    ensures Efforts(ws[i := w]) == Efforts(ws) - Effort(ws[i]) + Effort(w)
    ensures Awake(ws[i := w]) == Awake(ws) - (if ws[i].Woken? then 1 else 0) + if w.Woken? then 1 else 0
  {
    var n := |ws| - 1;
    if i == n {
      assert ws[i := w][..n] == ws[..n];
    } else {
      EffortsAfterUpdate(ws[..n], i, w);
      assert ws[i := w][..n] == ws[..n][i := w];
    }
  }

  lemma {:induction false} EffortsAfterWake(ws: seq<Worker>)
    ensures Efforts(Wake(ws)) == Efforts(ws)
  {
    if ws != [] {
      var n := |ws| - 1;
      EffortsAfterWake(ws[..n]);
      assert Wake(ws)[..n] == Wake(ws[..n]);
    }
  }

  lemma {:induction false} AwakeAtMost(ws: seq<Worker>)
    ensures Awake(ws) <= |ws|
  {
    if ws != [] {
      AwakeAtMost(ws[..|ws| - 1]);
    }
  }

  lemma {:induction false} EffortsOfReady(ws: seq<Worker>)
    requires forall w <- ws :: w.Ready?
    ensures Efforts(ws) == 4 * |ws| && Awake(ws) == 0
  {
    if ws != [] {
      EffortsOfReady(ws[..|ws| - 1]);
    }
  }

  /** Within a phase every step takes work off, or sends a woken worker back. */
  ghost predicate TakesWork(s: State, t: State) {
    && |t.workers| == |s.workers| && |t.logs| == |s.logs|
    && (Work(t) < Work(s) || (Work(t) == Work(s) && Awake(t.workers) < Awake(s.workers)))
  }

  lemma AskTakesWork(p: Phase, s: State, w: nat)
    requires s.board.Valid() && w < |s.workers| == |s.board.queues| == |s.slots|
    requires s.workers[w].Asking? || s.workers[w].Woken?
    ensures TakesWork(s, Asked(p, s, w))
  {
    hide Attempt, From, Pool, Efforts, Awake, Wake, Noted, Effort;
    var t := Asked(p, s, w);
    AttemptShrinksPool(p.weight, s.board, w);
    AskKeepsCounts(p, s, w);
    EffortsAfterWake(s.workers);
    EffortsAfterUpdate(s.workers, w, t.workers[w]);
    WakeSpares(s.workers, w);
    EffortsAfterUpdate(Wake(s.workers), w, t.workers[w]);
    AskedEffort(s.workers[w], t.workers[w]);
  }

  lemma AskedEffort(v: Worker, w: Worker)
    requires v.Asking? || v.Woken?
    ensures Effort(v) == if v.Asking? then 3 else 2
    ensures w.Blocked? ==> Effort(w) == 2
    ensures w.Leaving? ==> Effort(w) == 1
    ensures w.Judging? ==> Effort(w) == 5
  {
  }

  /** A pass that hands out a mutant leaves one fewer in the queues, any other as many. */
  lemma AttemptShrinksPool(weight: Name -> real, b: Board, slot: nat)
    requires b.Valid() && slot < |b.queues|
    ensures var (t, r) := Attempt(weight, b, slot);
      |Pool(b.queues)| == |Pool(t.queues)| + if r.Got? then 1 else 0
  {
    hide Attempt, From, Pool;
    AttemptTakesOne(weight, b, slot);
  }

  lemma AskKeepsCounts(p: Phase, s: State, w: nat)
    requires s.board.Valid() && w < |s.workers| == |s.board.queues| == |s.slots|
    ensures var t, r := Asked(p, s, w), Attempt(p.weight, s.board, w).1;
      && |t.workers| == |s.workers| && |t.logs| == |s.logs| && t.joined == s.joined
      && t.board == Attempt(p.weight, s.board, w).0
      && t.workers == (if r.Wait? then s.workers else Wake(s.workers))[w := t.workers[w]]
      && (r.Got? <==> t.workers[w].Judging?) && (r.Wait? <==> t.workers[w].Blocked?)
         && (r.Exhausted? <==> t.workers[w].Leaving?)
  {
    hide Attempt, From, Noted, Wake;
  }

  lemma StepTakesWork(ps: seq<Phase>, s: State, e: Event)
    requires Shaped(ps, s) && Enabled(ps, s, e) && !e.NextPhase? && !e.Stop?
    ensures TakesWork(s, Apply(ps, s, e))
  {
    hide Asked, Pool, Efforts, Awake, Wake;
    var t := Apply(ps, s, e);
    match e
    case Check(w) => EffortsAfterUpdate(s.workers, w, t.workers[w]);
    case Ask(w) => AskTakesWork(ps[|s.logs| - 1], s, w);
    case Judge(w, _) => EffortsAfterUpdate(s.workers, w, t.workers[w]);
    case Quit(w) =>
      EffortsAfterWake(s.workers);
      WakeSpares(s.workers, w);
      EffortsAfterUpdate(Wake(s.workers), w, t.workers[w]);
    case Join =>
  }

  lemma WakeSpares(ws: seq<Worker>, w: nat)
    requires w < |ws| && !ws[w].Blocked?
    ensures Wake(ws)[w] == ws[w]
  {
  }

  lemma LessWorkLessMeasure(work: int, work': int, awake: nat, awake': nat, n: nat)
    requires awake' <= n && (work' < work || (work' == work && awake' < awake))
    ensures work' * (n + 1) + awake' < work * (n + 1) + awake
  {
    if work' < work {
      assert work' * (n + 1) <= (work - 1) * (n + 1);
    }
  }

  /** Every step but a stop from outside brings the end nearer, and that does not
      put it off. */
  lemma StepsLowerMeasure(ps: seq<Phase>, s: State, e: Event)
    requires Inv(ps, s) && Enabled(ps, s, e)
    ensures Shaped(ps, Apply(ps, s, e))
    ensures 0 <= Measure(ps, s)
    ensures Measure(ps, Apply(ps, s, e)) <= Measure(ps, s) - if e.Stop? then 0 else 1
  {
    hide Measure, WorkersOk, SlotsOk, WaitsInVain, LeavesNothing, Accounted, Apply;
    StepKeepsInv(ps, s, e);
    MeasureIsNatural(ps, s);
    if e.NextPhase? {
      NextPhaseLowersMeasure(ps, s);
    } else if e.Stop? {
      StopKeepsMeasure(ps, s);
    } else {
      StepTakesWork(ps, s, e);
      WorkLowersMeasure(ps, s, Apply(ps, s, e));
    }
  }

  lemma MeasureIsNatural(ps: seq<Phase>, s: State)
    requires Shaped(ps, s)
    ensures 0 <= Measure(ps, s)
  {
    hide Work;
    WorkIsNatural(s);
  }

  lemma WorkLowersMeasure(ps: seq<Phase>, s: State, t: State)
    requires Shaped(ps, s) && Shaped(ps, t) && TakesWork(s, t)
    ensures Measure(ps, t) < Measure(ps, s)
  {
    hide Work, Shaped;
    AwakeAtMost(t.workers);
    LessWorkLessMeasure(Work(s), Work(t), Awake(s.workers), Awake(t.workers), |s.workers|);
  }

  lemma StopKeepsMeasure(ps: seq<Phase>, s: State)
    requires Shaped(ps, s) && Enabled(ps, s, Stop)
    ensures Shaped(ps, Apply(ps, s, Stop)) && Measure(ps, Apply(ps, s, Stop)) == Measure(ps, s)
  {
  }

  /** A phase starts within its budget. */
  lemma FreshMeasure(p: Phase, s: State)
    requires p.Valid() && (s.board, s.workers, s.slots) == Begin(p) && s.joined == 0
    ensures Work(s) * (|s.workers| + 1) + Awake(s.workers) < PhaseBudget(p)
  {
    hide Pool, Efforts, Awake, Spread;
    EffortsOfReady(s.workers);
    SpreadKeepsAll(p.prefers, p.names, p.parallel);
    assert |multiset(p.names)| == |p.names|;
    assert Work(s) == 5 * |p.names| + 5 * p.parallel;
  }

  lemma NextPhaseLowersMeasure(ps: seq<Phase>, s: State)
    requires Shaped(ps, s) && Enabled(ps, s, NextPhase)
    ensures var t := Apply(ps, s, NextPhase); Shaped(ps, t) ==> Measure(ps, t) < Measure(ps, s)
  {
    hide Pool, Efforts, Awake, PhaseBudget, Spread;
    var t, at := Apply(ps, s, NextPhase), |s.logs| - 1;
    assert ps[at + 1] in ps;
    FreshMeasure(ps[at + 1], t);
    BudgetsUnfold(ps, at + 1);
    WorkIsNatural(s);
  }

  lemma WorkIsNatural(s: State)
    requires s.joined <= |s.workers|
    ensures 0 <= Work(s) && 0 <= Work(s) * (|s.workers| + 1)
  {
    hide Pool, Efforts;
    ProductIsNatural(Work(s), |s.workers| + 1);
  }

  lemma ProductIsNatural(a: nat, b: nat)
    ensures 0 <= a * b
  {
  }

  lemma BudgetsUnfold(ps: seq<Phase>, at: nat)
    requires at < |ps|
    ensures Budgets(ps[at..]) == PhaseBudget(ps[at]) + Budgets(ps[at + 1..])
  {
    assert ps[at..][1..] == ps[at + 1..];
  }

  ghost function Steps(es: seq<Event>): nat {
    if es == [] then 0 else Steps(es[..|es| - 1]) + if es[|es| - 1].Stop? then 0 else 1
  }

  lemma {:induction false} RunLowersMeasure(ps: seq<Phase>, ss: seq<State>, es: seq<Event>, n: nat)
    requires IsRun(ps, ss, es) && n < |ss|
    ensures Shaped(ps, ss[n]) && Shaped(ps, ss[0])
    ensures 0 <= Measure(ps, ss[n]) <= Measure(ps, ss[0]) - Steps(es[..n])
  {
    hide Inv, Initial, Enabled, Apply, Measure;
    RunKeepsInv(ps, ss, es, 0);
    RunKeepsInv(ps, ss, es, n);
    InvIsLocal(ps, ss[0]);
    InvIsLocal(ps, ss[n]);
    if n > 0 {
      RunLowersMeasure(ps, ss, es, n - 1);
      RunKeepsInv(ps, ss, es, n - 1);
      var e := es[n - 1];
      StepsLowerMeasure(ps, ss[n - 1], e);
      assert es[..n][..n - 1] == es[..n - 1];
    }
  }

  lemma InvIsLocal(ps: seq<Phase>, s: State)
    requires Inv(ps, s)
    ensures Shaped(ps, s) && 0 <= Measure(ps, s)
  {
    WorkIsNatural(s);
  }

  /** No run goes on for ever: it has no more steps than its phases' budgets. With
      AlwaysAStep, every run that is not cut off ends with JudgeAll's return. */
  lemma RunsAreBounded(ps: seq<Phase>, ss: seq<State>, es: seq<Event>)
    requires IsRun(ps, ss, es)
    ensures Steps(es) <= Budgets(ps)
  {
    RunStarts(ps, ss, es);
    RunLowersMeasure(ps, ss, es, |es|);
    hide Enabled, Apply, Budgets, Steps, IsRun, Work, Awake, PhaseBudget, Begin;
    assert es[..|es|] == es;
    assert ps[0] in ps;
    FreshMeasure(ps[0], ss[0]);
    BudgetsUnfold(ps, 0);
    assert ps[0..] == ps;
  }

  lemma RunStarts(ps: seq<Phase>, ss: seq<State>, es: seq<Event>)
    requires IsRun(ps, ss, es)
    ensures ps != [] && (forall p <- ps :: p.Valid()) && |ss| == |es| + 1 && ss[0] == Initial(ps[0])
  {
  }

  // ---------------------------------------------------------------- results

  /** A phase's log holds no mutant oftener than the phase names it, and what is
      being judged is one it names. */
  lemma BalanceBounds(names: seq<Name>, queues: seq<seq<Name>>, ws: seq<Worker>, log: seq<Name>, lost: multiset<Name>)
    requires Balanced(names, queues, ws, log, lost)
    ensures multiset(log) <= multiset(names)
    ensures forall i :: 0 <= i < |ws| && ws[i].Judging? ==> ws[i].name in names
  {
    hide Pool, InHand;
    forall i | 0 <= i < |ws| && ws[i].Judging? ensures ws[i].name in names {
      InHandAfterUpdate(ws, i, Ready);
      assert multiset(names)[ws[i].name] > 0;
    }
  }

  lemma AccountsBound(ps: seq<Phase>, s: State, j: nat)
    requires Shaped(ps, s) && Accounted(ps, s) && j < |s.logs|
    ensures multiset(s.logs[j]) <= multiset(ps[j].names)
    ensures forall i :: 0 <= i < |s.workers| && s.workers[i].Judging? ==> s.workers[i].name in ps[|s.logs| - 1].names
  {
    hide Balanced;
    var at := |s.logs| - 1;
    BalanceBounds(ps[at].names, s.board.queues, s.workers, s.logs[at], s.lost[at]);
    if j < at {
      BalanceBounds(ps[j].names, [], [], s.logs[j], s.lost[j]);
    }
  }

  /** No mutant gets two verdicts: each phase records at most what it names. */
  lemma AtMostOneVerdictEach(ps: seq<Phase>, ss: seq<State>, es: seq<Event>, n: nat, j: nat)
    requires IsRun(ps, ss, es) && n < |ss| && j < |ss[n].logs|
    ensures j < |ps| && multiset(ss[n].logs[j]) <= multiset(ps[j].names)
  {
    RunKeepsInv(ps, ss, es, n);
    hide IsRun, Accounted;
    AccountsBound(ps, ss[n], j);
  }

  /** Phases never overlap: what is being judged belongs to the last phase begun,
      and every worker of the phases before it has finished. */
  lemma PhasesDoNotOverlap(ps: seq<Phase>, ss: seq<State>, es: seq<Event>, n: nat, i: nat)
    requires IsRun(ps, ss, es) && n < |es| && Shaped(ps, ss[n]) && i < |ss[n].workers|
    ensures ss[n].workers[i].Judging? ==> ss[n].workers[i].name in ps[|ss[n].logs| - 1].names
    ensures es[n].NextPhase? ==> ss[n].workers[i].Finished?
  {
    RunKeepsInv(ps, ss, es, n);
    RunEnables(ps, ss, es, n);
    hide IsRun, Accounted, WorkersOk, SlotsOk, WaitsInVain, LeavesNothing;
    AccountsBound(ps, ss[n], 0);
  }

  lemma RunEnables(ps: seq<Phase>, ss: seq<State>, es: seq<Event>, n: nat)
    requires IsRun(ps, ss, es) && n < |es|
    ensures Shaped(ps, ss[n]) && Enabled(ps, ss[n], es[n])
  {
    var e := es[n];
  }

  /** Nobody stops the drill, no judgement fails and no cleanup fails. */
  ghost predicate Undisturbed(es: seq<Event>) {
    forall e <- es :: !e.Stop? && (e.Judge? ==> e.result.Verdict?)
  }

  ghost predicate Clean(s: State) {
    && !s.stopping
    && (forall i :: 0 <= i < |s.workers| ==> s.workers[i] != Leaving(true) && s.workers[i] != Finished(true))
    && forall j :: 0 <= j < |s.lost| ==> s.lost[j] == multiset{}
  }

  lemma StepKeepsClean(ps: seq<Phase>, s: State, e: Event)
    requires Inv(ps, s) && Clean(s) && Enabled(ps, s, e)
    requires !e.Stop? && (e.Judge? ==> e.result.Verdict?)
    ensures Clean(Apply(ps, s, e))
  {
    hide Attempt, From, Spread, WorkerOk, SlotsOk, WaitsInVain, Accounted;
    if e.NextPhase? {
      if |s.workers| > 0 {
        assert s.workers[0].Finished?;
        EmptyQueuesEmptyPool(s.board.queues);
      } else {
        EmptyQueuesEmptyPool(s.board.queues);
      }
    }
  }

  lemma InitialIsClean(p: Phase)
    requires p.Valid()
    ensures Clean(Initial(p))
  {
  }

  lemma {:induction false} UndisturbedStaysClean(ps: seq<Phase>, ss: seq<State>, es: seq<Event>, n: nat)
    requires IsRun(ps, ss, es) && Undisturbed(es) && n < |ss|
    ensures Clean(ss[n])
  {
    hide Inv, Enabled, Apply, Clean, Initial;
    if n == 0 {
      InitialIsClean(ps[0]);
    } else {
      UndisturbedStaysClean(ps, ss, es, n - 1);
      RunKeepsInv(ps, ss, es, n - 1);
      var e := es[n - 1];
      assert e in es;
      StepKeepsClean(ps, ss[n - 1], e);
    }
  }

  lemma CleanBalanceIsComplete(names: seq<Name>, queues: seq<seq<Name>>, ws: seq<Worker>, log: seq<Name>)
    requires Balanced(names, queues, ws, log, multiset{})
    requires forall i :: 0 <= i < |ws| ==> !ws[i].Judging?
    requires forall i :: 0 <= i < |queues| ==> queues[i] == []
    ensures multiset(log) == multiset(names)
  {
    hide Pool, InHand;
    NoneJudgingHoldNothing(ws);
    EmptyQueuesEmptyPool(queues);
  }

  lemma CleanReturnIsComplete(ps: seq<Phase>, s: State, j: nat)
    requires Inv(ps, s) && Clean(s) && Returned(ps, s) && j < |s.logs|
    ensures multiset(s.logs[j]) == multiset(ps[j].names)
  {
    hide Balanced, WorkerOk, SlotsOk, WaitsInVain;
    var at := |s.logs| - 1;
    if j < at {
      CleanBalanceIsComplete(ps[j].names, [], [], s.logs[j]);
    } else {
      assert s.workers != [] ==> s.workers[0].Finished?;
      CleanBalanceIsComplete(ps[at].names, s.board.queues, s.workers, s.logs[at]);
    }
  }

  /** Without a stop or an error JudgeAll returns with exactly one verdict for each
      mutant of each phase. */
  lemma ExactlyOneVerdictEach(ps: seq<Phase>, ss: seq<State>, es: seq<Event>)
    requires IsRun(ps, ss, es) && Undisturbed(es)
    requires Shaped(ps, ss[|es|]) && Returned(ps, ss[|es|])
    ensures !ss[|es|].failed && |ss[|es|].logs| == |ps|
    ensures forall j :: 0 <= j < |ps| ==> multiset(ss[|es|].logs[j]) == multiset(ps[j].names)
  {
    var s := ss[|es|];
    RunKeepsInv(ps, ss, es, |es|);
    UndisturbedStaysClean(ps, ss, es, |es|);
    UndisturbedNeverFails(ps, ss, es, |es|);
    hide IsRun, Inv, Clean;
    forall j | 0 <= j < |ps| ensures multiset(s.logs[j]) == multiset(ps[j].names) {
      CleanReturnIsComplete(ps, s, j);
    }
  }

  lemma CleanStepNeverFails(ps: seq<Phase>, s: State, e: Event)
    requires Shaped(ps, s) && Clean(s) && !s.failed && Enabled(ps, s, e)
    ensures !Apply(ps, s, e).failed
  {
    if e.Join? {
      assert s.workers[s.joined] == Finished(s.workers[s.joined].err);
    }
  }

  lemma {:induction false} UndisturbedNeverFails(ps: seq<Phase>, ss: seq<State>, es: seq<Event>, n: nat)
    requires IsRun(ps, ss, es) && Undisturbed(es) && n < |ss|
    ensures !ss[n].failed
  {
    if n > 0 {
      hide Enabled, Apply, Clean, Shaped;
      UndisturbedNeverFails(ps, ss, es, n - 1);
      UndisturbedStaysClean(ps, ss, es, n - 1);
      var e := es[n - 1];
      CleanStepNeverFails(ps, ss[n - 1], e);
    }
  }

  /** A slot's first queue is what its owner took from the front, what is left,
      and what thieves took from the back; nobody is robbed before it asks or is
      done with asking. */
  lemma QueuesAreConserved(ps: seq<Phase>, ss: seq<State>, es: seq<Event>, n: nat, i: nat)
    requires IsRun(ps, ss, es) && n < |ss| && i < |ss[n].slots|
    ensures Shaped(ps, ss[n])
    ensures var slot := ss[n].slots[i]; slot.original == slot.taken + ss[n].board.queues[i] + Reverse(slot.stolen)
    ensures ss[n].slots[i].stolen != [] ==> ss[n].slots[i].asked || ss[n].board.state[i] == SlotState.Done
  {
    hide IsRun;
    RunKeepsInv(ps, ss, es, n);
    assert SlotOk(ss[n].board, i, ss[n].slots[i]);
  }
}
