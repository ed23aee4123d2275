module JudgeStop {
  /** What a stop of JudgeAll achieves, where stops come from, what a failure does and
      what a verdict is: statements about runs, by their states and events alone. */

  import opened WorkQueues
  import opened JudgeAll

  /** Step n hands worker w a mutant. */
  ghost predicate Hands(ss: seq<State>, n: nat, w: nat)
    requires n + 1 < |ss|
  {
    && w < |ss[n + 1].workers| && ss[n + 1].workers[w].Judging?
    && !(w < |ss[n].workers| && ss[n].workers[w] == ss[n + 1].workers[w])
  }

  /** The worker has looked whether to stop and not been answered by Next yet. */
  predicate InNext(w: Worker) {
    w.Asking? || w.Blocked? || w.Woken?
  }

  lemma RunSteps(ps: seq<Phase>, ss: seq<State>, es: seq<Event>, n: nat)
    requires IsRun(ps, ss, es) && n < |es|
    ensures |ss| == |es| + 1 && Shaped(ps, ss[n]) && Enabled(ps, ss[n], es[n])
    ensures ss[n + 1] == Apply(ps, ss[n], es[n]) && Inv(ps, ss[n])
  {
    RunKeepsInv(ps, ss, es, n);
    var e := es[n];
  }

  // --------------------------------------------------------------- one step

  /** A stop stays, and a worker outside Next comes back into it only unstopped. */
  lemma StoppedStep(ps: seq<Phase>, s: State, e: Event, w: nat)
    requires Inv(ps, s) && Enabled(ps, s, e) && s.stopping
    ensures var t := Apply(ps, s, e);
      && t.stopping
      && (w < |t.workers| && InNext(t.workers[w]) ==> w < |s.workers| && InNext(s.workers[w]) && !e.NextPhase?)
      && (w < |t.workers| && t.workers[w].Judging? && !(w < |s.workers| && t.workers[w] == s.workers[w])
          ==> w < |s.workers| && InNext(s.workers[w]) && !e.NextPhase?)
  {
    hide Inv, Attempt, From, Noted, Spread;
  }

  lemma PhaseStays(ps: seq<Phase>, s: State, e: Event)
    requires Shaped(ps, s) && Enabled(ps, s, e)
    ensures var t := Apply(ps, s, e); |t.logs| == |s.logs| + if e.NextPhase? then 1 else 0
  {
    hide Attempt, From, Noted, Spread, Wake;
  }

  // --------------------------------------------------------- after the stop

  /** Whoever is in Next at n, or is handed a mutant there, was in Next at the stop. */
  lemma {:induction false} WasInNext(ps: seq<Phase>, ss: seq<State>, es: seq<Event>, m: nat, n: nat, w: nat)
    requires IsRun(ps, ss, es) && m <= n < |ss| && ss[m].stopping
    ensures ss[n].stopping
    ensures w < |ss[n].workers| && InNext(ss[n].workers[w]) ==>
      w < |ss[m].workers| && InNext(ss[m].workers[w]) && |ss[n].logs| == |ss[m].logs|
    decreases n
  {
    hide IsRun, Inv, Apply, Enabled, Shaped;
    RunStarts(ps, ss, es);
    if n > m {
      WasInNext(ps, ss, es, m, n - 1, w);
      RunSteps(ps, ss, es, n - 1);
      StoppedStep(ps, ss[n - 1], es[n - 1], w);
      PhaseStays(ps, ss[n - 1], es[n - 1]);
    }
  }

  /** After a stop a worker outside Next is outside it for good. */
  lemma {:induction false} StaysOut(ps: seq<Phase>, ss: seq<State>, es: seq<Event>, m: nat, n: nat, w: nat)
    requires IsRun(ps, ss, es) && m <= n < |ss| && ss[m].stopping
    requires !(w < |ss[m].workers| && InNext(ss[m].workers[w]))
    ensures !(w < |ss[n].workers| && InNext(ss[n].workers[w]))
    ensures n < |es| ==> !Hands(ss, n, w)
  {
    hide IsRun, Inv, Apply, Enabled, Shaped;
    WasInNext(ps, ss, es, m, n, w);
    if n < |es| {
      RunSteps(ps, ss, es, n);
      StoppedStep(ps, ss[n], es[n], w);
    }
  }

  /** After a stop a worker is handed one mutant at most: only one that was in Next then,
      and in that phase. */
  lemma StopEndsHandouts(ps: seq<Phase>, ss: seq<State>, es: seq<Event>, m: nat, n: nat, w: nat)
    requires IsRun(ps, ss, es) && |ss| == |es| + 1 && m <= n < |es| && ss[m].stopping && Hands(ss, n, w)
    ensures w < |ss[m].workers| && InNext(ss[m].workers[w]) && |ss[n].logs| == |ss[m].logs|
    ensures forall k :: m <= k < |es| && k != n ==> !Hands(ss, k, w)
  {
    hide IsRun, Inv, Apply, Enabled, Shaped;
    HandedIsOut(ps, ss, es, m, n, w);
    WasInNext(ps, ss, es, m, n, w);
    forall k | m <= k < |es| && k != n ensures !Hands(ss, k, w) {
      if k > n {
        StaysOut(ps, ss, es, n + 1, k, w);
      } else if Hands(ss, k, w) {
        HandedIsOut(ps, ss, es, m, k, w);
        StaysOut(ps, ss, es, k + 1, n, w);
      }
    }
  }

  lemma HandedIsOut(ps: seq<Phase>, ss: seq<State>, es: seq<Event>, m: nat, n: nat, w: nat)
    requires IsRun(ps, ss, es) && |ss| == |es| + 1 && m <= n < |es| && ss[m].stopping && Hands(ss, n, w)
    ensures w < |ss[n].workers| && InNext(ss[n].workers[w])
    ensures ss[n + 1].stopping && !(w < |ss[n + 1].workers| && InNext(ss[n + 1].workers[w]))
  {
    hide IsRun, Inv, Apply, Enabled, Shaped;
    WasInNext(ps, ss, es, m, n, w);
    RunSteps(ps, ss, es, n);
    StoppedStep(ps, ss[n], es[n], w);
  }

  /** A worker at the head of its loop, or done, when the drill stops judges no more. */
  lemma {:induction false} ReadyJudgesNoMore(ps: seq<Phase>, ss: seq<State>, es: seq<Event>, m: nat, n: nat, w: nat)
    requires IsRun(ps, ss, es) && m <= n < |ss| && ss[m].stopping && w < |ss[m].workers|
    requires ss[m].workers[w].Ready? || ss[m].workers[w].Leaving? || ss[m].workers[w].Finished?
    ensures !(w < |ss[n].workers| && ss[n].workers[w].Judging?)
    decreases n
  {
    hide IsRun, Inv, Apply, Enabled, Shaped;
    RunStarts(ps, ss, es);
    if n > m {
      RunSteps(ps, ss, es, n - 1);
      ReadyJudgesNoMore(ps, ss, es, m, n - 1, w);
      StaysOut(ps, ss, es, m, n - 1, w);
    }
  }

  /** Those in Next. */
  ghost function NextsOf(s: State): set<nat> {
    set w: nat | w < |s.workers| && InNext(s.workers[w])
  }

  ghost function HandedAt(ss: seq<State>, n: nat): (ws: set<nat>)
    requires n + 1 < |ss|
    ensures forall w: nat :: w in ws <==> Hands(ss, n, w)
  {
    set w: nat | w < |ss[n + 1].workers| && Hands(ss, n, w)
  }

  /** The steps from m before n that hand out a mutant. */
  ghost function Handouts(ss: seq<State>, m: nat, n: nat): set<nat>
    requires n < |ss|
  {
    set k: nat | m <= k < n && HandedAt(ss, k) != {}
  }

  ghost function Takers(ss: seq<State>, m: nat, n: nat): (ws: set<nat>)
    requires n < |ss|
  {
    if n <= m then {} else Takers(ss, m, n - 1) + HandedAt(ss, n - 1)
  }

  lemma {:induction false} TakersAre(ss: seq<State>, m: nat, n: nat, w: nat)
    requires n < |ss|
    ensures w in Takers(ss, m, n) <==> exists k :: m <= k < n && Hands(ss, k, w)
    decreases n
  {
    hide Hands;
    if n > m {
      TakersAre(ss, m, n - 1, w);
    }
  }

  /** So after a stop no more mutants are handed out than there were workers in Next. */
  lemma HandoutsAreFew(ps: seq<Phase>, ss: seq<State>, es: seq<Event>, m: nat)
    requires IsRun(ps, ss, es) && |ss| == |es| + 1 && m <= |es| && ss[m].stopping
    ensures |Handouts(ss, m, |es|)| <= |NextsOf(ss[m])|
  {
    hide IsRun, Hands, Takers;
    HandoutsAreTakings(ps, ss, es, m, |es|);
    forall w | w in Takers(ss, m, |es|) ensures w in NextsOf(ss[m]) {
      TakersAre(ss, m, |es|, w);
      var n :| m <= n < |es| && Hands(ss, n, w);
      StopEndsHandouts(ps, ss, es, m, n, w);
    }
    FewerOf(Takers(ss, m, |es|), NextsOf(ss[m]));
  }

  lemma {:induction false} HandoutsAreTakings(ps: seq<Phase>, ss: seq<State>, es: seq<Event>, m: nat, n: nat)
    requires IsRun(ps, ss, es) && |ss| == |es| + 1 && m <= |es| && n <= |es| && ss[m].stopping
    ensures |Handouts(ss, m, n)| <= |Takers(ss, m, n)|
    decreases n
  {
    hide IsRun, Hands, HandedAt, Handouts, Takers;
    if n <= m {
      NoHandouts(ss, m, n);
    } else {
      HandoutsAreTakings(ps, ss, es, m, n - 1);
      OneHandoutMore(ss, m, n);
      if HandedAt(ss, n - 1) != {} {
        OneTakerMore(ps, ss, es, m, n);
      }
    }
  }

  lemma NoHandouts(ss: seq<State>, m: nat, n: nat)
    requires n < |ss| && n <= m
    ensures Handouts(ss, m, n) == {}
  {
  }

  lemma OneHandoutMore(ss: seq<State>, m: nat, n: nat)
    requires m < n < |ss|
    ensures Handouts(ss, m, n) == Handouts(ss, m, n - 1) + (if HandedAt(ss, n - 1) != {} then {n - 1} else {})
    ensures |Handouts(ss, m, n)| <= |Handouts(ss, m, n - 1)| + 1
    ensures |Takers(ss, m, n)| >= |Takers(ss, m, n - 1)|
  {
    hide HandedAt;
    assert Handouts(ss, m, n) == Handouts(ss, m, n - 1) + if HandedAt(ss, n - 1) != {} then {n - 1} else {};
    FewerOf(Takers(ss, m, n - 1), Takers(ss, m, n));
  }

  lemma OneTakerMore(ps: seq<Phase>, ss: seq<State>, es: seq<Event>, m: nat, n: nat)
    requires IsRun(ps, ss, es) && |ss| == |es| + 1 && m < n <= |es| && ss[m].stopping
    requires HandedAt(ss, n - 1) != {}
    ensures |Takers(ss, m, n)| > |Takers(ss, m, n - 1)|
  {
    var handed := HandedAt(ss, n - 1);
    var w :| w in handed;
    hide IsRun, Hands;
    TakersAre(ss, m, n - 1, w);
    StopEndsHandouts(ps, ss, es, m, n - 1, w);
    assert Takers(ss, m, n) == Takers(ss, m, n - 1) + handed;
    hide Takers;
    FewerOf(Takers(ss, m, n - 1) + {w}, Takers(ss, m, n));
  }

  lemma FewerOf<T>(a: set<T>, b: set<T>)
    requires a <= b
    ensures |a| <= |b|
  {
    assert b == a + (b - a);
  }

  // ------------------------------------------- where stops and failures come from

  /** A stop from outside, a cleanup that could not kill, or a worker's error joined. */
  ghost predicate Stops(s: State, e: Event) {
    || e.Stop? || (e.Judge? && e.result.VerdictThenStop?) || JoinsError(s, e)
  }

  ghost predicate JoinsError(s: State, e: Event) {
    e.Join? && s.joined < |s.workers| && s.workers[s.joined] == Finished(true)
  }

  lemma StopsStep(ps: seq<Phase>, s: State, e: Event)
    requires Inv(ps, s) && Enabled(ps, s, e) && (s.failed ==> s.stopping)
    ensures var t := Apply(ps, s, e);
      && (t.stopping <==> s.stopping || Stops(s, e))
      && (t.failed <==> s.failed || JoinsError(s, e))
      && (t.failed ==> t.stopping)
  {
    hide Inv, Attempt, From, Noted, Spread, Wake;
  }

  /** The drill stops exactly by one of these, and fails exactly by a worker's error
      joined; no phase begins after a failure. */
  lemma {:induction false} StoppingIff(ps: seq<Phase>, ss: seq<State>, es: seq<Event>, n: nat)
    requires IsRun(ps, ss, es) && |ss| == |es| + 1 && n < |ss|
    ensures ss[n].stopping <==> exists k :: 0 <= k < n && Stops(ss[k], es[k])
    ensures ss[n].failed <==> exists k :: 0 <= k < n && JoinsError(ss[k], es[k])
    ensures ss[n].failed ==> ss[n].stopping && (n < |es| ==> !es[n].NextPhase?)
    decreases n
  {
    hide IsRun, Inv, Apply, Shaped, Enabled, Stops, JoinsError;
    RunStarts(ps, ss, es);
    if n > 0 {
      StoppingIff(ps, ss, es, n - 1);
      RunSteps(ps, ss, es, n - 1);
      StopsStep(ps, ss[n - 1], es[n - 1]);
    } else {
      StartsUnstopped(ps, ss, es);
    }
    if n < |es| {
      RunSteps(ps, ss, es, n);
      FailureEndsPhases(ps, ss[n], es[n]);
    }
  }

  lemma StartsUnstopped(ps: seq<Phase>, ss: seq<State>, es: seq<Event>)
    requires IsRun(ps, ss, es)
    ensures !ss[0].stopping && !ss[0].failed
  {
  }

  lemma FailureEndsPhases(ps: seq<Phase>, s: State, e: Event)
    requires Shaped(ps, s) && Enabled(ps, s, e)
    ensures s.failed ==> !e.NextPhase?
  {
  }

  /** The worker carries an error. */
  predicate Errs(w: Worker) {
    (w.Leaving? || w.Finished?) && w.err
  }

  lemma ErrsStep(ps: seq<Phase>, s: State, e: Event, w: nat)
    requires Inv(ps, s) && Enabled(ps, s, e)
    ensures var t := Apply(ps, s, e);
      && (e.NextPhase? ==> w < |t.workers| ==> !Errs(t.workers[w]))
      && (!e.NextPhase? ==> |t.workers| == |s.workers|)
      && (!e.NextPhase? && w < |t.workers| ==>
            (Errs(t.workers[w]) <==> Errs(s.workers[w]) || e == Judge(w, Failed)))
  {
    hide Inv, Attempt, From, Noted, Spread;
  }

  /** A worker carries an error exactly when a judgement of its own failed in the phase. */
  lemma {:induction false} ErrsIff(ps: seq<Phase>, ss: seq<State>, es: seq<Event>, n: nat, w: nat)
    requires IsRun(ps, ss, es) && |ss| == |es| + 1 && n < |ss| && w < |ss[n].workers|
    ensures Errs(ss[n].workers[w]) <==>
      exists k :: 0 <= k < n && |ss[k].logs| == |ss[n].logs| && es[k] == Judge(w, Failed)
    decreases n
  {
    hide Inv, Apply, Shaped, Enabled, Errs;
    if n == 0 {
      StartsWithoutErrors(ps, ss, es, w);
    } else {
      RunSteps(ps, ss, es, n - 1);
      ErrsStep(ps, ss[n - 1], es[n - 1], w);
      PhaseStays(ps, ss[n - 1], es[n - 1]);
      PhasesAscend(ps, ss, es, n - 1);
      if !es[n - 1].NextPhase? {
        ErrsIff(ps, ss, es, n - 1, w);
      } else {
        PhasesAscend(ps, ss, es, n);
      }
      hide IsRun;
    }
  }

  lemma StartsWithoutErrors(ps: seq<Phase>, ss: seq<State>, es: seq<Event>, w: nat)
    requires IsRun(ps, ss, es) && w < |ss[0].workers|
    ensures !Errs(ss[0].workers[w])
  {
  }

  lemma {:induction false} PhasesAscend(ps: seq<Phase>, ss: seq<State>, es: seq<Event>, n: nat)
    requires IsRun(ps, ss, es) && |ss| == |es| + 1 && n < |ss|
    ensures forall k :: 0 <= k <= n ==> |ss[k].logs| <= |ss[n].logs|
    decreases n
  {
    hide Inv, Apply, Shaped, Enabled;
    if n > 0 {
      PhasesAscend(ps, ss, es, n - 1);
      RunSteps(ps, ss, es, n - 1);
      PhaseStays(ps, ss[n - 1], es[n - 1]);
    }
  }

  // ----------------------------------------------------------- what is recorded

  /** The mutants that steps before n gave a verdict in the phase, in order. */
  ghost function VerdictsOf(ss: seq<State>, es: seq<Event>, n: nat, phase: nat): seq<Name>
    requires n <= |es| <= |ss|
  {
    if n == 0 then [] else
      var s, e := ss[n - 1], es[n - 1];
      VerdictsOf(ss, es, n - 1, phase) +
      if |s.logs| == phase + 1 && e.Judge? && (e.result.Verdict? || e.result.VerdictThenStop?)
         && e.w < |s.workers| && s.workers[e.w].Judging?
      then [s.workers[e.w].name] else []
  }

  lemma LogStep(ps: seq<Phase>, s: State, e: Event, phase: nat)
    requires Shaped(ps, s) && Enabled(ps, s, e) && phase < |Apply(ps, s, e).logs|
    ensures var t := Apply(ps, s, e);
      t.logs[phase] == (if phase < |s.logs| then s.logs[phase] else []) +
        if |s.logs| == phase + 1 && e.Judge? && (e.result.Verdict? || e.result.VerdictThenStop?)
        then [s.workers[e.w].name] else []
  {
    hide Attempt, From, Noted, Spread, Wake;
  }

  /** What a phase has recorded are the verdicts given while it was under way. */
  lemma {:induction false} LogIsVerdicts(ps: seq<Phase>, ss: seq<State>, es: seq<Event>, n: nat, phase: nat)
    requires IsRun(ps, ss, es) && |ss| == |es| + 1 && n < |ss|
    ensures phase < |ss[n].logs| ==> ss[n].logs[phase] == VerdictsOf(ss, es, n, phase)
    ensures phase >= |ss[n].logs| ==> VerdictsOf(ss, es, n, phase) == []
    decreases n
  {
    hide Inv, Apply, Shaped;
    if n > 0 {
      LogIsVerdicts(ps, ss, es, n - 1, phase);
      RunSteps(ps, ss, es, n - 1);
      PhaseStays(ps, ss[n - 1], es[n - 1]);
      if phase < |ss[n].logs| {
        LogStep(ps, ss[n - 1], es[n - 1], phase);
      }
      hide IsRun;
    } else {
      RunStarts(ps, ss, es);
    }
  }
}
