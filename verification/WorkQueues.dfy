/** The queues that hand a phase's mutants to its worker slots. Each critical
    section of the monitor is a method of the class; what it does to the queues
    is a function on their value, which the protocol in JudgeAll is built from. */
module WorkQueues {

  type Name = string

  datatype SlotState = Unasked | Busy | Done

  /** The value of a Queues object. */
  datatype Board = Board(queues: seq<seq<Name>>, state: seq<SlotState>) {
    ghost predicate Valid() {
      |queues| == |state|
    }

    /** Slot i has mutants another slot may take. */
    predicate Robbable(i: nat)
      requires Valid() && i < |queues|
    {
      queues[i] != [] && state[i] != Unasked
    }
  }

  /** What one pass through Next's loop comes to. */
  datatype Outcome = Got(name: Name) | Exhausted | Wait

  datatype Victim = Nobody | Slot(i: nat)

  function Weigh(weight: Name -> real, queue: seq<Name>): real {
    if queue == [] then 0.0 else Weigh(weight, queue[..|queue| - 1]) + weight(queue[|queue| - 1])
  }

  /** It is the sum over the queue, however one cuts it. */
  lemma {:induction false} WeighIsSum(weight: Name -> real, a: seq<Name>, b: seq<Name>)
    ensures Weigh(weight, a + b) == Weigh(weight, a) + Weigh(weight, b)
    ensures |a| == 1 ==> Weigh(weight, a) == weight(a[0])
  {
    if b == [] {
      assert a + b == a;
    } else {
      var n := |b| - 1;
      assert (a + b)[..|a| + n] == a + b[..n];
      WeighIsSum(weight, a, b[..n]);
    }
    assert |a| == 1 ==> a[..0] == [];
  }

  /** The slot to rob among the first n: the first of those with the most
      expected seconds left. */
  function Heaviest(weight: Name -> real, b: Board, n: nat): (v: Victim)
    requires b.Valid() && n <= |b.queues|
    ensures v.Slot? ==> v.i < n && b.Robbable(v.i)
    ensures v.Nobody? <==> forall j :: 0 <= j < n ==> !b.Robbable(j)
  {
    if n == 0 then Nobody else
      var v := Heaviest(weight, b, n - 1);
      if !b.Robbable(n - 1) then v
      else if v.Nobody? || Weigh(weight, b.queues[n - 1]) > Weigh(weight, b.queues[v.i]) then Slot(n - 1)
      else v
  }

  /** The slot to rob has the most seconds left, and more than any before it. */
  lemma {:induction false} HeaviestIsMost(weight: Name -> real, b: Board, n: nat)
    requires b.Valid() && n <= |b.queues| && Heaviest(weight, b, n).Slot?
    ensures var i := Heaviest(weight, b, n).i;
      && (forall j :: 0 <= j < n && b.Robbable(j) ==> Weigh(weight, b.queues[j]) <= Weigh(weight, b.queues[i]))
      && (forall j :: 0 <= j < i && b.Robbable(j) ==> Weigh(weight, b.queues[j]) < Weigh(weight, b.queues[i]))
    decreases n
  {
    hide Weigh;
    if n > 0 && Heaviest(weight, b, n - 1).Slot? {
      HeaviestIsMost(weight, b, n - 1);
    }
  }

  /** One pass through Next's loop, by a slot that is asking. */
  function Attempt(weight: Name -> real, b: Board, slot: nat): (r: (Board, Outcome))
    requires b.Valid() && slot < |b.queues|
    ensures r.0.Valid() && |r.0.queues| == |b.queues|
  {
    var own := b.queues[slot];
    var asking := b.state[slot := Unasked];
    if own != [] then
      (Board(b.queues[slot := own[1..]], asking[slot := Busy]), Got(own[0]))
    else
      var v := Heaviest(weight, Board(b.queues, asking), |b.queues|);
      if v.Slot? then
        var q := b.queues[v.i];
        (Board(b.queues[v.i := q[..|q| - 1]], asking[slot := Busy]), Got(q[|q| - 1]))
      else
        (Board(b.queues, asking), if forall i :: 0 <= i < |b.queues| ==> b.queues[i] == [] then Exhausted else Wait)
  }

  /** The names at slot i of s many, in order. */
  function Preferring(prefers: Name -> nat, names: seq<Name>, i: nat): seq<Name> {
    if names == [] then [] else
      var before := Preferring(prefers, names[..|names| - 1], i);
      var last := names[|names| - 1];
      if prefers(last) == i then before + [last] else before
  }

  /** Those are the names that prefer the slot, at rising places. */
  lemma {:induction false} PreferringIs(prefers: Name -> nat, names: seq<Name>, i: nat) returns (at: seq<nat>)
    ensures var q := Preferring(prefers, names, i);
      && |at| == |q| && (forall j :: 0 <= j < |q| ==> at[j] < |names| && q[j] == names[at[j]])
      && (forall j, k :: 0 <= j < k < |q| ==> at[j] < at[k])
      && (forall k :: 0 <= k < |names| ==> (prefers(names[k]) == i <==> k in at))
  {
    at := [];
    if names != [] {
      var n := |names| - 1;
      at := PreferringIs(prefers, names[..n], i);
      if prefers(names[n]) == i {
        at := at + [n];
      }
    }
  }

  class Queues {
    var queues: seq<seq<Name>>
    var state: seq<SlotState>
    const weight: Name -> real

    ghost predicate Valid()
      reads this
    {
      Value().Valid()
    }

    ghost function Value(): Board
      reads this
    {
      Board(queues, state)
    }

    /** NewQueues; `prefers` is the hash of a name modulo the number of slots. */
    constructor (names: seq<Name>, slots: nat, prefers: Name -> nat, weight: Name -> real)
      requires forall n :: prefers(n) < slots
      ensures Valid() && |queues| == slots && this.weight == weight
      ensures forall i :: 0 <= i < slots ==> queues[i] == Preferring(prefers, names, i) && state[i] == Unasked
    {
      this.weight := weight;
      var qs: seq<seq<Name>> := seq(slots, i => []);
      for k := 0 to |names|
        invariant |qs| == slots
        invariant forall i :: 0 <= i < slots ==> qs[i] == Preferring(prefers, names[..k], i)
      {
        assert names[..k + 1][..k] == names[..k];
        var i := prefers(names[k]);
        qs := qs[i := qs[i] + [names[k]]];
      }
      assert names[..|names|] == names;
      queues := qs;
      state := seq(slots, i => Unasked);
    }

    method Remaining(queue: seq<Name>) returns (sum: real)
      ensures sum == Weigh(weight, queue)
    {
      sum := 0.0;
      for k := 0 to |queue|
        invariant sum == Weigh(weight, queue[..k])
      {
        assert queue[..k + 1][..k] == queue[..k];
        sum := sum + weight(queue[k]);
      }
      assert queue[..|queue|] == queue;
    }

    /** Next from taking the mutex to releasing it, whether to return or to wait. */
    method NextPass(slot: nat) returns (r: Outcome)
      requires Valid() && slot < |queues|
      modifies this
      ensures Valid()
      ensures (Value(), r) == Attempt(weight, old(Value()), slot)
    {
      hide Weigh;
      state := state[slot := Unasked];
      var own := queues[slot];
      if |own| > 0 {
        queues, state := queues[slot := own[1..]], state[slot := Busy];
        return Got(own[0]);
      }
      var from, most, left := Nobody, 0.0, false;
      for i := 0 to |queues|
        invariant queues == old(queues) && state == old(state)[slot := Unasked]
        invariant from == Heaviest(weight, Value(), i)
        invariant from.Slot? ==> most == Weigh(weight, queues[from.i])
        invariant left <==> exists j :: 0 <= j < i && queues[j] != []
      {
        if |queues[i]| > 0 {
          left := true;
          if state[i] != Unasked {
            var w := Remaining(queues[i]);
            if from.Nobody? || w > most {
              from, most := Slot(i), w;
            }
          }
        }
      }
      if from.Slot? {
        var queue := queues[from.i];
        queues, state := queues[from.i := queue[..|queue| - 1]], state[slot := Busy];
        return Got(queue[|queue| - 1]);
      }
      return if left then Wait else Exhausted;
    }

    method Done(slot: nat)
      requires Valid() && slot < |queues|
      modifies this`state
      ensures Valid()
      ensures Value() == old(Value()).(state := old(state)[slot := SlotState.Done])
    {
      state := state[slot := SlotState.Done];
    }
  }

  /** All mutants still queued. */
  ghost function Pool(queues: seq<seq<Name>>): multiset<Name> {
    if queues == [] then multiset{} else Pool(queues[..|queues| - 1]) + multiset(queues[|queues| - 1])
  }

  lemma {:induction false} PoolAfterUpdate(queues: seq<seq<Name>>, i: nat, q: seq<Name>)
    requires i < |queues|
    ensures forall x :: Pool(queues[i := q])[x] + multiset(queues[i])[x] == Pool(queues)[x] + multiset(q)[x]
  {
    var n := |queues| - 1;
    if i == n {
      assert queues[i := q][..n] == queues[..n];
    } else {
      PoolAfterUpdate(queues[..n], i, q);
      assert queues[i := q][..n] == queues[..n][i := q];
    }
  }

  lemma {:induction false} EmptyQueuesEmptyPool(queues: seq<seq<Name>>)
    requires forall i :: 0 <= i < |queues| ==> queues[i] == []
    ensures Pool(queues) == multiset{}
  {
    if queues != [] {
      EmptyQueuesEmptyPool(queues[..|queues| - 1]);
    }
  }

  /** A pass that hands out a mutant takes just that one from the queues: the
      slot's own first, or the last of the robbed slot. */
  lemma AttemptTakesOne(weight: Name -> real, b: Board, slot: nat)
    requires b.Valid() && slot < |b.queues|
    ensures var (t, r) := Attempt(weight, b, slot);
      match r
      case Got(name) => Pool(b.queues) == Pool(t.queues) + multiset{name}
      case Exhausted => Pool(b.queues) == Pool(t.queues) == multiset{}
      case Wait => t.queues == b.queues
  {
    var (t, r) := Attempt(weight, b, slot);
    match r
    case Got(name) =>
      var i := From(weight, b, slot);
      var q := b.queues[i];
      assert q == if i == slot then [q[0]] + q[1..] else q[..|q| - 1] + [q[|q| - 1]];
      TakeOne(b.queues, i, t.queues[i], name);
    case Exhausted => EmptyQueuesEmptyPool(b.queues);
    case Wait =>
  }

  lemma TakeOne(queues: seq<seq<Name>>, i: nat, rest: seq<Name>, name: Name)
    requires i < |queues| && multiset(queues[i]) == multiset(rest) + multiset{name}
    ensures Pool(queues) == Pool(queues[i := rest]) + multiset{name}
  {
    PoolAfterUpdate(queues, i, rest);
  }

  /** The slot a pass takes its mutant from. */
  ghost function From(weight: Name -> real, b: Board, slot: nat): (i: nat)
    requires b.Valid() && slot < |b.queues| && Attempt(weight, b, slot).1.Got?
    ensures i < |b.queues| && b.queues[i] != []
    ensures i != slot ==> b.queues[slot] == [] && b.state[i] != Unasked
    ensures var (t, r) := Attempt(weight, b, slot); var q := b.queues[i];
      && t.queues == b.queues[i := if i == slot then q[1..] else q[..|q| - 1]]
      && t.state == b.state[slot := Busy]
      && r.name == if i == slot then q[0] else q[|q| - 1]
  {
    if b.queues[slot] != [] then slot
    else Heaviest(weight, Board(b.queues, b.state[slot := Unasked]), |b.queues|).i
  }

  /** A pass without a mutant changes no queue. It ends the slot's work when every
      queue is empty and has it wait when there are mutants, but only with slots
      that have not asked. */
  lemma AttemptWithoutMutant(weight: Name -> real, b: Board, slot: nat)
    requires b.Valid() && slot < |b.queues| && !Attempt(weight, b, slot).1.Got?
    ensures var (t, r) := Attempt(weight, b, slot);
      && t == b.(state := b.state[slot := Unasked])
      && b.queues[slot] == []
      && (forall i :: 0 <= i < |b.queues| ==> !t.Robbable(i))
      && (r.Exhausted? <==> forall i :: 0 <= i < |b.queues| ==> b.queues[i] == [])
  {
  }

  /** The queues a phase starts from hold its names, each once. */
  lemma {:induction false} SpreadKeepsAll(prefers: Name -> nat, names: seq<Name>, slots: nat)
    requires forall n :: prefers(n) < slots
    ensures Pool(Spread(prefers, names, slots)) == multiset(names)
  {
    hide Spread, Preferring, Pool;
    if names == [] {
      NothingSpread(prefers, slots);
      EmptyQueuesEmptyPool(Spread(prefers, names, slots));
    } else {
      var n := |names| - 1;
      SpreadKeepsAll(prefers, names[..n], slots);
      SpreadOneMore(prefers, names, slots);
      var before, i := Spread(prefers, names[..n], slots), prefers(names[n]);
      OneLonger(before, i, names[n]);
      assert names == names[..n] + [names[n]];
    }
  }

  lemma NothingSpread(prefers: Name -> nat, slots: nat)
    ensures forall i :: 0 <= i < slots ==> Spread(prefers, [], slots)[i] == []
  {
  }

  lemma SpreadOneMore(prefers: Name -> nat, names: seq<Name>, slots: nat)
    requires names != [] && prefers(names[|names| - 1]) < slots
    ensures var n := |names| - 1; var before, i := Spread(prefers, names[..n], slots), prefers(names[n]);
      Spread(prefers, names, slots) == before[i := before[i] + [names[n]]]
  {
  }

  lemma OneLonger(queues: seq<seq<Name>>, i: nat, name: Name)
    requires i < |queues|
    ensures Pool(queues[i := queues[i] + [name]]) == Pool(queues) + multiset{name}
  {
    hide Pool;
    var after := queues[i := queues[i] + [name]];
    assert after[i := queues[i]] == queues;
    TakeOne(after, i, queues[i], name);
  }

  ghost function Spread(prefers: Name -> nat, names: seq<Name>, slots: nat): (qs: seq<seq<Name>>)
    ensures |qs| == slots
  {
    seq(slots, i requires 0 <= i < slots => Preferring(prefers, names, i))
  }
}
