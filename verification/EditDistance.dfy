/** Two edit-distance tables, one with a fresh row each round and one with two rows
    swapped, against the cheapest edit script. */
module EditDistance {

  // ------------------------------------------------------------ edit scripts

  /** One step of an edit, from the front of the word. */
  datatype Edit<T> = Keep | Replace(with: T) | Insert(new_: T) | Delete

  /** The word an edit script makes of a, if it fits: it uses all of a. */
  ghost predicate Turns<T>(script: seq<Edit<T>>, a: seq<T>, b: seq<T>)
    decreases |script|
  {
    if script == [] then a == [] && b == [] else
      match script[0]
      case Keep => a != [] && b != [] && a[0] == b[0] && Turns(script[1..], a[1..], b[1..])
      case Replace(x) => a != [] && b != [] && b[0] == x && Turns(script[1..], a[1..], b[1..])
      case Insert(x) => b != [] && b[0] == x && Turns(script[1..], a, b[1..])
      case Delete => a != [] && Turns(script[1..], a[1..], b)
  }

  function Cost<T>(script: seq<Edit<T>>): nat {
    if script == [] then 0 else (if script[0].Keep? then 0 else 1) + Cost(script[1..])
  }

  // ------------------------------------------------------------ the distance

  function Min(a: nat, b: nat): nat { if a < b then a else b }

  /** The distance of two words, by their last letters. */
  function Distance<T(==)>(a: seq<T>, b: seq<T>): nat
    decreases |a| + |b|
  {
    if a == [] then |b|
    else if b == [] then |a|
    else
      var a', b' := a[..|a| - 1], b[..|b| - 1];
      Min(Min(Distance(a', b) + 1, Distance(a, b') + 1), Distance(a', b') + if a[|a| - 1] == b[|b| - 1] then 0 else 1)
  }

  lemma {:induction false} TurnsMore<T>(script: seq<Edit<T>>, a: seq<T>, b: seq<T>, last: Edit<T>, x: seq<T>, y: seq<T>)
    requires Turns(script, a, b) && Turns([last], x, y)
    ensures Turns(script + [last], a + x, b + y) && Cost(script + [last]) == Cost(script) + Cost([last])
    decreases |script|
  {
    if script == [] {
      assert script + [last] == [last] && a + x == x && b + y == y;
    } else {
      var rest := script[1..];
      assert (script + [last])[1..] == rest + [last] && (script + [last])[0] == script[0];
      assert a != [] ==> (a + x)[1..] == a[1..] + x && (a + x)[0] == a[0];
      assert b != [] ==> (b + y)[1..] == b[1..] + y && (b + y)[0] == b[0];
      match script[0]
      case Insert(_) => TurnsMore(rest, a, b[1..], last, x, y);
      case Delete => TurnsMore(rest, a[1..], b, last, x, y);
      case _ => TurnsMore(rest, a[1..], b[1..], last, x, y);
    }
  }

  lemma NoEdit<T>()
    ensures Turns<T>([], [], []) && Cost<T>([]) == 0
  {
  }

  /** A script of the distance's cost. */
  lemma {:induction false} DistanceIsReached<T>(a: seq<T>, b: seq<T>) returns (script: seq<Edit<T>>)
    ensures Turns(script, a, b) && Cost(script) == Distance(a, b)
    decreases |a| + |b|
  {
    hide Turns, Distance, Cost;
    NoLetters(a, b);
    if a != [] && b != [] {
      NextCell(a, b, |a|, |b|);
      assert a[..|a|] == a && b[..|b|] == b;
    }
    if a == [] && b == [] {
      script := [];
      NoEdit<T>();
    } else if a == [] || (b != [] && Distance(a, b) == Distance(a, b[..|b| - 1]) + 1) {
      var b', y := b[..|b| - 1], b[|b| - 1];
      var s := DistanceIsReached(a, b');
      NoLetters(a, b');
      OneEdit<T>(y, y);
      TurnsMore(s, a, b', Insert(y), [], [y]);
      assert a + [] == a && b' + [y] == b;
      script := s + [Insert(y)];
    } else if b == [] || Distance(a, b) == Distance(a[..|a| - 1], b) + 1 {
      var a', x := a[..|a| - 1], a[|a| - 1];
      var s := DistanceIsReached(a', b);
      NoLetters(a', b);
      OneEdit(x, x);
      TurnsMore(s, a', b, Delete, [x], []);
      assert b + [] == b && a' + [x] == a;
      script := s + [Delete];
    } else {
      var a', x, b', y := a[..|a| - 1], a[|a| - 1], b[..|b| - 1], b[|b| - 1];
      var s := DistanceIsReached(a', b');
      OneEdit(x, y);
      var last := if x == y then Keep else Replace(y);
      TurnsMore(s, a', b', last, [x], [y]);
      assert b' + [y] == b && a' + [x] == a;
      script := s + [last];
    }
  }

  lemma OneEdit<T>(x: T, y: T)
    ensures Turns([Insert(y)], [], [y]) && Cost<T>([Insert(y)]) == 1
    ensures Turns([Delete], [x], []) && Cost<T>([Delete]) == 1
    ensures Turns([Replace(y)], [x], [y]) && Cost<T>([Replace(y)]) == 1
    ensures x == y ==> Turns([Keep], [x], [y])
    ensures Cost<T>([Keep]) == 0
  {
    assert [Insert(y)][1..] == [] && [y][1..] == [];
  }

  lemma LastLetters<T>(a: seq<T>, x: T, b: seq<T>, y: T)
    ensures Distance(a + [x], b + [y]) ==
      Min(Min(Distance(a, b + [y]) + 1, Distance(a + [x], b) + 1), Distance(a, b) + if x == y then 0 else 1)
  {
    assert (a + [x])[..|a|] == a && (b + [y])[..|b|] == b;
  }

  lemma NoLetters<T>(a: seq<T>, b: seq<T>)
    ensures Distance(a, []) == |a| && Distance([], b) == |b|
  {
  }

  ghost predicate FrontIsCheap<T>(x: T, y: T, a: seq<T>, b: seq<T>) {
    && Distance([x] + a, b) <= Distance(a, b) + 1
    && Distance(a, [y] + b) <= Distance(a, b) + 1
    && Distance([x] + a, [y] + b) <= Distance(a, b) + if x == y then 0 else 1
  }

  lemma Shifted<T>(x: T, a: seq<T>, p: T)
    ensures [x] + (a + [p]) == ([x] + a) + [p]
  {
  }

  lemma FrontBeforeBoth<T>(x: T, y: T, a: seq<T>, p: T, b: seq<T>, q: T)
    requires FrontIsCheap(x, y, a, b + [q]) && FrontIsCheap(x, y, a + [p], b) && FrontIsCheap(x, y, a, b)
    ensures FrontIsCheap(x, y, a + [p], b + [q])
  {
    hide Distance;
    Shifted(x, a, p);
    Shifted(y, b, q);
    LastLetters(a, p, b, q);
    LastLetters([x] + a, p, b, q);
    LastLetters(a, p, [y] + b, q);
    LastLetters([x] + a, p, [y] + b, q);
  }

  lemma FrontBeforeRight<T>(x: T, y: T, b: seq<T>, q: T)
    requires FrontIsCheap(x, y, [], b)
    ensures FrontIsCheap(x, y, [], b + [q])
  {
    hide Distance;
    Shifted(y, b, q);
    assert [] + [x] == [x] == [x] + [];
    LastLetters([], x, b, q);
    LastLetters([], x, [y] + b, q);
    NoLetters([x], b + [q]);
    NoLetters([x], b);
    NoLetters([x], [y] + b);
    NoLetters([x], [y] + (b + [q]));
  }

  lemma FrontBeforeLeft<T>(x: T, y: T, a: seq<T>, p: T)
    requires FrontIsCheap(x, y, a, [])
    ensures FrontIsCheap(x, y, a + [p], [])
  {
    hide Distance;
    Shifted(x, a, p);
    assert [] + [y] == [y] == [y] + [];
    LastLetters(a, p, [], y);
    LastLetters([x] + a, p, [], y);
    NoLetters(a + [p], [y]);
    NoLetters(a, [y]);
    NoLetters([x] + a, [y]);
    NoLetters([x] + (a + [p]), [y]);
  }

  lemma FrontAlone<T>(x: T, y: T)
    ensures FrontIsCheap(x, y, [], [])
  {
    assert [x] + [] == [x] && [y] + [] == [y] && [x][..0] == [] && [y][..0] == [];
  }

  /** A common letter in front changes nothing, and any other one at most one. */
  lemma {:induction false} FrontLetter<T>(x: T, y: T, a: seq<T>, b: seq<T>)
    ensures Distance([x] + a, b) <= Distance(a, b) + 1
    ensures Distance(a, [y] + b) <= Distance(a, b) + 1
    ensures Distance([x] + a, [y] + b) <= Distance(a, b) + if x == y then 0 else 1
    decreases |a| + |b|
  {
    hide Distance;
    var a', b' := if a == [] then a else a[..|a| - 1], if b == [] then b else b[..|b| - 1];
    assert a != [] ==> a == a' + [a[|a| - 1]];
    assert b != [] ==> b == b' + [b[|b| - 1]];
    if a == [] && b == [] {
      FrontAlone(x, y);
    } else if a == [] {
      FrontLetter(x, y, a, b');
      FrontBeforeRight(x, y, b', b[|b| - 1]);
    } else if b == [] {
      FrontLetter(x, y, a', b);
      FrontBeforeLeft(x, y, a', a[|a| - 1]);
    } else {
      FrontLetter(x, y, a', b);
      FrontLetter(x, y, a, b');
      FrontLetter(x, y, a', b');
      FrontBeforeBoth(x, y, a', a[|a| - 1], b', b[|b| - 1]);
    }
  }

  /** No script is cheaper. */
  lemma {:induction false} DistanceIsLeast<T>(script: seq<Edit<T>>, a: seq<T>, b: seq<T>)
    requires Turns(script, a, b)
    ensures Distance(a, b) <= Cost(script)
    decreases |script|
  {
    if script != [] {
      match script[0]
      case Insert(y) =>
        DistanceIsLeast(script[1..], a, b[1..]);
        FrontLetter(y, y, a, b[1..]);
        assert b == [y] + b[1..];
      case Delete =>
        DistanceIsLeast(script[1..], a[1..], b);
        FrontLetter(a[0], a[0], a[1..], b);
        assert a == [a[0]] + a[1..];
      case _ =>
        DistanceIsLeast(script[1..], a[1..], b[1..]);
        FrontLetter(a[0], b[0], a[1..], b[1..]);
        assert a == [a[0]] + a[1..] && b == [b[0]] + b[1..];
    }
  }

  // -------------------------------------------------------------- the tables

  /** A row of the table: the distances of a to the beginnings of b, the first n. */
  ghost predicate IsRow<T>(row: seq<nat>, a: seq<T>, b: seq<T>, n: nat)
    requires n <= |b| + 1
  {
    n <= |row| && forall j :: 0 <= j < n ==> row[j] == Distance(a, b[..j])
  }

  lemma FirstRow<T>(row: seq<nat>, a: seq<T>, b: seq<T>)
    requires |row| == |b| + 1 && forall j :: 0 <= j <= |b| ==> row[j] == j
    ensures IsRow(row, a[..0], b, |b| + 1)
  {
    assert a[..0] == [];
  }

  lemma Cell<T>(row: seq<nat>, a: seq<T>, b: seq<T>, n: nat, j: nat)
    requires n <= |b| + 1 && IsRow(row, a, b, n) && j < n
    ensures j < |row| && row[j] == Distance(a, b[..j])
  {
  }

  lemma CellSet<T>(row: seq<nat>, now: seq<nat>, a: seq<T>, b: seq<T>, j: nat)
    requires j <= |b| && |row| == |b| + 1 && (j > 0 ==> IsRow(row, a, b, j)) && now == row[j := Distance(a, b[..j])]
    ensures IsRow(now, a, b, j + 1)
  {
  }

  lemma NextCell<T>(a: seq<T>, b: seq<T>, i: nat, j: nat)
    requires 1 <= i <= |a| && 1 <= j <= |b|
    ensures Distance(a[..i], b[..j]) ==
      Min(Min(Distance(a[..i - 1], b[..j]) + 1, Distance(a[..i], b[..j - 1]) + 1),
          Distance(a[..i - 1], b[..j - 1]) + if a[i - 1] == b[j - 1] then 0 else 1)
  {
    hide Distance;
    assert a[..i] == a[..i - 1] + [a[i - 1]] && b[..j] == b[..j - 1] + [b[j - 1]];
    LastLetters(a[..i - 1], a[i - 1], b[..j - 1], b[j - 1]);
  }

  lemma FirstCell<T>(a: seq<T>, b: seq<T>, i: nat)
    requires i <= |a|
    ensures Distance(a[..i], b[..0]) == i
  {
    assert b[..0] == [];
  }

  /** editDistance: a fresh row for each letter of a. */
  method FreshRows<T(==)>(a: seq<T>, b: seq<T>) returns (d: nat)
    ensures d == Distance(a, b)
  {
    var prev := new nat[|b| + 1](j => j);
    hide Distance, IsRow;
    FirstRow(prev[..], a, b);
    for i: nat := 1 to |a| + 1
      invariant fresh(prev) && prev.Length == |b| + 1 && IsRow(prev[..], a[..i - 1], b, |b| + 1)
    {
      prev := FreshRow(a, b, i, prev);
    }
    assert a[..|a|] == a && b[..|b|] == b;
    Cell(prev[..], a, b, |b| + 1, |b|);
    d := prev[|b|];
  }

  method FreshRow<T(==)>(a: seq<T>, b: seq<T>, i: nat, prev: array<nat>) returns (cur: array<nat>)
    requires 1 <= i <= |a| && prev.Length == |b| + 1 && IsRow(prev[..], a[..i - 1], b, |b| + 1)
    ensures fresh(cur) && cur.Length == |b| + 1 && IsRow(cur[..], a[..i], b, |b| + 1)
  {
    hide Distance, IsRow;
    cur := new nat[|b| + 1];
    ghost var blank := cur[..];
    cur[0] := i;
    FirstCell(a, b, i);
    assert cur[..] == blank[0 := i];
    CellSet(blank, cur[..], a[..i], b, 0);
    ghost var fixed := prev[..];
    for j := 1 to |b| + 1
      invariant prev[..] == fixed && cur.Length == |b| + 1 && IsRow(cur[..], a[..i], b, j)
    {
      var cost := if a[i - 1] == b[j - 1] then 0 else 1;
      NextCell(a, b, i, j);
      Cells(prev[..], cur[..], a, b, i, j);
      ghost var was := cur[..];
      cur[j] := Min(Min(prev[j] + 1, cur[j - 1] + 1), prev[j - 1] + cost);
      assert cur[..] == was[j := cur[j]];
      CellSet(was, cur[..], a[..i], b, j);
    }
  }

  /** The three cells a new one is made of. */
  lemma Cells<T>(prev: seq<nat>, cur: seq<nat>, a: seq<T>, b: seq<T>, i: nat, j: nat)
    requires 1 <= i <= |a| && 1 <= j <= |b|
    requires IsRow(prev, a[..i - 1], b, |b| + 1) && IsRow(cur, a[..i], b, j)
    ensures |b| < |prev| && j <= |cur|
    ensures prev[j] == Distance(a[..i - 1], b[..j]) && prev[j - 1] == Distance(a[..i - 1], b[..j - 1])
    ensures cur[j - 1] == Distance(a[..i], b[..j - 1])
  {
  }

  /** levenshtein: two rows that change places. */
  method SwappedRows<T(==)>(a: seq<T>, b: seq<T>) returns (d: nat)
    ensures d == Distance(a, b)
  {
    if |a| == 0 {
      return |b|;
    }
    if |b| == 0 {
      return |a|;
    }
    var prev := new nat[|b| + 1];
    var curr := new nat[|b| + 1];
    for j := 0 to |b| + 1
      invariant forall k :: 0 <= k < j ==> prev[k] == k
    {
      prev[j] := j;
    }
    d := SwapRows(a, b, prev, curr);
  }

  method SwapRows<T(==)>(a: seq<T>, b: seq<T>, first: array<nat>, second: array<nat>) returns (d: nat)
    requires first != second && first.Length == second.Length == |b| + 1
    requires forall k :: 0 <= k <= |b| ==> first[k] == k
    modifies first, second
    ensures d == Distance(a, b)
  {
    hide Distance, IsRow;
    var prev, curr := first, second;
    FirstRow(prev[..], a, b);
    for i: nat := 1 to |a| + 1
      invariant {prev, curr} == {first, second} && prev != curr && prev.Length == curr.Length == |b| + 1
      invariant IsRow(prev[..], a[..i - 1], b, |b| + 1)
    {
      ghost var blank := curr[..];
      curr[0] := i;
      FirstCell(a, b, i);
      assert curr[..] == blank[0 := i];
      CellSet(blank, curr[..], a[..i], b, 0);
      ghost var fixed := prev[..];
      for j := 1 to |b| + 1
        invariant prev[..] == fixed && IsRow(curr[..], a[..i], b, j)
      {
        var cost := if a[i - 1] == b[j - 1] then 0 else 1;
        NextCell(a, b, i, j);
        Cells(prev[..], curr[..], a, b, i, j);
        ghost var was := curr[..];
        curr[j] := Min(curr[j - 1] + 1, Min(prev[j] + 1, prev[j - 1] + cost));
        assert curr[..] == was[j := curr[j]];
        CellSet(was, curr[..], a[..i], b, j);
      }
      prev, curr := curr, prev;
    }
    assert a[..|a|] == a && b[..|b|] == b;
    Cell(prev[..], a, b, |b| + 1, |b|);
    d := prev[|b|];
  }

  // ------------------------------------------------------- runes and bytes

  /** The bytes of a text's runes in UTF-8. */
  function Utf8(runes: seq<nat>): seq<nat> {
    if runes == [] then [] else
      var r := runes[0];
      (if r < 0x80 then [r]
       else if r < 0x800 then [0xC0 + r / 64, 0x80 + r % 64]
       else if r < 0x1_0000 then [0xE0 + r / 4096, 0x80 + r / 64 % 64, 0x80 + r % 64]
       else [0xF0 + r / 262144, 0x80 + r / 4096 % 64, 0x80 + r / 64 % 64, 0x80 + r % 64]) + Utf8(runes[1..])
  }

  lemma {:induction false} AsciiIsItsBytes(runes: seq<nat>)
    requires forall r <- runes :: r < 0x80
    ensures Utf8(runes) == runes
  {
    if runes != [] {
      assert forall r <- runes[1..] :: r in runes;
      AsciiIsItsBytes(runes[1..]);
      assert runes[0] in runes && runes == [runes[0]] + runes[1..];
    }
  }

  /** One table reads runes and the other bytes; on ASCII they give one distance. */
  lemma TablesAgreeOnAscii(a: seq<nat>, b: seq<nat>)
    requires (forall r <- a :: r < 0x80) && forall r <- b :: r < 0x80
    ensures Distance(Utf8(a), Utf8(b)) == Distance(a, b)
  {
    AsciiIsItsBytes(a);
    AsciiIsItsBytes(b);
  }

  /** Beyond ASCII they need not: e with an acute accent against e is one rune's change
      and two bytes' change. */
  lemma TablesDifferBeyondAscii()
    ensures Distance([0xE9], [0x65]) == 1 && Distance(Utf8([0xE9]), Utf8([0x65])) == 2
  {
    assert Utf8([0xE9]) == [0xC3, 0xA9] && Utf8([0x65]) == [0x65];
    OneLetter(0xE9, 0x65);
    OneLetter(0xC3, 0x65);
    var two: seq<nat>, e: seq<nat> := [0xC3, 0xA9], [0x65];
    assert two[..1] == [0xC3] && e[..0] == [];
    assert Distance(two, []) == 2 && Distance([0xC3], []) == 1;
  }

  lemma OneLetter(x: nat, y: nat)
    requires x != y
    ensures Distance([x], [y]) == 1
  {
    assert [x][..0] == [] && [y][..0] == [];
    assert Distance<nat>([], []) == 0;
  }
}
