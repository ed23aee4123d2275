/** The behaviors written in one block, turned into the subtest tree go test will
    produce for them, and folded back into the names it reports. */
module BehaviorNames {

  /** A node of the tree. An implied one is a level no call declares. */
  datatype Behavior = Behavior(name: string, kind: nat, line: nat, implied: bool, children: seq<Behavior>)

  // -------------------------------------------------------------- segments

  /** A slash with no slash beside it. */
  predicate IsSeparator(s: string, i: nat)
    requires i < |s|
  {
    s[i] == '/' && (i + 1 >= |s| || s[i + 1] != '/') && (i == 0 || s[i - 1] != '/')
  }

  predicate EndsInSeparator(s: string) {
    s != "" && IsSeparator(s, |s| - 1)
  }

  /** The segments from the i-th character on, with what was read of the current one. */
  function SplitFrom(s: string, i: nat, cur: string): seq<string>
    requires i <= |s|
    decreases |s| - i
  {
    if i == |s| then if cur != "" then [cur] else []
    else if IsSeparator(s, i) then [cur] + SplitFrom(s, i + 1, "")
    else SplitFrom(s, i + 1, cur + [s[i]])
  }

  method SplitTestPath(path: string) returns (segments: seq<string>)
    ensures segments == SplitFrom(path, 0, "")
  {
    segments := [];
    var cur := "";
    for i := 0 to |path|
      invariant segments + SplitFrom(path, i, cur) == SplitFrom(path, 0, "")
    {
      if path[i] == '/' && (i + 1 >= |path| || path[i + 1] != '/') && (i == 0 || path[i - 1] != '/') {
        assert segments + ([cur] + SplitFrom(path, i + 1, "")) == segments + [cur] + SplitFrom(path, i + 1, "");
        segments := segments + [cur];
        cur := "";
      } else {
        cur := cur + [path[i]];
      }
    }
    if |cur| > 0 {
      segments := segments + [cur];
    }
  }

  function Join(segments: seq<string>): string {
    if segments == [] then "" else if |segments| == 1 then segments[0] else segments[0] + "/" + Join(segments[1..])
  }

  /** Joining undoes splitting, but for a separator at the end. */
  lemma {:induction false} SplitJoins(s: string, i: nat, cur: string)
    requires i < |s| || (i == |s| && cur != "")
    ensures var r, text := SplitFrom(s, i, cur), cur + s[i..];
      r != [] && Join(r) == if i < |s| && EndsInSeparator(s) then text[..|text| - 1] else text
    decreases |s| - i
  {
    if i < |s| && IsSeparator(s, i) {
      if i + 1 < |s| {
        SplitJoins(s, i + 1, "");
        assert "" + s[i + 1..] == s[i + 1..];
        JoinMore(cur, SplitFrom(s, i + 1, ""));
        CutJoined(s, i, cur);
      } else {
        assert SplitFrom(s, i, cur) == [cur] && (cur + s[i..])[..|cur|] == cur;
      }
    } else if i < |s| {
      SplitJoins(s, i + 1, cur + [s[i]]);
      assert cur + [s[i]] + s[i + 1..] == cur + s[i..];
    }
  }

  lemma JoinMore(cur: string, rest: seq<string>)
    requires rest != []
    ensures Join([cur] + rest) == cur + "/" + Join(rest)
  {
    assert ([cur] + rest)[1..] == rest;
  }

  lemma CutJoined(s: string, i: nat, cur: string)
    requires i + 1 < |s| && s[i] == '/'
    ensures cur + "/" + s[i + 1..] == cur + s[i..]
    ensures cur + "/" + s[i + 1..][..|s| - i - 2] == (cur + s[i..])[..|cur| + |s| - i - 1]
  {
    assert s[i..] == "/" + s[i + 1..];
  }

  /** What was read of a segment: the text before i from the last separator on. */
  ghost predicate ReadOf(s: string, i: nat, cur: string) {
    i <= |s| && exists k: nat :: StartsAt(s, i, cur, k)
  }

  ghost predicate StartsAt(s: string, i: nat, cur: string, k: nat)
    requires i <= |s|
  {
    && k <= i && cur == s[k..i] && (k == 0 || IsSeparator(s, k - 1))
    && forall j :: k <= j < i ==> !IsSeparator(s, j)
  }

  /** A segment holds no slash that stands alone. */
  lemma {:induction false} SegmentsAreWhole(s: string, i: nat, cur: string)
    requires ReadOf(s, i, cur)
    ensures forall p <- SplitFrom(s, i, cur) :: forall k :: 0 <= k < |p| ==> !IsSeparator(p, k)
    decreases |s| - i
  {
    var k: nat :| StartsAt(s, i, cur, k);
    if i == |s| || IsSeparator(s, i) {
      PieceIsWhole(s, k, i);
    }
    if i < |s| {
      if IsSeparator(s, i) {
        assert StartsAt(s, i + 1, "", i + 1);
        SegmentsAreWhole(s, i + 1, "");
      } else {
        assert cur + [s[i]] == s[k..i + 1];
        assert StartsAt(s, i + 1, cur + [s[i]], k);
        SegmentsAreWhole(s, i + 1, cur + [s[i]]);
      }
    }
  }

  lemma PieceIsWhole(s: string, k: nat, i: nat)
    requires k <= i <= |s| && (k == 0 || IsSeparator(s, k - 1)) && (i == |s| || IsSeparator(s, i))
    requires forall j :: k <= j < i ==> !IsSeparator(s, j)
    ensures forall j :: 0 <= j < i - k ==> !IsSeparator(s[k..i], j)
  {
    var p := s[k..i];
    forall j | 0 <= j < |p| ensures !IsSeparator(p, j) {
      assert p[j] == s[k + j] && !IsSeparator(s, k + j);
      assert j + 1 < |p| ==> p[j + 1] == s[k + j + 1];
      assert j + 1 == |p| && i < |s| ==> s[i] == '/' && s[i - 1] != '/' && i - 1 == k + j;
      assert j > 0 ==> p[j - 1] == s[k + j - 1];
      assert k > 0 ==> s[k - 1 + 1] != '/';
    }
  }

  /** How many segments follow: one for each separator, and one more for an ending. */
  lemma {:induction false} SegmentsMany(s: string, i: nat, cur: string)
    requires i <= |s|
    ensures |SplitFrom(s, i, cur)| > 1 ==> exists k :: i <= k < |s| && IsSeparator(s, k)
    ensures EndsInSeparator(s) && i < |s| ==> |SplitFrom(s, i, cur)| >= 1
    ensures EndsInSeparator(s) && i < |s|
      ==> (|SplitFrom(s, i, cur)| > 1 <==> exists k :: i <= k < |s| - 1 && IsSeparator(s, k))
    decreases |s| - i
  {
    if i < |s| {
      var next := if IsSeparator(s, i) then "" else cur + [s[i]];
      SegmentsMany(s, i + 1, next);
    }
  }

  /** A name that does not come back: it ends in a separator and has another. */
  predicate LosesSlash(name: string) {
    EndsInSeparator(name) && exists k :: 0 <= k < |name| - 1 && IsSeparator(name, k)
  }

  function SplitSegments(s: string): (segments: seq<string>) {
    var r := SplitFrom(s, 0, "");
    if r == [] then [s] else r
  }

  /** The name go test is expected to report for a name as written. */
  function Refolded(name: string): string {
    if LosesSlash(name) then name[..|name| - 1] else name
  }

  lemma SegmentsRefold(name: string)
    ensures var segments := SplitSegments(name);
      && segments != []
      && (|segments| > 1 ==> Join(segments) == Refolded(name))
      && (|segments| <= 1 ==> Refolded(name) == name)
  {
    if name != "" {
      SplitJoins(name, 0, "");
      SegmentsMany(name, 0, "");
      assert "" + name[0..] == name;
    }
  }

  // ------------------------------------------------------------- the names

  function Digits(n: nat): string {
    if n < 10 then [('0' as int + n) as char] else Digits(n / 10) + [('0' as int + n % 10) as char]
  }

  /** #01, #02 and so on. */
  function Suffix(n: nat): string {
    "#" + if n < 10 then "0" + Digits(n) else Digits(n)
  }

  function Count(names: seq<string>, name: string): nat {
    if names == [] then 0 else Count(names[..|names| - 1], name) + if names[|names| - 1] == name then 1 else 0
  }

  function NamesOf(bs: seq<Behavior>): (names: seq<string>)
    ensures |names| == |bs| && forall i :: 0 <= i < |bs| ==> names[i] == bs[i].name
  {
    seq(|bs|, i requires 0 <= i < |bs| => bs[i].name)
  }

  /** The name with the suffix it gets after those before it, uniquified as written. */
  function Unique(before: seq<string>, name: string): string {
    var n := Count(before, name);
    if n > 0 then name + Suffix(n) else name
  }

  function Uniques(names: seq<string>): (us: seq<string>)
    ensures |us| == |names|
  {
    if names == [] then [] else
      var before := names[..|names| - 1];
      Uniques(before) + [Unique(before, names[|names| - 1])]
  }

  // when the names differ

  predicate IsDigit(c: char) {
    '0' <= c <= '9'
  }

  /** The number a string of digits stands for. */
  function Number(s: string): nat {
    if s == "" then 0 else
      var c := s[|s| - 1];
      10 * Number(s[..|s| - 1]) + if IsDigit(c) then c as int - '0' as int else 0
  }

  lemma {:induction false} DigitsIs(n: nat)
    ensures Digits(n) != "" && (forall c <- Digits(n) :: IsDigit(c)) && Number(Digits(n)) == n
    decreases n
  {
    var s := Digits(n);
    if n < 10 {
      assert s[..0] == "";
    } else {
      DigitsIs(n / 10);
      assert s[..|s| - 1] == Digits(n / 10);
    }
  }

  /** A suffix is a # and the number in digits, two at least. */
  lemma SuffixIs(n: nat)
    ensures var s := Suffix(n);
      |s| >= 3 && s[0] == '#' && (forall c <- s[1..] :: IsDigit(c)) && Number(s[1..]) == n
    ensures |Suffix(n)| > 3 ==> n > 9
  {
    DigitsIs(n);
    var d := Digits(n);
    if n < 10 {
      assert ("0" + d)[..1] == "0" && "0"[..0] == "";
    } else {
      assert |d| == |Digits(n / 10)| + 1;
      DigitsIs(n / 10);
      assert Suffix(n)[1..] == d;
    }
  }

  /** Names and their suffixes can be told apart. */
  lemma SuffixesSplit(a: string, m: nat, b: string, n: nat)
    requires a + Suffix(m) == b + Suffix(n)
    ensures a == b && m == n
  {
    SuffixIs(m);
    SuffixIs(n);
    LastHashIs(a, Suffix(m));
    LastHashIs(b, Suffix(n));
    var s := a + Suffix(m);
    assert a == s[..|a|] && b == s[..|b|] && Suffix(m) == s[|a|..] && Suffix(n) == s[|b|..];
  }

  /** Where the last # stands. */
  function LastHash(s: string): nat {
    if s == "" then 0 else if s[|s| - 1] == '#' then |s| - 1 else LastHash(s[..|s| - 1])
  }

  lemma {:induction false} LastHashIs(a: string, x: string)
    requires x != "" && x[0] == '#' && forall c <- x[1..] :: IsDigit(c)
    ensures LastHash(a + x) == |a|
    decreases |x|
  {
    if |x| > 1 {
      var n := |x| - 1;
      assert x[1..][n - 1] == x[n] && IsDigit(x[n]) && (a + x)[|a| + n] == x[n] && (a + x)[..|a| + n] == a + x[..n];
      assert forall i :: 0 < i < n ==> x[i] == x[1..][i - 1];
      LastHashIs(a, x[..n]);
    }
  }

  lemma {:induction false} UniquesAre(names: seq<string>, i: nat)
    requires i < |names|
    ensures Uniques(names)[i] == Unique(names[..i], names[i])
  {
    var n := |names| - 1;
    if i < n {
      UniquesAre(names[..n], i);
      assert names[..n][..i] == names[..i];
    }
  }

  lemma {:induction false} CountRises(names: seq<string>, i: nat, j: nat)
    requires i < j <= |names|
    ensures Count(names[..i], names[i]) < Count(names[..j], names[i])
  {
    assert names[..j][..j - 1] == names[..j - 1];
    if i < j - 1 {
      CountRises(names, i, j - 1);
    }
  }

  lemma {:induction false} CountedIsThere(names: seq<string>, name: string)
    ensures Count(names, name) > 0 <==> name in names
  {
    if names != [] {
      var n := |names| - 1;
      CountedIsThere(names[..n], name);
      assert names == names[..n] + [names[n]];
    }
  }

  /** The n-th of several with the name, counted from 0. */
  lemma {:induction false} NthIsThere(names: seq<string>, name: string, n: nat) returns (i: nat)
    requires n < Count(names, name)
    ensures i < |names| && names[i] == name && Count(names[..i], name) == n
  {
    var k := |names| - 1;
    if n < Count(names[..k], name) {
      i := NthIsThere(names[..k], name, n);
      assert names[..k][..i] == names[..i];
    } else {
      i := k;
    }
  }

  /** A name is written that another gets with a suffix. */
  ghost predicate Clashes(names: seq<string>) {
    exists a, n :: 0 < n < Count(names, a) && a + Suffix(n) in names
  }

  ghost predicate Distinct(names: seq<string>) {
    forall i, j :: 0 <= i < j < |names| ==> names[i] != names[j]
  }

  /** The uniquified siblings all differ exactly when no name is written as another comes
      out with its suffix. */
  lemma UniquesDifferIff(names: seq<string>)
    ensures Distinct(Uniques(names)) <==> !Clashes(names)
  {
    hide Suffix, Uniques;
    if a, n :| 0 < n < Count(names, a) && a + Suffix(n) in names {
      ClashIsTwice(names, a, n);
    }
    forall i, j | 0 <= i < j < |names| && !Clashes(names) ensures Uniques(names)[i] != Uniques(names)[j] {
      UniquesAre(names, i);
      UniquesAre(names, j);
      TwoDiffer(names, i, j);
    }
  }

  lemma ClashIsTwice(names: seq<string>, a: string, n: nat)
    requires 0 < n < Count(names, a) && a + Suffix(n) in names
    ensures !Distinct(Uniques(names))
  {
    hide Suffix, Uniques;
    var b := a + Suffix(n);
    CountedIsThere(names, b);
    var i := NthIsThere(names, b, 0);
    var j := NthIsThere(names, a, n);
    UniquesAre(names, i);
    UniquesAre(names, j);
    SuffixIs(n);
    assert |names[i]| > |names[j]|;
  }

  lemma TwoDiffer(names: seq<string>, i: nat, j: nat)
    requires i < j < |names| && !Clashes(names)
    ensures Unique(names[..i], names[i]) != Unique(names[..j], names[j])
  {
    hide Suffix, Clashes;
    var a, b := names[i], names[j];
    var m, n := Count(names[..i], a), Count(names[..j], b);
    if a == b {
      CountRises(names, i, j);
      SuffixIs(n);
      if m > 0 && a + Suffix(m) == b + Suffix(n) {
        SuffixesSplit(a, m, b, n);
      }
    } else {
      if m > 0 && n > 0 && a + Suffix(m) == b + Suffix(n) {
        SuffixesSplit(a, m, b, n);
      }
      NoClash(names, i, j);
      NoClash(names, j, i);
    }
  }

  lemma NoClash(names: seq<string>, i: nat, j: nat)
    requires i < |names| && j < |names| && !Clashes(names)
    ensures var m := Count(names[..i], names[i]); m > 0 ==> names[i] + Suffix(m) != names[j]
  {
    CountRises(names, i, |names|);
    assert names[..|names|] == names && names[j] in names;
    hide Suffix;
  }

  /** Two siblings a and one a#01 come out alike. */
  lemma SuffixedTwice()
    ensures Suffix(1) == "#01" && !Distinct(Uniques(["a", "a", "a#01"]))
  {
    hide Uniques, Distinct;
    var names := ["a", "a", "a#01"];
    assert Count(names, "a") == 2 by {
      assert names[..2] == ["a", "a"] && ["a", "a"][..1] == ["a"] && ["a"][..0] == [];
    }
    assert "a" + Suffix(1) == names[2];
    ClashIsTwice(names, "a", 1);
  }

  // -------------------------------------------------------------- the tree

  /** The first implied node of a name, or the length. */
  function FirstImplied(out: seq<Behavior>, head: string): (i: nat)
    ensures i <= |out| && (i < |out| ==> out[i].name == head && out[i].implied)
  {
    if out == [] then 0
    else if out[0].name == head && out[0].implied then 0
    else FirstImplied(out[1..], head) + 1
  }

  const WHEN: nat := 0

  function Insert(out: seq<Behavior>, segments: seq<string>, leaf: Behavior): seq<Behavior>
    decreases |segments|
  {
    if |segments| <= 1 then out + [leaf] else
      var rest := segments[1..];
      var named := if |rest| == 1 then leaf.(name := rest[0]) else leaf;
      var i := FirstImplied(out, segments[0]);
      if i < |out| then out[i := out[i].(children := Insert(out[i].children, rest, named))]
      else out + [Behavior(segments[0], WHEN, leaf.line, true, Insert([], rest, named))]
  }

  function Resolved(bs: seq<Behavior>): seq<Behavior> {
    if bs == [] then [] else
      var before, b := bs[..|bs| - 1], bs[|bs| - 1];
      var name := Unique(NamesOf(before), b.name);
      Insert(Resolved(before), SplitSegments(name), b.(name := name))
  }

  function Under(name: string, bs: seq<Behavior>): (r: seq<Behavior>)
    ensures |r| == |bs|
  {
    seq(|bs|, i requires 0 <= i < |bs| => bs[i].(name := name + "/" + bs[i].name))
  }

  /** Each implied level folded back into the names beneath it. */
  function Reported(bs: seq<Behavior>): seq<Behavior> {
    if bs == [] then [] else
      (if !bs[0].implied then [bs[0]] else Under(bs[0].name, Reported(bs[0].children))) + Reported(bs[1..])
  }

  // ------------------------------------------------------- levels are shared

  /** No two implied siblings have one name, at any level made by splitting. */
  ghost predicate Grouped(bs: seq<Behavior>) {
    && (forall i, j :: 0 <= i < j < |bs| && bs[i].implied && bs[j].implied ==> bs[i].name != bs[j].name)
    && (forall b <- bs :: b.implied ==> Grouped(b.children))
  }

  lemma {:induction false} FirstImpliedIs(out: seq<Behavior>, head: string)
    ensures forall j :: 0 <= j < FirstImplied(out, head) ==> !(out[j].implied && out[j].name == head)
  {
    if out != [] && !(out[0].name == head && out[0].implied) {
      FirstImpliedIs(out[1..], head);
      assert forall j :: 0 < j < |out| ==> out[j] == out[1..][j - 1];
    }
  }

  lemma {:induction false} InsertKeepsGroups(out: seq<Behavior>, segments: seq<string>, leaf: Behavior)
    requires Grouped(out) && !leaf.implied
    ensures Grouped(Insert(out, segments, leaf))
    decreases |segments|
  {
    if |segments| > 1 {
      var rest := segments[1..];
      var named := if |rest| == 1 then leaf.(name := rest[0]) else leaf;
      var i := FirstImplied(out, segments[0]);
      FirstImpliedIs(out, segments[0]);
      if i < |out| {
        InsertKeepsGroups(out[i].children, rest, named);
        OneGroupChanged(out, i, Insert(out[i].children, rest, named));
      } else {
        InsertKeepsGroups([], rest, named);
        OneMoreBehavior(out, Behavior(segments[0], WHEN, leaf.line, true, Insert([], rest, named)));
      }
    } else {
      OneMoreBehavior(out, leaf);
    }
  }

  lemma OneGroupChanged(out: seq<Behavior>, i: nat, children: seq<Behavior>)
    requires Grouped(out) && i < |out| && Grouped(children)
    ensures Grouped(out[i := out[i].(children := children)])
  {
  }

  lemma OneMoreBehavior(out: seq<Behavior>, b: Behavior)
    requires Grouped(out) && (b.implied ==> Grouped(b.children))
    requires b.implied ==> forall j :: 0 <= j < |out| ==> !(out[j].implied && out[j].name == b.name)
    ensures Grouped(out + [b])
  {
  }

  /** Siblings that share their first segments share the levels made for them. */
  lemma {:induction false} LevelsAreShared(bs: seq<Behavior>)
    requires forall b <- bs :: !b.implied
    ensures Grouped(Resolved(bs))
  {
    if bs != [] {
      var before, b := bs[..|bs| - 1], bs[|bs| - 1];
      LevelsAreShared(before);
      var name := Unique(NamesOf(before), b.name);
      InsertKeepsGroups(Resolved(before), SplitSegments(name), b.(name := name));
    }
  }

  // ---------------------------------------------------------- the fold back

  /** s with x put in at place j. */
  function With<T>(s: seq<T>, j: nat, x: T): seq<T>
    requires j <= |s|
  {
    s[..j] + [x] + s[j..]
  }

  lemma {:induction false} ReportedOfBoth(a: seq<Behavior>, b: seq<Behavior>)
    ensures Reported(a + b) == Reported(a) + Reported(b)
    decreases |a|
  {
    if a == [] {
      assert a + b == b;
    } else {
      assert (a + b)[1..] == a[1..] + b;
      ReportedOfBoth(a[1..], b);
    }
  }

  lemma ReportedOfOne(b: Behavior)
    ensures Reported([b]) == if b.implied then Under(b.name, Reported(b.children)) else [b]
  {
    assert Reported([]) == [];
  }

  lemma UnderWith(name: string, bs: seq<Behavior>, j: nat, x: Behavior)
    requires j <= |bs|
    ensures Under(name, With(bs, j, x)) == With(Under(name, bs), j, x.(name := name + "/" + x.name))
  {
  }

  /** What an insertion reports: what was there, and the leaf under its whole name. */
  lemma {:induction false} InsertReports(out: seq<Behavior>, segments: seq<string>, leaf: Behavior) returns (j: nat)
    requires segments != [] && !leaf.implied
    ensures j <= |Reported(out)|
    ensures Reported(Insert(out, segments, leaf))
         == With(Reported(out), j, if |segments| == 1 then leaf else leaf.(name := Join(segments)))
    decreases |segments|
  {
    if |segments| == 1 {
      j := |Reported(out)|;
      ReportedOfBoth(out, [leaf]);
      ReportedOfOne(leaf);
    } else {
      var rest := segments[1..];
      var named := if |rest| == 1 then leaf.(name := rest[0]) else leaf;
      var i := FirstImplied(out, segments[0]);
      if i < |out| {
        var k := InsertReports(out[i].children, rest, named);
        var leaf := if |rest| == 1 then named else named.(name := Join(rest));
        j := NodeReports(out, i, Insert(out[i].children, rest, named), k, leaf);
      } else {
        var k := InsertReports([], rest, named);
        var node := Behavior(segments[0], WHEN, leaf.line, true, Insert([], rest, named));
        ReportedOfBoth(out, [node]);
        ReportedOfOne(node);
        UnderWith(segments[0], Reported([]), k, if |rest| == 1 then named else named.(name := Join(rest)));
        j := |Reported(out)|;
      }
    }
  }

  lemma NodeReports(out: seq<Behavior>, i: nat, children: seq<Behavior>, k: nat, x: Behavior) returns (j: nat)
    requires i < |out| && out[i].implied
    requires k <= |Reported(out[i].children)| && Reported(children) == With(Reported(out[i].children), k, x)
    ensures j <= |Reported(out)|
    ensures Reported(out[i := out[i].(children := children)])
         == With(Reported(out), j, x.(name := out[i].name + "/" + x.name))
  {
    hide Reported, Under;
    var a, b := out[..i], out[i + 1..];
    var node := out[i].(children := children);
    assert out == a + ([out[i]] + b) && out[i := node] == a + ([node] + b);
    ReportedAround(a, out[i], b);
    ReportedAround(a, node, b);
    UnderWith(out[i].name, Reported(out[i].children), k, x);
    j := |Reported(a)| + k;
    var was := Under(out[i].name, Reported(out[i].children));
    WithInside(Reported(a), was, Reported(b), k, x.(name := out[i].name + "/" + x.name));
  }

  lemma ReportedAround(a: seq<Behavior>, node: Behavior, b: seq<Behavior>)
    requires node.implied
    ensures Reported(a + ([node] + b)) == Reported(a) + Under(node.name, Reported(node.children)) + Reported(b)
  {
    ReportedOfBoth(a, [node] + b);
    ReportedOfBoth([node], b);
    ReportedOfOne(node);
  }

  lemma WithInside<T>(a: seq<T>, m: seq<T>, b: seq<T>, k: nat, x: T)
    requires k <= |m|
    ensures a + With(m, k, x) + b == With(a + m + b, |a| + k, x)
  {
  }

  /** The declared behaviors under the names they are reported by. */
  function Expected(bs: seq<Behavior>): seq<Behavior> {
    if bs == [] then [] else
      var before, b := bs[..|bs| - 1], bs[|bs| - 1];
      Expected(before) + [b.(name := Refolded(Unique(NamesOf(before), b.name)))]
  }

  /** Whatever the slashes and repeats, the tree reports each declared behavior once,
      with its own kind, line and children; only its name loses a final separator
      after another. */
  lemma {:induction false} EachIsReported(bs: seq<Behavior>)
    requires forall b <- bs :: !b.implied
    ensures multiset(Reported(Resolved(bs))) == multiset(Expected(bs))
    decreases |bs|
  {
    if bs != [] {
      var before, b := bs[..|bs| - 1], bs[|bs| - 1];
      EachIsReported(before);
      var name := Unique(NamesOf(before), b.name);
      var leaf := b.(name := name);
      SegmentsRefold(name);
      var j := InsertReports(Resolved(before), SplitSegments(name), leaf);
      hide Refolded, SplitSegments, Unique, Insert, Reported;
      assert leaf.(name := Refolded(name)) == b.(name := Refolded(name));
      OneMore(Reported(Resolved(before)), j, b.(name := Refolded(name)));
    }
  }

  lemma OneMore(s: seq<Behavior>, j: nat, x: Behavior)
    requires j <= |s|
    ensures multiset(With(s, j, x)) == multiset(s) + multiset{x} == multiset(s + [x])
  {
    assert s == s[..j] + s[j..];
  }

  function TotalLength(names: seq<string>): nat {
    if names == [] then 0 else TotalLength(names[..|names| - 1]) + |names[|names| - 1]|
  }

  lemma {:induction false} ExpectedNames(bs: seq<Behavior>)
    ensures NamesOf(Expected(bs)) == seq(|bs|, i requires 0 <= i < |bs| => Refolded(Uniques(NamesOf(bs))[i]))
    decreases |bs|
  {
    if bs != [] {
      var before, b := bs[..|bs| - 1], bs[|bs| - 1];
      ExpectedNames(before);
      assert NamesOf(bs)[..|before|] == NamesOf(before);
      var us := Uniques(NamesOf(bs));
      assert us == Uniques(NamesOf(before)) + [Unique(NamesOf(before), b.name)];
    }
  }

  function Dropped<T>(s: seq<T>, i: nat): (r: seq<T>)
    requires i < |s|
    ensures |r| == |s| - 1
  {
    s[..i] + s[i + 1..]
  }

  lemma DroppedIs<T>(s: seq<T>, i: nat)
    requires i < |s|
    ensures multiset(s) == multiset(Dropped(s, i)) + multiset{s[i]}
  {
    assert s == s[..i] + [s[i]] + s[i + 1..];
  }

  lemma CancelOne<T>(a: multiset<T>, b: multiset<T>, x: T)
    requires a + multiset{x} == b + multiset{x}
    ensures a == b
  {
    forall y ensures a[y] == b[y] {
      assert (a + multiset{x})[y] == (b + multiset{x})[y];
    }
  }

  lemma NamesOfDropped(b: seq<Behavior>, i: nat)
    requires i < |b|
    ensures NamesOf(Dropped(b, i)) == Dropped(NamesOf(b), i)
  {
  }

  /** Behaviors in another order have their names in another order. */
  lemma {:induction false} NamesPermute(a: seq<Behavior>, b: seq<Behavior>)
    requires multiset(a) == multiset(b)
    ensures multiset(NamesOf(a)) == multiset(NamesOf(b))
    decreases |a|
  {
    assert |multiset(a)| == |a| && |multiset(b)| == |b|;
    if a != [] {
      var n := |a| - 1;
      assert a[n] in multiset(b);
      var i :| 0 <= i < |b| && b[i] == a[n];
      DroppedIs(b, i);
      DroppedIs(a, n);
      assert Dropped(a, n) == a[..n];
      CancelOne(multiset(a[..n]), multiset(Dropped(b, i)), a[n]);
      hide Dropped;
      NamesPermute(a[..n], Dropped(b, i));
      assert NamesOf(a) == NamesOf(a[..n]) + [a[n].name];
      NamesOfDropped(b, i);
      DroppedIs(NamesOf(b), i);
    }
  }

  lemma {:induction false} LengthsPermute(a: seq<string>, b: seq<string>)
    requires multiset(a) == multiset(b)
    ensures TotalLength(a) == TotalLength(b)
    decreases |a|
  {
    assert |multiset(a)| == |a| && |multiset(b)| == |b|;
    if a != [] {
      var n := |a| - 1;
      assert a[n] in multiset(b);
      var i :| 0 <= i < |b| && b[i] == a[n];
      DroppedIs(b, i);
      DroppedIs(a, n);
      assert Dropped(a, n) == a[..n];
      CancelOne(multiset(a[..n]), multiset(Dropped(b, i)), a[n]);
      LengthsPermute(a[..n], Dropped(b, i));
      DroppedLength(b, i);
    }
  }

  lemma {:induction false} DroppedLength(s: seq<string>, i: nat)
    requires i < |s|
    ensures TotalLength(s) == TotalLength(Dropped(s, i)) + |s[i]|
    decreases |s|
  {
    var n := |s| - 1;
    if i == n {
      assert Dropped(s, i) == s[..n];
    } else {
      DroppedLength(s[..n], i);
      assert Dropped(s, i)[..n - 1] == Dropped(s[..n], i);
    }
  }

  function RefoldedAll(names: seq<string>): (r: seq<string>)
    ensures |r| == |names|
  {
    seq(|names|, i requires 0 <= i < |names| => Refolded(names[i]))
  }

  lemma {:induction false} RefoldingShortens(names: seq<string>)
    ensures TotalLength(RefoldedAll(names)) <= TotalLength(names)
    ensures (exists n <- names :: LosesSlash(n)) ==> TotalLength(RefoldedAll(names)) < TotalLength(names)
    ensures (forall n <- names :: !LosesSlash(n)) ==> RefoldedAll(names) == names
  {
    if names != [] {
      var k := |names| - 1;
      RefoldingShortens(names[..k]);
      assert names == names[..k] + [names[k]];
      assert RefoldedAll(names)[..k] == RefoldedAll(names[..k]);
      hide LosesSlash;
    }
  }

  /** The names reported are the uniquified names as written, each as often, exactly
      when none of them ends in a separator after another one. */
  lemma NamesComeBackIff(bs: seq<Behavior>)
    requires forall b <- bs :: !b.implied
    ensures multiset(NamesOf(Reported(Resolved(bs)))) == multiset(Uniques(NamesOf(bs)))
       <==> forall n <- Uniques(NamesOf(bs)) :: !LosesSlash(n)
  {
    hide LosesSlash, Reported, Resolved, Expected, Uniques, Refolded;
    var us := Uniques(NamesOf(bs));
    EachIsReported(bs);
    NamesPermute(Reported(Resolved(bs)), Expected(bs));
    ExpectedNames(bs);
    assert NamesOf(Expected(bs)) == RefoldedAll(us);
    RefoldingShortens(us);
    if multiset(RefoldedAll(us)) == multiset(us) {
      LengthsPermute(RefoldedAll(us), us);
    }
  }

  /** "a/b/" is reported as "a/b". */
  lemma FinalSlashIsLost()
    ensures var b := Behavior("a/b/", 1, 1, false, []);
      NamesOf(Reported(Resolved([b]))) == ["a/b"] && Uniques(NamesOf([b])) == ["a/b/"]
  {
    hide Reported, Resolved, LosesSlash, Refolded, Uniques, NamesOf, Expected;
    var b := Behavior("a/b/", 1, 1, false, []);
    FinalSlashRefolds();
    OneExpected(b, "a/b/");
    EachIsReported([b]);
    var r := Reported(Resolved([b]));
    assert |multiset(r)| == |r| == 1;
    assert r[0] in multiset(r);
    NameOfOne(r[0]);
    assert r == [r[0]];
  }

  lemma FinalSlashRefolds()
    ensures Refolded("a/b/") == "a/b"
  {
    var name := "a/b/";
    assert IsSeparator(name, 1) && IsSeparator(name, 3) && EndsInSeparator(name);
    assert name[..3] == "a/b";
  }

  lemma OneExpected(b: Behavior, name: string)
    requires b.name == name
    ensures Uniques(NamesOf([b])) == [name] && Expected([b]) == [b.(name := Refolded(name))]
  {
    hide Refolded;
    assert Count([], name) == 0 && Unique([], name) == name;
    assert [b][..0] == [] && NamesOf([]) == [] && Uniques([]) == [] && Expected([]) == [];
    assert NamesOf([b])[..0] == [];
  }

  lemma NameOfOne(b: Behavior)
    ensures NamesOf([b]) == [b.name]
  {
  }

  // ---------------------------------------------------------------- the code

  lemma {:induction false} CountIs(names: seq<string>, name: string)
    ensures Count(names, name) == multiset(names)[name]
  {
    if names != [] {
      assert names == names[..|names| - 1] + [names[|names| - 1]];
      CountIs(names[..|names| - 1], name);
    }
  }

  lemma NothingResolved()
    ensures Resolved([]) == [] && forall n :: Count(NamesOf([]), n) == 0
  {
  }

  lemma ResolvedOn(bs: seq<Behavior>, i: nat)
    requires i < |bs|
    ensures var b, before := bs[i], NamesOf(bs[..i]);
      && Resolved(bs[..i + 1])
         == Insert(Resolved(bs[..i]), SplitSegments(Unique(before, b.name)), b.(name := Unique(before, b.name)))
      && forall n :: Count(NamesOf(bs[..i + 1]), n) == Count(before, n) + if n == b.name then 1 else 0
  {
    hide Insert, SplitSegments, Unique;
    assert bs[..i + 1][..i] == bs[..i];
    assert NamesOf(bs[..i + 1])[..i] == NamesOf(bs[..i]);
  }

  method ResolveSiblings(bs: seq<Behavior>) returns (out: seq<Behavior>)
    ensures out == Resolved(bs)
  {
    hide Insert, SplitSegments, Suffix, Resolved, Count, NamesOf;
    var seen: map<string, nat> := map[];
    out := [];
    NothingResolved();
    for i := 0 to |bs|
      invariant out == Resolved(bs[..i])
      invariant forall n :: (if n in seen then seen[n] else 0) == Count(NamesOf(bs[..i]), n)
    {
      var b := bs[i];
      ResolvedOn(bs, i);
      var n := if b.name in seen then seen[b.name] else 0;
      var name := if n > 0 then b.name + Suffix(n) else b.name;
      seen := seen[b.name := n + 1];
      var segments := SplitPath(name);
      out := InsertPath(out, segments, b.(name := name));
    }
    assert bs[..|bs|] == bs;
  }

  method SplitPath(s: string) returns (segments: seq<string>)
    ensures segments == SplitSegments(s)
  {
    segments := SplitTestPath(s);
    if |segments| == 0 {
      segments := [s];
    }
  }

  method InsertPath(out: seq<Behavior>, segments: seq<string>, leaf: Behavior) returns (r: seq<Behavior>)
    ensures r == Insert(out, segments, leaf)
    decreases |segments|
  {
    if |segments| <= 1 {
      return out + [leaf];
    }
    var head, rest := segments[0], segments[1..];
    var at := |out|;
    for i := 0 to |out|
      invariant at == |out| && FirstImplied(out, head) == i + FirstImplied(out[i..], head)
    {
      assert out[i..][1..] == out[i + 1..];
      if out[i].name == head && out[i].implied {
        at := i;
        break;
      }
    }
    assert at == FirstImplied(out, head);
    var named := if |rest| == 1 then leaf.(name := rest[0]) else leaf;
    if at == |out| {
      var children := InsertPath([], rest, named);
      return out + [Behavior(head, WHEN, leaf.line, true, children)];
    }
    var children := InsertPath(out[at].children, rest, named);
    return out[at := out[at].(children := children)];
  }

  lemma ReportedStep(out: seq<Behavior>, bs: seq<Behavior>, i: nat)
    requires i < |bs|
    ensures var own := if bs[i].implied then Under(bs[i].name, Reported(bs[i].children)) else [bs[i]];
      out + own + Reported(bs[i + 1..]) == out + Reported(bs[i..])
  {
    var own := if bs[i].implied then Under(bs[i].name, Reported(bs[i].children)) else [bs[i]];
    assert bs[i..][1..] == bs[i + 1..];
    assert Reported(bs[i..]) == own + Reported(bs[i + 1..]);
    hide Reported, Under;
    assert out + (own + Reported(bs[i + 1..])) == out + own + Reported(bs[i + 1..]);
  }

  lemma ReportedAll(out: seq<Behavior>, bs: seq<Behavior>)
    ensures out + Reported(bs[|bs|..]) == out
  {
    assert bs[|bs|..] == [];
  }

  method ReportedBehaviors(bs: seq<Behavior>) returns (out: seq<Behavior>)
    ensures out == Reported(bs)
    decreases bs
  {
    hide Reported, Under;
    out := [];
    assert out + Reported(bs) == Reported(bs) && bs[0..] == bs;
    for i := 0 to |bs|
      invariant out + Reported(bs[i..]) == Reported(bs)
    {
      var b := bs[i];
      ReportedStep(out, bs, i);
      if !b.implied {
        out := out + [b];
        continue;
      }
      var cs := ReportedBehaviors(b.children);
      out := FoldedUnder(out, b.name, cs);
    }
    ReportedAll(out, bs);
  }

  method FoldedUnder(before: seq<Behavior>, name: string, cs: seq<Behavior>) returns (out: seq<Behavior>)
    ensures out == before + Under(name, cs)
  {
    out := before;
    for j := 0 to |cs|
      invariant out == before + Under(name, cs)[..j]
    {
      out := out + [cs[j].(name := name + "/" + cs[j].name)];
    }
  }
}
