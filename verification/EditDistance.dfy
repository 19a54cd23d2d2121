/**
 The edit distance behind "did you mean?": the matrix loop computes the length of a shortest edit
 script, and that length is a metric.
 */
module EditDistance {
  import Text
  import opened Ordering

  // ---------------------------------------------------------------------------
  // Edit scripts
  // ---------------------------------------------------------------------------

  /** One edit of a string at a position. */
  datatype Edit = Insert(at: nat, c: char) | Delete(at: nat) | Substitute(at: nat, c: char)

  predicate Applies(e: Edit, s: string) {
    if e.Insert? then e.at <= |s| else e.at < |s|
  }

  function Apply(e: Edit, s: string): string
    requires Applies(e, s)
  {
    match e
    case Insert(at, c) => s[..at] + [c] + s[at..]
    case Delete(at) => s[..at] + s[at + 1..]
    case Substitute(at, c) => s[..at] + [c] + s[at + 1..]
  }

  /** The edits, done one after the other, turn `s` into `t`. */
  predicate Turns(script: seq<Edit>, s: string, t: string) {
    if script == [] then s == t
    else Applies(script[0], s) && Turns(script[1..], Apply(script[0], s), t)
  }

  // ---------------------------------------------------------------------------
  // The recurrence
  // ---------------------------------------------------------------------------

  function Init(s: string): string
    requires s != ""
  {
    s[..|s| - 1]
  }

  function Last(s: string): char
    requires s != ""
  {
    s[|s| - 1]
  }

  function Min(x: nat, y: nat): nat {
    if x <= y then x else y
  }

  /** The value the matrix holds for the prefixes `a` and `b`. */
  function Dist(a: string, b: string): nat
    decreases |a| + |b|
  {
    if a == "" then |b|
    else if b == "" then |a|
    else if Last(a) == Last(b) then Dist(Init(a), Init(b))
    else 1 + Min(Dist(Init(a), Init(b)), Min(Dist(Init(a), b), Dist(a, Init(b))))
  }

  lemma {:induction false} Symmetric(a: string, b: string)
    ensures Dist(a, b) == Dist(b, a)
    decreases |a| + |b|
  {
    if a == "" || b == "" {
    } else {
      Symmetric(Init(a), Init(b));
      Symmetric(Init(a), b);
      Symmetric(a, Init(b));
    }
  }

  lemma {:induction false} ZeroMeansEqual(a: string, b: string)
    ensures Dist(a, b) == 0 <==> a == b
    decreases |a| + |b|
  {
    if a == "" || b == "" {
    } else {
      assert a == Init(a) + [Last(a)] && b == Init(b) + [Last(b)];
      if Last(a) == Last(b) {
        ZeroMeansEqual(Init(a), Init(b));
      }
    }
  }

  /** One more character costs at most one, and one less saves at most one. */
  lemma {:induction false} Slope(a: string, b: string)
    ensures a != "" ==> Dist(a, b) <= 1 + Dist(Init(a), b)
    ensures b != "" ==> Dist(a, Init(b)) <= 1 + Dist(a, b)
    decreases |a| + |b|
  {
    if a == "" || b == "" {
    } else {
      Slope(Init(a), b);
      Slope(a, Init(b));
    }
  }

  lemma SlopeRight(a: string, b: string)
    requires b != ""
    ensures Dist(a, b) <= 1 + Dist(a, Init(b))
  {
    Symmetric(a, b);
    Symmetric(a, Init(b));
    Slope(b, a);
  }

  lemma DiagonalStep(a: string, b: string)
    requires a != "" && b != ""
    ensures Dist(a, b) <= Dist(Init(a), Init(b)) + if Last(a) == Last(b) then 0 else 1
  {
  }

  /** The last column of a shortest alignment. */
  datatype Column = Diagonal | DropLeft | DropRight

  lemma LastColumn(a: string, b: string) returns (col: Column)
    requires a != "" || b != ""
    ensures col.Diagonal? ==>
              && a != "" && b != ""
              && Dist(a, b) == Dist(Init(a), Init(b)) + if Last(a) == Last(b) then 0 else 1
    ensures col.DropLeft? ==> a != "" && Dist(a, b) == 1 + Dist(Init(a), b)
    ensures col.DropRight? ==> b != "" && Dist(a, b) == 1 + Dist(a, Init(b))
  {
    if a == "" {
      col := DropRight;
    } else if b == "" {
      col := DropLeft;
    } else if Last(a) == Last(b) || Dist(a, b) == 1 + Dist(Init(a), Init(b)) {
      col := Diagonal;
    } else if Dist(a, b) == 1 + Dist(Init(a), b) {
      col := DropLeft;
    } else {
      col := DropRight;
    }
  }

  lemma {:induction false} Triangle(a: string, b: string, c: string)
    ensures Dist(a, c) <= Dist(a, b) + Dist(b, c)
    decreases |a| + |b| + |c|
  {
    if (a == "" && b == "") || (b == "" && c == "") {
      return;
    }
    var ab := LastColumn(a, b);
    var bc := LastColumn(b, c);
    if ab.DropLeft? {
      Slope(a, c);
      Triangle(Init(a), b, c);
    } else if bc.DropRight? {
      SlopeRight(a, c);
      Triangle(a, b, Init(c));
    } else if ab.DropRight? && bc.DropLeft? {
      Triangle(a, Init(b), c);
    } else if ab.DropRight? {
      SlopeRight(a, c);
      Triangle(a, Init(b), Init(c));
    } else if bc.DropLeft? {
      Slope(a, c);
      Triangle(Init(a), Init(b), c);
    } else {
      DiagonalStep(a, c);
      Triangle(Init(a), Init(b), Init(c));
    }
  }

  // ---------------------------------------------------------------------------
  // Shortest scripts
  // ---------------------------------------------------------------------------

  lemma {:induction false} CommonTail(a: string, b: string, tail: string)
    ensures Dist(a + tail, b + tail) == Dist(a, b)
    decreases |tail|
  {
    if tail == "" {
      assert a + tail == a && b + tail == b;
    } else {
      assert Init(a + tail) == a + Init(tail) && Init(b + tail) == b + Init(tail);
      CommonTail(a, b, Init(tail));
    }
  }

  /** Texts that differ in one place only are at most as far apart as these places. */
  lemma OneEditBetween(head: string, one: string, other: string, tail: string)
    requires |one| <= 1 && |other| <= 1
    ensures Dist(head + one + tail, head + other + tail) <= 1
  {
    CommonTail(head + one, head + other, tail);
    ZeroMeansEqual(head, head);
    assert one != "" ==> Init(head + one) == head;
    assert other != "" ==> Init(head + other) == head;
    if one == "" && other == "" {
      ZeroMeansEqual(head + one, head + other);
    } else if one == "" {
      assert head + one == head;
      SlopeRight(head, head + other);
    } else if other == "" {
      assert head + other == head;
      Slope(head + one, head);
    } else {
      DiagonalStep(head + one, head + other);
    }
  }

  /** A single edit moves a string by at most one. */
  lemma OneEdit(e: Edit, s: string)
    requires Applies(e, s)
    ensures Dist(s, Apply(e, s)) <= 1
  {
    match e {
      case Insert(at, c) =>
        assert s == s[..at] + "" + s[at..];
        OneEditBetween(s[..at], "", [c], s[at..]);
      case Delete(at) =>
        assert s == s[..at] + [s[at]] + s[at + 1..];
        assert Apply(e, s) == s[..at] + "" + s[at + 1..];
        OneEditBetween(s[..at], [s[at]], "", s[at + 1..]);
      case Substitute(at, c) =>
        assert s == s[..at] + [s[at]] + s[at + 1..];
        OneEditBetween(s[..at], [s[at]], [c], s[at + 1..]);
    }
  }

  /** No script is shorter than the distance. */
  lemma {:induction false} NoShorterScript(script: seq<Edit>, s: string, t: string)
    requires Turns(script, s, t)
    ensures Dist(s, t) <= |script|
    decreases |script|
  {
    ZeroMeansEqual(s, t);
    if script == [] {
    } else {
      var s' := Apply(script[0], s);
      NoShorterScript(script[1..], s', t);
      OneEdit(script[0], s);
      Triangle(s, s', t);
    }
  }

  lemma ApplyUnderTail(e: Edit, s: string, tail: string)
    requires Applies(e, s)
    ensures Applies(e, s + tail) && Apply(e, s + tail) == Apply(e, s) + tail
  {
    match e {
      case Insert(at, c) => assert (s + tail)[..at] == s[..at] && (s + tail)[at..] == s[at..] + tail;
      case Delete(at) => assert (s + tail)[..at] == s[..at] && (s + tail)[at + 1..] == s[at + 1..] + tail;
      case Substitute(at, c) => assert (s + tail)[..at] == s[..at] && (s + tail)[at + 1..] == s[at + 1..] + tail;
    }
  }

  lemma {:induction false} ScriptUnderTail(script: seq<Edit>, s: string, t: string, tail: string)
    requires Turns(script, s, t)
    ensures Turns(script, s + tail, t + tail)
    decreases |script|
  {
    if script == [] {
    } else {
      ApplyUnderTail(script[0], s, tail);
      ScriptUnderTail(script[1..], Apply(script[0], s), t, tail);
    }
  }

  lemma ScriptThen(e: Edit, script: seq<Edit>, s: string, t: string)
    requires Applies(e, s) && Turns(script, Apply(e, s), t)
    ensures Turns([e] + script, s, t)
  {
    assert ([e] + script)[1..] == script;
  }

  lemma DropLastFirst(script: seq<Edit>, a: string, b: string)
    requires a != "" && Turns(script, Init(a), b)
    ensures Turns([Delete(|a| - 1)] + script, a, b)
  {
    assert Apply(Delete(|a| - 1), a) == Init(a);
    ScriptThen(Delete(|a| - 1), script, a, b);
  }

  lemma InitLast(s: string)
    requires s != ""
    ensures Init(s) + [Last(s)] == s
  {
  }

  lemma AppendFirst(script: seq<Edit>, a: string, b: string)
    requires b != "" && Turns(script, a, Init(b))
    ensures Turns([Insert(|a|, Last(b))] + script, a, b)
  {
    ScriptUnderTail(script, a, Init(b), [Last(b)]);
    InitLast(b);
    assert Apply(Insert(|a|, Last(b)), a) == a + [Last(b)];
    ScriptThen(Insert(|a|, Last(b)), script, a, b);
  }

  lemma ReplaceLastFirst(script: seq<Edit>, a: string, b: string)
    requires a != "" && b != "" && Turns(script, Init(a), Init(b))
    ensures Turns([Substitute(|a| - 1, Last(b))] + script, a, b)
    ensures Last(a) == Last(b) ==> Turns(script, a, b)
  {
    ScriptUnderTail(script, Init(a), Init(b), [Last(b)]);
    InitLast(b);
    InitLast(a);
    assert Apply(Substitute(|a| - 1, Last(b)), a) == Init(a) + [Last(b)];
    ScriptThen(Substitute(|a| - 1, Last(b)), script, a, b);
  }

  /** A script of exactly that length exists. */
  lemma {:induction false} ShortestScript(a: string, b: string) returns (script: seq<Edit>)
    ensures Turns(script, a, b) && |script| == Dist(a, b)
    decreases |a| + |b|
  {
    if a == "" && b == "" {
      return [];
    }
    var col := LastColumn(a, b);
    if col.DropLeft? {
      var rest := ShortestScript(Init(a), b);
      DropLastFirst(rest, a, b);
      script := [Delete(|a| - 1)] + rest;
    } else if col.DropRight? {
      var rest := ShortestScript(a, Init(b));
      AppendFirst(rest, a, b);
      script := [Insert(|a|, Last(b))] + rest;
    } else {
      var rest := ShortestScript(Init(a), Init(b));
      ReplaceLastFirst(rest, a, b);
      script := if Last(a) == Last(b) then rest else [Substitute(|a| - 1, Last(b))] + rest;
    }
  }

  /** `d` is the least number of edits that turn `a` into `b`. */
  ghost predicate LeastEdits(a: string, b: string, d: nat) {
    && (exists script :: Turns(script, a, b) && |script| == d)
    && (forall script :: Turns(script, a, b) ==> d <= |script|)
  }

  lemma DistIsLeast(a: string, b: string)
    ensures LeastEdits(a, b, Dist(a, b))
  {
    var _ := ShortestScript(a, b);
    forall script | Turns(script, a, b)
      ensures Dist(a, b) <= |script|
    {
      NoShorterScript(script, a, b);
    }
  }

  /** The least number of edits is a metric on strings. */
  lemma LeastEditsIsMetric(a: string, b: string, c: string, ab: nat, bc: nat, ac: nat)
    ensures LeastEdits(a, b, ab) ==> (ab == 0 <==> a == b)
    ensures LeastEdits(a, b, ab) <==> LeastEdits(b, a, ab)
    ensures LeastEdits(a, b, ab) && LeastEdits(b, c, bc) && LeastEdits(a, c, ac) ==> ac <= ab + bc
  {
    LeastUnique(a, b, ab);
    LeastUnique(b, a, ab);
    LeastUnique(b, c, bc);
    LeastUnique(a, c, ac);
    ZeroMeansEqual(a, b);
    Symmetric(a, b);
    Triangle(a, b, c);
  }

  lemma LeastUnique(a: string, b: string, d: nat)
    ensures LeastEdits(a, b, d) <==> d == Dist(a, b)
  {
    DistIsLeast(a, b);
    if LeastEdits(a, b, d) {
      var script := ShortestScript(a, b);
      var least :| Turns(least, a, b) && |least| == d;
      NoShorterScript(least, a, b);
    }
  }

  // ---------------------------------------------------------------------------
  // The matrix
  // ---------------------------------------------------------------------------

  /** Row `i`, column `j` stands for the first `j` characters of `a` and the first `i` of `b`. */
  lemma Recurrence(a: string, b: string, i: nat, j: nat)
    requires 1 <= i <= |b| && 1 <= j <= |a|
    ensures Dist(a[..j], b[..i]) ==
            if b[i - 1] == a[j - 1] then Dist(a[..j - 1], b[..i - 1])
            else 1 + Min(Dist(a[..j - 1], b[..i - 1]), Min(Dist(a[..j - 1], b[..i]), Dist(a[..j], b[..i - 1])))
  {
    assert Init(a[..j]) == a[..j - 1] && Init(b[..i]) == b[..i - 1];
  }

  /** The first column and the first row count up. */
  method Borders(a: string, b: string) returns (matrix: array2<nat>)
    ensures fresh(matrix) && matrix.Length0 == |b| + 1 && matrix.Length1 == |a| + 1
    ensures forall k | 0 <= k <= |b| :: matrix[k, 0] == k
    ensures forall k | 0 <= k <= |a| :: matrix[0, k] == k
  {
    matrix := new nat[|b| + 1, |a| + 1];
    for i := 0 to |b| + 1
      invariant forall k | 0 <= k < i :: matrix[k, 0] == k
    {
      matrix[i, 0] := i;
    }
    for j := 0 to |a| + 1
      invariant forall k | 0 <= k <= |b| :: matrix[k, 0] == k
      invariant forall k | 0 <= k < j :: matrix[0, k] == k
    {
      matrix[0, j] := j;
    }
  }

  /** The nested loops; the corner of the matrix is returned. */
  method FillMatrix(a: string, b: string) returns (d: nat)
    ensures d == Dist(a, b)
  {
    var matrix := Borders(a, b);
    for i := 1 to |b| + 1
      invariant forall k, l | 0 <= k < i && 0 <= l <= |a| :: matrix[k, l] == Dist(a[..l], b[..k])
      invariant forall k | 0 <= k <= |b| :: matrix[k, 0] == k
    {
      assert matrix[i, 0] == Dist(a[..0], b[..i]);
      for j := 1 to |a| + 1
        invariant forall k, l | 0 <= k < i && 0 <= l <= |a| :: matrix[k, l] == Dist(a[..l], b[..k])
        invariant forall k | 0 <= k <= |b| :: matrix[k, 0] == k
        invariant forall l | 0 <= l < j :: matrix[i, l] == Dist(a[..l], b[..i])
      {
        Recurrence(a, b, i, j);
        if b[i - 1] == a[j - 1] {
          matrix[i, j] := matrix[i - 1, j - 1];
        } else {
          matrix[i, j] := Min(matrix[i - 1, j - 1] + 1, Min(matrix[i, j - 1] + 1, matrix[i - 1, j] + 1));
        }
      }
    }
    d := matrix[|b|, |a|];
    assert a[..|a|] == a && b[..|b|] == b;
  }

  /** The result is the length of a shortest edit script. */
  method LevenshteinDistance(a: string, b: string) returns (d: nat)
    ensures LeastEdits(a, b, d) && d == Dist(a, b)
  {
    d := FillMatrix(a, b);
    DistIsLeast(a, b);
  }

  // ---------------------------------------------------------------------------
  // Suggestions
  // ---------------------------------------------------------------------------

  datatype Scored = Scored(name: string, distance: nat)

  predicate NoFarther(x: Scored, y: Scored) {
    x.distance <= y.distance
  }

  predicate CloseEnough(x: Scored, input: string) {
    x.distance <= 3 && x.distance < |input|
  }

  function Distance(input: string, name: string): nat {
    Dist(Text.Lower(input), Text.Lower(name))
  }

  function ScoreOf(input: string, name: string): Scored {
    Scored(name, Distance(input, name))
  }

  function Scores(commands: seq<string>, input: string): seq<Scored> {
    seq(|commands|, i requires 0 <= i < |commands| => ScoreOf(input, commands[i]))
  }

  method Score(commands: seq<string>, input: string) returns (scored: seq<Scored>)
    ensures scored == Scores(commands, input)
  {
    scored := [];
    for n := 0 to |commands|
      invariant |scored| == n
      invariant forall i | 0 <= i < n :: scored[i] == ScoreOf(input, commands[i])
    {
      var x := Measure(input, commands[n]);
      scored := scored + [x];
    }
  }

  method Measure(input: string, name: string) returns (x: Scored)
    ensures x == ScoreOf(input, name)
  {
    var d := LevenshteinDistance(Text.Lower(input), Text.Lower(name));
    x := Scored(name, d);
  }

  function KeepClose(scored: seq<Scored>, input: string): (kept: seq<Scored>)
    ensures forall x :: x in kept <==> x in scored && CloseEnough(x, input)
  {
    if scored == [] then []
    else (if CloseEnough(scored[0], input) then [scored[0]] else []) + KeepClose(scored[1..], input)
  }

  predicate IsNear(input: string, name: string) {
    CloseEnough(ScoreOf(input, name), input)
  }

  /** The near commands, nearest first. */
  function Ranking(commands: seq<string>, input: string): seq<Scored> {
    SortBy(KeepClose(Scores(commands, input), input), NoFarther)
  }

  function Names(xs: seq<Scored>): (names: seq<string>)
    ensures |names| == |xs| && forall i | 0 <= i < |xs| :: names[i] == xs[i].name
  {
    seq(|xs|, i requires 0 <= i < |xs| => xs[i].name)
  }

  function FirstThree(xs: seq<Scored>): seq<Scored> {
    xs[..if |xs| < 3 then |xs| else 3]
  }

  function Similar(commands: seq<string>, input: string): seq<string> {
    Names(FirstThree(Ranking(commands, input)))
  }

  /** Which elements the ranking holds. */
  lemma Ranked(commands: seq<string>, input: string, x: Scored)
    ensures x in Ranking(commands, input) <==>
            x.name in commands && x == ScoreOf(input, x.name) && CloseEnough(x, input)
  {
    SortMembers(KeepClose(Scores(commands, input), input), NoFarther);
    if x.name in commands && x == ScoreOf(input, x.name) {
      var k :| 0 <= k < |commands| && commands[k] == x.name;
      assert Scores(commands, input)[k] == x;
    }
  }

  lemma AmongFirst(xs: seq<Scored>, at: nat)
    requires at < |xs|
    ensures at < 3 ==> xs[at] in FirstThree(xs)
  {
    if at < 3 {
      assert FirstThree(xs)[at] == xs[at];
    }
  }

  /** The first three of a sorted list: what is left out is no nearer than any of them. */
  lemma LeftOut(ranking: seq<Scored>, x: Scored)
    requires Sorted(ranking, NoFarther) && x in ranking && x !in FirstThree(ranking)
    ensures |FirstThree(ranking)| == 3 && forall y | y in FirstThree(ranking) :: NoFarther(y, x)
  {
    var at :| 0 <= at < |ranking| && ranking[at] == x;
    AmongFirst(ranking, at);
    assert forall i | 0 <= i < |FirstThree(ranking)| :: FirstThree(ranking)[i] == ranking[i];
  }

  /**
   Up to three near commands, nearest first; a near command is left out only when three are returned and
   none of them is farther.
   */
  lemma SimilarAreNearest(commands: seq<string>, input: string)
    ensures var names := Similar(commands, input);
            && |names| <= 3
            && (forall i | 0 <= i < |names| :: names[i] in commands && IsNear(input, names[i]))
            && (forall i, j | 0 <= i < j < |names| :: NoFarther(ScoreOf(input, names[i]), ScoreOf(input, names[j])))
            && (forall c | c in commands && IsNear(input, c) && c !in names ::
                  |names| == 3 && forall i | 0 <= i < 3 :: NoFarther(ScoreOf(input, names[i]), ScoreOf(input, c)))
  {
    var ranking, names := Ranking(commands, input), Similar(commands, input);
    var top := FirstThree(ranking);
    SortBySorted(KeepClose(Scores(commands, input), input), NoFarther);
    forall i | 0 <= i < |names|
      ensures names[i] in commands && top[i] == ScoreOf(input, names[i]) && IsNear(input, names[i])
    {
      assert top[i] == ranking[i];
      Ranked(commands, input, ranking[i]);
    }
    forall c | c in commands && IsNear(input, c) && c !in names
      ensures |names| == 3 && forall i | 0 <= i < 3 :: NoFarther(top[i], ScoreOf(input, c))
    {
      Ranked(commands, input, ScoreOf(input, c));
      assert forall i | 0 <= i < |top| :: top[i].name == names[i];
      LeftOut(ranking, ScoreOf(input, c));
    }
  }

  /** Commands at the same distance keep the order in which they are listed. */
  lemma SimilarIsStable(commands: seq<string>, input: string, z: Scored)
    ensures Ties(Ranking(commands, input), z, NoFarther) ==
            Ties(KeepClose(Scores(commands, input), input), z, NoFarther)
  {
    SortStable(KeepClose(Scores(commands, input), input), z, NoFarther);
  }

  /** Near means at most three edits, and fewer than the input has letters. */
  lemma NearExactly(input: string, name: string, d: nat)
    requires LeastEdits(Text.Lower(input), Text.Lower(name), d)
    ensures IsNear(input, name) <==> d <= 3 && d < |input|
  {
    OneLeast(Text.Lower(input), Text.Lower(name), d);
  }

  /** One name comes before another when it takes no more edits. */
  lemma NearerExactly(input: string, a: string, b: string, da: nat, db: nat)
    requires LeastEdits(Text.Lower(input), Text.Lower(a), da) && LeastEdits(Text.Lower(input), Text.Lower(b), db)
    ensures NoFarther(ScoreOf(input, a), ScoreOf(input, b)) <==> da <= db
  {
    OneLeast(Text.Lower(input), Text.Lower(a), da);
    OneLeast(Text.Lower(input), Text.Lower(b), db);
  }

  lemma OneLeast(a: string, b: string, d: nat)
    requires LeastEdits(a, b, d)
    ensures d == Dist(a, b)
  {
    DistIsLeast(a, b);
  }

  method FindSimilar(commands: seq<string>, input: string) returns (names: seq<string>)
    ensures names == Similar(commands, input)
  {
    var scored := Score(commands, input);
    var ranked := SortBy(KeepClose(scored, input), NoFarther);
    names := Names(ranked[..if |ranked| < 3 then |ranked| else 3]);
  }
}
