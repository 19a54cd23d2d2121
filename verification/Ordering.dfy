/** The stable sort of `Array.prototype.sort` and the order it uses on strings. */
module Ordering {

  ghost predicate TotalPreorder<T(!new)>(leq: (T, T) -> bool) {
    && (forall x, y :: leq(x, y) || leq(y, x))
    && (forall x, y, z :: leq(x, y) && leq(y, z) ==> leq(x, z))
  }

  ghost predicate Antisymmetric<T(!new)>(leq: (T, T) -> bool) {
    forall x, y :: leq(x, y) && leq(y, x) ==> x == y
  }

  ghost predicate Sorted<T>(xs: seq<T>, leq: (T, T) -> bool) {
    forall i, j | 0 <= i < j < |xs| :: leq(xs[i], xs[j])
  }

  function InsertBy<T>(x: T, xs: seq<T>, leq: (T, T) -> bool): (ys: seq<T>)
    ensures multiset(ys) == multiset{x} + multiset(xs)
    ensures |ys| == |xs| + 1
  {
    if xs == [] then [x]
    else if leq(x, xs[0]) then [x] + xs
    else
      assert xs == [xs[0]] + xs[1..];
      [xs[0]] + InsertBy(x, xs[1..], leq)
  }

  /** Stable: an element goes before the equal ones that followed it. */
  function SortBy<T>(xs: seq<T>, leq: (T, T) -> bool): (ys: seq<T>)
    ensures multiset(ys) == multiset(xs)
    ensures |ys| == |xs|
  {
    if xs == [] then []
    else
      assert xs == [xs[0]] + xs[1..];
      InsertBy(xs[0], SortBy(xs[1..], leq), leq)
  }

  lemma SortMembers<T(!new)>(xs: seq<T>, leq: (T, T) -> bool)
    ensures forall x :: x in SortBy(xs, leq) <==> x in xs
  {
    forall x
      ensures x in SortBy(xs, leq) <==> x in xs
    {
      assert x in multiset(SortBy(xs, leq)) <==> x in multiset(xs);
    }
  }

  lemma {:induction false} InsertBySorted<T(!new)>(x: T, xs: seq<T>, leq: (T, T) -> bool)
    requires TotalPreorder(leq) && Sorted(xs, leq)
    ensures Sorted(InsertBy(x, xs, leq), leq)
  {
    if xs == [] {
    } else {
      if leq(x, xs[0]) {
        assert forall y | y in xs :: leq(xs[0], y);
      } else {
        InsertBySorted(x, xs[1..], leq);
        var rest := InsertBy(x, xs[1..], leq);
        forall y | y in rest
          ensures leq(xs[0], y)
        {
          assert y in multiset(rest);
          if y != x {
            assert y in xs[1..];
          }
        }
      }
    }
  }

  lemma {:induction false} SortBySorted<T(!new)>(xs: seq<T>, leq: (T, T) -> bool)
    requires TotalPreorder(leq)
    ensures Sorted(SortBy(xs, leq), leq)
  {
    if xs == [] {
    } else {
      SortBySorted(xs[1..], leq);
      InsertBySorted(xs[0], SortBy(xs[1..], leq), leq);
    }
  }

  lemma LeastHead<T(!new)>(ps: seq<T>, qs: seq<T>, leq: (T, T) -> bool)
    requires Antisymmetric(leq) && TotalPreorder(leq) && ps != [] && qs != []
    requires Sorted(ps, leq) && Sorted(qs, leq) && multiset(ps) == multiset(qs)
    ensures ps[0] == qs[0] && multiset(ps[1..]) == multiset(qs[1..])
  {
    assert ps[0] in multiset(qs) && qs[0] in multiset(ps);
    TailMultiset(ps);
    TailMultiset(qs);
  }

  lemma TailMultiset<T>(xs: seq<T>)
    requires xs != []
    ensures multiset(xs[1..]) == multiset(xs) - multiset{xs[0]}
  {
    assert xs == [xs[0]] + xs[1..];
  }

  /** Elements have one sorted form only. */
  lemma {:induction false} OneSortedForm<T(!new)>(ps: seq<T>, qs: seq<T>, leq: (T, T) -> bool)
    requires Antisymmetric(leq) && TotalPreorder(leq)
    requires Sorted(ps, leq) && Sorted(qs, leq) && multiset(ps) == multiset(qs)
    ensures ps == qs
  {
    if ps == [] {
      assert |multiset(qs)| == 0;
    } else {
      assert |multiset(qs)| > 0;
      LeastHead(ps, qs, leq);
      OneSortedForm(ps[1..], qs[1..], leq);
    }
  }

  /** Under an order, the sorted text depends on nothing but the elements and how often each occurs. */
  lemma SortCanonical<T(!new)>(xs: seq<T>, ys: seq<T>, leq: (T, T) -> bool)
    requires Antisymmetric(leq) && TotalPreorder(leq)
    ensures SortBy(xs, leq) == SortBy(ys, leq) <==> multiset(xs) == multiset(ys)
  {
    SortBySorted(xs, leq);
    SortBySorted(ys, leq);
    if multiset(xs) == multiset(ys) {
      OneSortedForm(SortBy(xs, leq), SortBy(ys, leq), leq);
    }
  }

  /** The head of the sorted list is the first element that no other one precedes. */
  lemma {:induction false} SortHead<T(!new)>(xs: seq<T>, leq: (T, T) -> bool) returns (at: nat)
    requires TotalPreorder(leq) && xs != []
    ensures at < |xs| && SortBy(xs, leq)[0] == xs[at]
    ensures forall i | 0 <= i < |xs| :: leq(xs[at], xs[i])
    ensures forall i | 0 <= i < at :: !leq(xs[i], xs[at])
  {
    if |xs| == 1 {
      at := 0;
    } else {
      var below := SortHead(xs[1..], leq);
      at := if leq(xs[0], xs[1 + below]) then 0 else 1 + below;
      HeadOfMore(xs, below, at, leq);
    }
  }

  lemma HeadOfMore<T(!new)>(xs: seq<T>, below: nat, at: nat, leq: (T, T) -> bool)
    requires TotalPreorder(leq) && below < |xs| - 1
    requires at == if leq(xs[0], xs[1 + below]) then 0 else 1 + below
    requires forall i | 0 <= i < |xs[1..]| :: leq(xs[1..][below], xs[1..][i])
    requires forall i | 0 <= i < below :: !leq(xs[1..][i], xs[1..][below])
    ensures forall i | 0 <= i < |xs| :: leq(xs[at], xs[i])
    ensures forall i | 0 <= i < at :: !leq(xs[i], xs[at])
  {
    assert forall i | 1 <= i < |xs| :: xs[i] == xs[1..][i - 1];
  }

  /** Without its head the sorted list is the sorted rest. */
  lemma SortedRest<T(!new)>(xs: seq<T>, at: nat, leq: (T, T) -> bool)
    requires Antisymmetric(leq) && TotalPreorder(leq) && at < |xs| && SortBy(xs, leq)[0] == xs[at]
    ensures SortBy(xs[..at] + xs[at + 1..], leq) == SortBy(xs, leq)[1..]
  {
    var sorted, rest := SortBy(xs, leq), xs[..at] + xs[at + 1..];
    SortBySorted(xs, leq);
    SortBySorted(rest, leq);
    WithoutOne(sorted, xs, at);
    OneSortedForm(SortBy(rest, leq), sorted[1..], leq);
  }

  lemma MultisetWithout<T>(xs: seq<T>, k: nat)
    requires k < |xs|
    ensures multiset(xs) == multiset(xs[..k] + xs[k + 1..]) + multiset{xs[k]}
  {
    assert xs == xs[..k] + [xs[k]] + xs[k + 1..];
  }

  lemma WithoutOne<T>(xs: seq<T>, ys: seq<T>, k: nat)
    requires k < |ys| && xs != [] && ys[k] == xs[0] && multiset(xs) == multiset(ys)
    ensures multiset(xs[1..]) == multiset(ys[..k] + ys[k + 1..])
  {
    MultisetWithout(ys, k);
    TailMultiset(xs);
  }

  predicate Tied<T>(x: T, z: T, leq: (T, T) -> bool) {
    leq(x, z) && leq(z, x)
  }

  /** The elements that the order does not tell from `z`, in order. */
  function Ties<T>(xs: seq<T>, z: T, leq: (T, T) -> bool): seq<T> {
    if xs == [] then []
    else if Tied(xs[0], z, leq) then [xs[0]] + Ties(xs[1..], z, leq)
    else Ties(xs[1..], z, leq)
  }

  lemma {:induction false} InsertTies<T(!new)>(x: T, xs: seq<T>, z: T, leq: (T, T) -> bool)
    requires TotalPreorder(leq)
    ensures Ties(InsertBy(x, xs, leq), z, leq) == if Tied(x, z, leq) then [x] + Ties(xs, z, leq) else Ties(xs, z, leq)
  {
    if xs == [] || leq(x, xs[0]) {
      TiesCons(x, xs, z, leq);
    } else {
      InsertTies(x, xs[1..], z, leq);
      TiesCons(xs[0], InsertBy(x, xs[1..], leq), z, leq);
      NotBothTied(x, xs[0], z, leq);
    }
  }

  lemma TiesCons<T>(x: T, xs: seq<T>, z: T, leq: (T, T) -> bool)
    ensures Ties([x] + xs, z, leq) == if Tied(x, z, leq) then [x] + Ties(xs, z, leq) else Ties(xs, z, leq)
  {
    assert ([x] + xs)[1..] == xs;
  }

  lemma NotBothTied<T(!new)>(x: T, y: T, z: T, leq: (T, T) -> bool)
    requires TotalPreorder(leq) && !leq(x, y)
    ensures !Tied(x, z, leq) || !Tied(y, z, leq)
  {
  }

  /** The sort is stable: elements that tie keep their order. */
  lemma {:induction false} SortStable<T(!new)>(xs: seq<T>, z: T, leq: (T, T) -> bool)
    requires TotalPreorder(leq)
    ensures Ties(SortBy(xs, leq), z, leq) == Ties(xs, z, leq)
  {
    if xs == [] {
    } else {
      SortStable(xs[1..], z, leq);
      InsertTies(xs[0], SortBy(xs[1..], leq), z, leq);
    }
  }

  // ---------------------------------------------------------------------------
  // Strings
  // ---------------------------------------------------------------------------

  /** Lexicographic by character. */
  predicate StringLeq(s: string, t: string) {
    s == "" || (t != "" && (s[0] < t[0] || (s[0] == t[0] && StringLeq(s[1..], t[1..]))))
  }

  lemma StringTotal(s: string, t: string)
    ensures StringLeq(s, t) || StringLeq(t, s)
  {
  }

  lemma {:induction false} StringTransitive(s: string, t: string, u: string)
    requires StringLeq(s, t) && StringLeq(t, u)
    ensures StringLeq(s, u)
  {
    if s != "" && s[0] == t[0] && t[0] == u[0] {
      StringTransitive(s[1..], t[1..], u[1..]);
    }
  }

  lemma {:induction false} StringAntisymmetric(s: string, t: string)
    requires StringLeq(s, t) && StringLeq(t, s)
    ensures s == t
  {
    if s == "" {
    } else {
      StringAntisymmetric(s[1..], t[1..]);
      assert s == [s[0]] + s[1..] && t == [t[0]] + t[1..];
    }
  }

  lemma StringOrder()
    ensures TotalPreorder(StringLeq) && Antisymmetric(StringLeq)
  {
    forall s, t
      ensures StringLeq(s, t) || StringLeq(t, s)
      ensures StringLeq(s, t) && StringLeq(t, s) ==> s == t
    {
      StringTotal(s, t);
      if StringLeq(s, t) && StringLeq(t, s) {
        StringAntisymmetric(s, t);
      }
    }
    forall s, t, u | StringLeq(s, t) && StringLeq(t, u)
      ensures StringLeq(s, u)
    {
      StringTransitive(s, t, u);
    }
  }
}
