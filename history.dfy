/**
 * The history page: the answered concepts sorted by date (newest first) or by
 * name, and only the concepts that hold an answer displayed. The name order is
 * the code-point lexicographic order standing in for the locale comparator.
 */
module History {
  import opened AnsweredConcepts

  datatype SortBy = Abc | Date

  /** The sort the page opens with. */
  const InitialSort: SortBy := Date

  /** toggleSort: switches between the two orders (of two values, so toggling twice restores the order). */
  function ToggleSort(s: SortBy): (r: SortBy)
    ensures r != s
  {
    if s == Abc then Date else Abc
  }

  datatype Concept = Concept(
    conceptId: string,
    conceptName: string,
    answerTimestamp: int,
    userAnswer: string,
    answerTime: string,
    visible: bool)

  /** Lexicographic order on strings: a prefix comes first, then the first differing character decides. */
  predicate StrLe(a: string, b: string) {
    if a == [] then true
    else if b == [] then false
    else if a[0] < b[0] then true
    else if a[0] == b[0] then StrLe(a[1..], b[1..])
    else false
  }

  lemma {:induction false} StrLeTotal(a: string, b: string)
    ensures StrLe(a, b) || StrLe(b, a)
  {
    if a != [] && b != [] && a[0] == b[0] {
      StrLeTotal(a[1..], b[1..]);
    }
  }

  lemma {:induction false} StrLeTrans(a: string, b: string, c: string)
    requires StrLe(a, b) && StrLe(b, c)
    ensures StrLe(a, c)
  {
    if a != [] && b != [] && c != [] && a[0] == b[0] && b[0] == c[0] {
      StrLeTrans(a[1..], b[1..], c[1..]);
    }
  }

  /** `a` may come before `b`: the comparator of the current sort does not put `b` first. */
  predicate InOrder(order: SortBy, a: Concept, b: Concept) {
    match order
    case Abc => StrLe(a.conceptName, b.conceptName)
    case Date => a.answerTimestamp >= b.answerTimestamp
  }

  lemma InOrderTotal(order: SortBy, a: Concept, b: Concept)
    ensures InOrder(order, a, b) || InOrder(order, b, a)
  {
    if order == Abc {
      StrLeTotal(a.conceptName, b.conceptName);
    }
  }

  lemma InOrderTrans(order: SortBy, a: Concept, b: Concept, c: Concept)
    requires InOrder(order, a, b) && InOrder(order, b, c)
    ensures InOrder(order, a, c)
  {
    if order == Abc {
      StrLeTrans(a.conceptName, b.conceptName, c.conceptName);
    }
  }

  predicate Sorted(order: SortBy, xs: seq<Concept>) {
    forall i, j :: 0 <= i < j < |xs| ==> InOrder(order, xs[i], xs[j])
  }

  /** Inserts `x` before the first element it may precede, so earlier elements stay ahead of equal ones. */
  function Insert(order: SortBy, x: Concept, ys: seq<Concept>): (r: seq<Concept>)
    requires Sorted(order, ys)
    ensures Sorted(order, r)
    ensures multiset(r) == multiset(ys) + multiset{x}
  {
    if ys == [] then [x]
    else if InOrder(order, x, ys[0]) then
      var r := [x] + ys;
      forall j | 1 <= j < |r|
        ensures InOrder(order, x, r[j])
      {
        if j > 1 {
          InOrderTrans(order, x, ys[0], ys[j - 1]);
        }
      }
      r
    else
      InOrderTotal(order, x, ys[0]);
      var rest := Insert(order, x, ys[1..]);
      var r := [ys[0]] + rest;
      assert ys == [ys[0]] + ys[1..];
      forall j | 1 <= j < |r|
        ensures InOrder(order, ys[0], r[j])
      {
        assert r[j] in multiset(rest);
        if r[j] != x {
          assert r[j] in multiset(ys[1..]);
          var k :| 0 <= k < |ys[1..]| && ys[1..][k] == r[j];
          assert ys[k + 1] == r[j];
        }
      }
      r
  }

  /** The comparator sort of a copy of the list (a stable insertion sort). */
  function Sort(order: SortBy, xs: seq<Concept>): (r: seq<Concept>)
    ensures Sorted(order, r)
    ensures multiset(r) == multiset(xs)
  {
    if xs == [] then []
    else
      assert xs == [xs[0]] + xs[1..];
      Insert(order, xs[0], Sort(order, xs[1..]))
  }

  /** displayedConcepts: keeps the concepts that hold an answer, in order. */
  function Displayed(xs: seq<Concept>): (r: seq<Concept>)
    ensures |r| <= |xs|
    ensures forall c :: c in r <==> c in xs && HasAnswer(c.userAnswer)
  {
    if xs == [] then []
    else if HasAnswer(xs[0].userAnswer) then [xs[0]] + Displayed(xs[1..])
    else Displayed(xs[1..])
  }

  /** Filtering commutes with concatenation, so it keeps the relative order of the kept concepts. */
  lemma {:induction false} DisplayedAppend(a: seq<Concept>, b: seq<Concept>)
    ensures Displayed(a + b) == Displayed(a) + Displayed(b)
  {
    if a == [] {
      assert a + b == b;
    } else {
      var ab := a + b;
      assert ab[0] == a[0] && ab[1..] == a[1..] + b;
      DisplayedAppend(a[1..], b);
      if HasAnswer(a[0].userAnswer) {
        assert Displayed(ab) == [a[0]] + Displayed(ab[1..]);
      } else {
        assert Displayed(ab) == Displayed(ab[1..]);
      }
    }
  }

  /** Filtering a sorted list leaves it sorted. */
  lemma {:induction false} DisplayedSorted(order: SortBy, xs: seq<Concept>)
    requires Sorted(order, xs)
    ensures Sorted(order, Displayed(xs))
  {
    if xs != [] {
      DisplayedSorted(order, xs[1..]);
      var rest := Displayed(xs[1..]);
      if HasAnswer(xs[0].userAnswer) {
        var r := [xs[0]] + rest;
        forall j | 1 <= j < |r|
          ensures InOrder(order, xs[0], r[j])
        {
          assert r[j] in rest;
          var k :| 1 <= k < |xs| && xs[k] == r[j];
        }
      }
    }
  }

  /** The concepts the page shows: sorted by the current order, all with an answer, none with an answer missing. */
  function DisplayedConcepts(order: SortBy, answered: seq<Concept>): seq<Concept> {
    Displayed(Sort(order, answered))
  }

  lemma DisplayedConceptsSpec(order: SortBy, answered: seq<Concept>)
    ensures Sorted(order, DisplayedConcepts(order, answered))
    ensures forall c :: c in DisplayedConcepts(order, answered) <==> c in answered && HasAnswer(c.userAnswer)
  {
    var sorted := Sort(order, answered);
    DisplayedSorted(order, sorted);
    forall c
      ensures c in sorted <==> c in answered
    {
      assert c in sorted <==> c in multiset(sorted);
      assert c in answered <==> c in multiset(answered);
    }
  }
}
