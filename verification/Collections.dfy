/** Small collection vocabulary shared by the models: optional values, filtering, stable sorting. */
module Collections {

  datatype Option<+T> = None | Some(value: T)

  function Filter<T(!new)>(xs: seq<T>, keep: T -> bool): (r: seq<T>)
    ensures |r| <= |xs|
    ensures forall x :: x in r <==> x in xs && keep(x)
  {
    if xs == [] then []
    else
      var rest := Filter(xs[1..], keep);
      if keep(xs[0]) then [xs[0]] + rest else rest
  }

  lemma {:induction false} FilterAppend<T(!new)>(xs: seq<T>, ys: seq<T>, keep: T -> bool)
    ensures Filter(xs + ys, keep) == Filter(xs, keep) + Filter(ys, keep)
  {
    if xs == [] {
      assert xs + ys == ys;
    } else {
      assert (xs + ys)[1..] == xs[1..] + ys;
      FilterAppend(xs[1..], ys, keep);
    }
  }

  ghost predicate Distinct<T(!new)>(xs: seq<T>) {
    forall i, j :: 0 <= i < j < |xs| ==> xs[i] != xs[j]
  }

  /** No two elements have the same key. */
  ghost predicate DistinctBy<T(!new), K(!new)>(xs: seq<T>, key: T -> K) {
    forall i, j :: 0 <= i < j < |xs| ==> key(xs[i]) != key(xs[j])
  }

  function SetOf<T>(xs: seq<T>): set<T> { set x | x in xs }

  lemma HeadAndTail<T>(xs: seq<T>)
    requires xs != []
    ensures multiset(xs) == multiset{xs[0]} + multiset(xs[1..])
  {
    assert xs == [xs[0]] + xs[1..];
  }

  // ---- stable insertion sort: the order in which Python's sorted() lists its input ----

  /** before(a, b) says that a may stand before b; equal elements keep their input order. */
  function Insert<T>(x: T, xs: seq<T>, before: (T, T) -> bool): (r: seq<T>)
    ensures multiset(r) == multiset(xs) + multiset{x}
    ensures |r| == |xs| + 1
  {
    if xs == [] then [x]
    else if before(x, xs[0]) then [x] + xs
    else
      HeadAndTail(xs);
      [xs[0]] + Insert(x, xs[1..], before)
  }

  function SortBy<T>(xs: seq<T>, before: (T, T) -> bool): (r: seq<T>)
    ensures multiset(r) == multiset(xs)
    ensures |r| == |xs|
  {
    if xs == [] then []
    else
      HeadAndTail(xs);
      Insert(xs[0], SortBy(xs[1..], before), before)
  }

  ghost predicate TotalPreorder<T(!new)>(before: (T, T) -> bool) {
    && (forall a, b :: before(a, b) || before(b, a))
    && (forall a, b, c :: before(a, b) && before(b, c) ==> before(a, c))
  }

  ghost predicate SortedBy<T>(xs: seq<T>, before: (T, T) -> bool) {
    forall i, j :: 0 <= i < j < |xs| ==> before(xs[i], xs[j])
  }

  lemma MultisetMembers<T>(xs: seq<T>, ys: seq<T>)
    requires multiset(xs) == multiset(ys)
    ensures forall x :: x in xs <==> x in ys
  {
    forall x ensures x in xs <==> x in ys {
      assert x in multiset(xs) <==> x in multiset(ys);
    }
  }

  lemma {:induction false} InsertKeepsOrder<T(!new)>(x: T, xs: seq<T>, before: (T, T) -> bool)
    requires TotalPreorder(before) && SortedBy(xs, before)
    ensures SortedBy(Insert(x, xs, before), before)
  {
    if xs != [] && !before(x, xs[0]) {
      InsertKeepsOrder(x, xs[1..], before);
      var rest := Insert(x, xs[1..], before);
      forall j | 0 <= j < |rest| ensures before(xs[0], rest[j]) {
        assert rest[j] in multiset(rest);
        assert rest[j] == x || rest[j] in xs[1..];
      }
    }
  }

  lemma {:induction false} SortBySorts<T(!new)>(xs: seq<T>, before: (T, T) -> bool)
    requires TotalPreorder(before)
    ensures SortedBy(SortBy(xs, before), before)
  {
    if xs == [] {
    } else {
      SortBySorts(xs[1..], before);
      InsertKeepsOrder(xs[0], SortBy(xs[1..], before), before);
    }
  }

  /** May stand on either side of c. */
  ghost function Tied<T>(before: (T, T) -> bool, c: T): T -> bool { x => before(x, c) && before(c, x) }

  lemma {:induction false} InsertIsStable<T(!new)>(x: T, xs: seq<T>, before: (T, T) -> bool, c: T)
    requires TotalPreorder(before)
    ensures Filter(Insert(x, xs, before), Tied(before, c))
         == (if Tied(before, c)(x) then [x] else []) + Filter(xs, Tied(before, c))
  {
    if xs == [] || before(x, xs[0]) {
      assert ([x] + xs)[1..] == xs;
    } else {
      InsertIsStable(x, xs[1..], before, c);
      var rest := Insert(x, xs[1..], before);
      assert ([xs[0]] + rest)[1..] == rest;
    }
  }

  /** Elements that may stand either way round are left in their order. */
  lemma {:induction false} SortIsStable<T(!new)>(xs: seq<T>, before: (T, T) -> bool, c: T)
    requires TotalPreorder(before)
    ensures Filter(SortBy(xs, before), Tied(before, c)) == Filter(xs, Tied(before, c))
  {
    if xs == [] {
    } else {
      SortIsStable(xs[1..], before, c);
      InsertIsStable(xs[0], SortBy(xs[1..], before), before, c);
    }
  }

  /** Where x stands first; the end, if it does not. */
  function Place<T(==)>(xs: seq<T>, x: T): (p: nat)
    ensures p <= |xs| && (p < |xs| ==> xs[p] == x) && forall j :: 0 <= j < p ==> xs[j] != x
  {
    if xs == [] || xs[0] == x then 0 else 1 + Place(xs[1..], x)
  }

  predicate ComesBefore<T(==)>(xs: seq<T>, a: T, b: T) { Place(xs, a) < Place(xs, b) }

  lemma {:induction false} OrderInFilter<T(!new)>(xs: seq<T>, keep: T -> bool, a: T, b: T)
    requires keep(a) && keep(b)
    ensures ComesBefore(Filter(xs, keep), a, b) <==> ComesBefore(xs, a, b)
  {
    if xs == [] {
    } else {
      OrderInFilter(xs[1..], keep, a, b);
    }
  }

  lemma StableOrder<T(!new)>(xs: seq<T>, before: (T, T) -> bool, a: T, b: T)
    requires TotalPreorder(before) && before(a, b) && before(b, a)
    ensures ComesBefore(SortBy(xs, before), a, b) <==> ComesBefore(xs, a, b)
  {
    SortIsStable(xs, before, b);
    OrderInFilter(SortBy(xs, before), Tied(before, b), a, b);
    OrderInFilter(xs, Tied(before, b), a, b);
  }

  lemma {:induction false} PlaceInMore<T>(xs: seq<T>, x: T, y: T)
    ensures Place(xs + [x], y) == if Place(xs, y) < |xs| || x == y then Place(xs, y) else |xs| + 1
  {
    if xs == [] {
      assert xs + [x] == [x];
    } else {
      assert (xs + [x])[1..] == xs[1..] + [x];
      PlaceInMore(xs[1..], x, y);
    }
  }
}
