/** Reciprocal rank fusion of ranked result lists, over exact rationals. */
module RankFusion {
  import opened Collections

  /** A search result: its id as text, and whatever else it carries. */
  datatype Item = Item(id: string, body: int)

  datatype Scored = Scored(item: Item, score: real)

  function Weight(k: int, rank: int): real {
    if k + rank == 0 then 0.0 else 1.0 / (k + rank) as real
  }

  /** What the first n places of one list give an id. */
  function ListScore(list: seq<Item>, k: int, id: string, n: nat): real
    requires n <= |list|
  {
    if n == 0 then 0.0
    else ListScore(list, k, id, n - 1) + if list[n - 1].id == id then Weight(k, n) else 0.0
  }

  /** What the first n lists give an id. */
  function Score(lists: seq<seq<Item>>, k: int, id: string, n: nat): real
    requires n <= |lists|
  {
    if n == 0 then 0.0 else Score(lists, k, id, n - 1) + ListScore(lists[n - 1], k, id, |lists[n - 1]|)
  }

  predicate HasItem(items: seq<Item>, id: string) { exists x :: x in items && x.id == id }

  function Noted(items: seq<Item>, x: Item): seq<Item> {
    if x.id == "" || HasItem(items, x.id) then items else items + [x]
  }

  /** The items that n lists and j places of the next one bring, each id once, in order of first sight. */
  function Seen(lists: seq<seq<Item>>, n: nat, j: nat): seq<Item>
    requires n <= |lists| && if n == |lists| then j == 0 else j <= |lists[n]|
    decreases n, j
  {
    if j > 0 then Noted(Seen(lists, n, j - 1), lists[n][j - 1])
    else if n > 0 then Seen(lists, n - 1, |lists[n - 1]|)
    else []
  }

  /** A named item stands at the one rank where 1 / (k + rank) is undefined. */
  ghost predicate DividesByZero(lists: seq<seq<Item>>, k: int) {
    exists i, j :: 0 <= i < |lists| && 0 <= j < |lists[i]| && lists[i][j].id != "" && k + j + 1 == 0
  }

  ghost function Higher(lists: seq<seq<Item>>, k: int): (Item, Item) -> bool {
    (a: Item, b: Item) => Score(lists, k, a.id, |lists|) >= Score(lists, k, b.id, |lists|)
  }

  /** What n lists and j places of the next one give an id. */
  function Given(lists: seq<seq<Item>>, k: int, id: string, n: nat, j: nat): real
    requires n <= |lists| && if n == |lists| then j == 0 else j <= |lists[n]|
  {
    Score(lists, k, id, n) + if n < |lists| then ListScore(lists[n], k, id, j) else 0.0
  }

  /** The items and score table after n lists and j places: one entry for each named id seen so far. */
  ghost predicate Tally(scores: map<string, real>, items: seq<Item>, lists: seq<seq<Item>>, k: int, n: nat, j: nat)
    requires n <= |lists| && if n == |lists| then j == 0 else j <= |lists[n]|
  {
    && items == Seen(lists, n, j)
    && "" !in scores
    && (forall id :: id in scores <==> HasItem(items, id))
    && (forall id :: id in scores ==> scores[id] == Given(lists, k, id, n, j))
    && (forall id :: id !in scores && id != "" ==> Given(lists, k, id, n, j) == 0.0)
  }

  /** No named item among n lists and j places of the next one stands at the undefined rank. */
  ghost predicate Defined(lists: seq<seq<Item>>, k: int, n: nat, j: nat)
    requires n <= |lists| && if n == |lists| then j == 0 else j <= |lists[n]|
  {
    && (forall i, l :: 0 <= i < n && 0 <= l < |lists[i]| && lists[i][l].id != "" ==> k + l + 1 != 0)
    && (forall l :: 0 <= l < j && lists[n][l].id != "" ==> k + l + 1 != 0)
  }

  method RrfFuse(lists: seq<seq<Item>>, k: int) returns (fused: Option<seq<Scored>>)
    ensures fused.None? <==> DividesByZero(lists, k)
    ensures fused.Some? ==>
              var order := SortBy(Seen(lists, |lists|, 0), Higher(lists, k));
              && |fused.value| == |order|
              && forall i :: 0 <= i < |order| ==> fused.value[i] == Scored(order[i], Score(lists, k, order[i].id, |lists|))
  {
    var scores: map<string, real> := map[];
    var items: seq<Item> := [];
    for n := 0 to |lists|
      invariant Tally(scores, items, lists, k, n, 0) && Defined(lists, k, n, 0)
    {
      for j := 0 to |lists[n]|
        invariant Tally(scores, items, lists, k, n, j) && Defined(lists, k, n, j)
      {
        var x := lists[n][j];
        if x.id == "" {
          TallySkip(scores, items, lists, k, n, j);
          continue;
        }
        if k + (j + 1) == 0 {
          return None;
        }
        TallyStep(scores, items, lists, k, n, j);
        scores := scores[x.id := (if x.id in scores then scores[x.id] else 0.0) + Weight(k, j + 1)];
        if !HasItem(items, x.id) {
          items := items + [x];
        }
      }
      TallyNext(scores, items, lists, k, n);
    }
    SameRanking(items, scores, lists, k);
    var order := Ranked(items, scores);
    fused := Some(seq(|order|, i requires 0 <= i < |order| => Scored(order[i], TableScore(scores, order[i]))));
  }

  /** sorted() by the score table, highest first. */
  function Ranked(items: seq<Item>, scores: map<string, real>): seq<Item> {
    SortBy(items, (a: Item, b: Item) => TableScore(scores, a) >= TableScore(scores, b))
  }

  function TableScore(scores: map<string, real>, x: Item): real { if x.id in scores then scores[x.id] else 0.0 }

  lemma {:induction false} SameSort(xs: seq<Item>, f: (Item, Item) -> bool, g: (Item, Item) -> bool)
    requires forall a, b :: a in xs && b in xs ==> f(a, b) == g(a, b)
    ensures SortBy(xs, f) == SortBy(xs, g)
  {
    if xs == [] {
    } else {
      SameSort(xs[1..], f, g);
      var rest := SortBy(xs[1..], f);
      MultisetMembers(rest, xs[1..]);
      SameInsert(xs[0], rest, f, g);
    }
  }

  lemma {:induction false} SameInsert(x: Item, xs: seq<Item>, f: (Item, Item) -> bool, g: (Item, Item) -> bool)
    requires forall b :: b in xs ==> f(x, b) == g(x, b)
    ensures Insert(x, xs, f) == Insert(x, xs, g)
  {
    if xs == [] {
    } else {
      SameInsert(x, xs[1..], f, g);
    }
  }

  lemma SameRanking(items: seq<Item>, scores: map<string, real>, lists: seq<seq<Item>>, k: int)
    requires Tally(scores, items, lists, k, |lists|, 0)
    ensures Ranked(items, scores) == SortBy(Seen(lists, |lists|, 0), Higher(lists, k))
    ensures forall x :: x in Ranked(items, scores) ==> TableScore(scores, x) == Score(lists, k, x.id, |lists|)
  {
    forall x | x in items ensures TableScore(scores, x) == Score(lists, k, x.id, |lists|) {
      assert HasItem(items, x.id);
    }
    SameSort(items, (a: Item, b: Item) => TableScore(scores, a) >= TableScore(scores, b), Higher(lists, k));
    MultisetMembers(Ranked(items, scores), items);
  }

  lemma NotedMembers(items: seq<Item>, x: Item, id: string)
    requires x.id != ""
    ensures HasItem(Noted(items, x), id) <==> HasItem(items, id) || id == x.id
  {
    assert x in items + [x];
    if HasItem(items, id) {
      var y :| y in items && y.id == id;
      assert y in items + [x];
    }
  }

  lemma TallyStep(scores: map<string, real>, items: seq<Item>, lists: seq<seq<Item>>, k: int, n: nat, j: nat)
    requires n < |lists| && j < |lists[n]| && lists[n][j].id != "" && Tally(scores, items, lists, k, n, j)
    ensures var x := lists[n][j];
            var before := if x.id in scores then scores[x.id] else 0.0;
            Tally(scores[x.id := before + Weight(k, j + 1)], Noted(items, x), lists, k, n, j + 1)
  {
    forall id ensures HasItem(Noted(items, lists[n][j]), id) <==> HasItem(items, id) || id == lists[n][j].id {
      NotedMembers(items, lists[n][j], id);
    }
  }

  lemma TallySkip(scores: map<string, real>, items: seq<Item>, lists: seq<seq<Item>>, k: int, n: nat, j: nat)
    requires n < |lists| && j < |lists[n]| && lists[n][j].id == "" && Tally(scores, items, lists, k, n, j)
    ensures Tally(scores, items, lists, k, n, j + 1)
  {}

  lemma TallyNext(scores: map<string, real>, items: seq<Item>, lists: seq<seq<Item>>, k: int, n: nat)
    requires n < |lists| && Tally(scores, items, lists, k, n, |lists[n]|)
    ensures Tally(scores, items, lists, k, n + 1, 0)
  {}

  // ---- the fused list ----

  ghost function Fused(lists: seq<seq<Item>>, k: int): seq<Item> { SortBy(Seen(lists, |lists|, 0), Higher(lists, k)) }

  ghost predicate DistinctIds(items: seq<Item>) { DistinctBy(items, (x: Item) => x.id) }

  ghost predicate Occurs(lists: seq<seq<Item>>, id: string, n: nat, j: nat)
    requires n <= |lists| && if n == |lists| then j == 0 else j <= |lists[n]|
  {
    || (exists i, l :: 0 <= i < n && 0 <= l < |lists[i]| && lists[i][l].id == id)
    || (exists l :: 0 <= l < j && lists[n][l].id == id)
  }

  lemma {:induction false} SeenIffOccurs(lists: seq<seq<Item>>, n: nat, j: nat, id: string)
    requires n <= |lists| && if n == |lists| then j == 0 else j <= |lists[n]|
    ensures HasItem(Seen(lists, n, j), id) <==> id != "" && Occurs(lists, id, n, j)
    decreases n, j
  {
    if j > 0 {
      SeenIffOccurs(lists, n, j - 1, id);
      var x := lists[n][j - 1];
      if x.id != "" {
        NotedMembers(Seen(lists, n, j - 1), x, id);
      }
      assert Occurs(lists, id, n, j) <==> Occurs(lists, id, n, j - 1) || x.id == id;
    } else if n > 0 {
      SeenIffOccurs(lists, n - 1, |lists[n - 1]|, id);
    }
  }

  lemma {:induction false} SeenDistinct(lists: seq<seq<Item>>, n: nat, j: nat)
    requires n <= |lists| && if n == |lists| then j == 0 else j <= |lists[n]|
    ensures DistinctIds(Seen(lists, n, j))
    decreases n, j
  {
    if j > 0 {
      SeenDistinct(lists, n, j - 1);
      var before := Seen(lists, n, j - 1);
      assert forall i :: 0 <= i < |before| ==> before[i] in before;
    } else if n > 0 {
      SeenDistinct(lists, n - 1, |lists[n - 1]|);
    }
  }

  lemma {:induction false} InsertDistinct(x: Item, xs: seq<Item>, before: (Item, Item) -> bool)
    requires DistinctIds(xs) && !HasItem(xs, x.id)
    ensures DistinctIds(Insert(x, xs, before))
  {
    if xs != [] && !before(x, xs[0]) {
      assert !HasItem(xs[1..], x.id);
      InsertDistinct(x, xs[1..], before);
      var rest := Insert(x, xs[1..], before);
      forall i | 0 <= i < |rest| ensures rest[i].id != xs[0].id {
        assert rest[i] in multiset(rest);
        assert rest[i] == x || rest[i] in xs[1..];
        assert xs[0] in xs;
      }
    } else {
      assert forall i :: 0 <= i < |xs| ==> xs[i] in xs;
    }
  }

  lemma {:induction false} SortDistinct(xs: seq<Item>, before: (Item, Item) -> bool)
    requires DistinctIds(xs)
    ensures DistinctIds(SortBy(xs, before))
  {
    if xs == [] {
    } else {
      SortDistinct(xs[1..], before);
      MultisetMembers(SortBy(xs[1..], before), xs[1..]);
      InsertDistinct(xs[0], SortBy(xs[1..], before), before);
    }
  }

  /** The fused list has every id that some list names, once each, from the highest score down. */
  lemma FusedOnceEach(lists: seq<seq<Item>>, k: int, id: string)
    ensures DistinctIds(Fused(lists, k))
    ensures HasItem(Fused(lists, k), id) <==> id != "" && Occurs(lists, id, |lists|, 0)
    ensures SortedBy(Fused(lists, k), Higher(lists, k))
  {
    var seen := Seen(lists, |lists|, 0);
    SeenDistinct(lists, |lists|, 0);
    SeenIffOccurs(lists, |lists|, 0, id);
    SortDistinct(seen, Higher(lists, k));
    MultisetMembers(Fused(lists, k), seen);
    SortBySorts(seen, Higher(lists, k));
  }

  // ---- independence of the order of the lists ----

  lemma {:induction false} ScoreOfRest(lists: seq<seq<Item>>, k: int, id: string, p: nat, n: nat)
    requires p < n <= |lists|
    ensures Score(lists, k, id, n) == Score(lists[..p] + lists[p + 1..], k, id, n - 1) + ListScore(lists[p], k, id, |lists[p]|)
  {
    var rest := lists[..p] + lists[p + 1..];
    if n - 1 == p {
      ScorePrefix(lists, rest, k, id, p);
    } else {
      ScoreOfRest(lists, k, id, p, n - 1);
      assert rest[n - 2] == lists[n - 1];
    }
  }

  lemma {:induction false} ScorePrefix(a: seq<seq<Item>>, b: seq<seq<Item>>, k: int, id: string, n: nat)
    requires n <= |a| && n <= |b| && a[..n] == b[..n]
    ensures Score(a, k, id, n) == Score(b, k, id, n)
  {
    if n == 0 {
    } else {
      assert a[..n][n - 1] == b[..n][n - 1];
      assert a[..n - 1] == a[..n][..n - 1] && b[..n - 1] == b[..n][..n - 1];
      ScorePrefix(a, b, k, id, n - 1);
    }
  }

  lemma Unmatched<T>(a: seq<T>, b: seq<T>, p: nat)
    requires multiset(a) == multiset(b) && a != [] && p < |b| && b[p] == a[|a| - 1]
    ensures multiset(a[..|a| - 1]) == multiset(b[..p] + b[p + 1..])
  {
    assert b == b[..p] + [b[p]] + b[p + 1..];
    assert multiset(b[..p] + b[p + 1..]) == multiset(b) - multiset{b[p]};
    assert a == a[..|a| - 1] + [a[|a| - 1]];
  }

  lemma MultisetSizes<T>(a: seq<T>, b: seq<T>)
    requires multiset(a) == multiset(b)
    ensures |a| == |b|
  {
    assert |a| == |multiset(a)| == |b|;
  }

  /** Scores do not depend on the order in which the lists are given. */
  lemma {:induction false} ScoresIgnoreListOrder(a: seq<seq<Item>>, b: seq<seq<Item>>, k: int, id: string)
    requires multiset(a) == multiset(b)
    ensures Score(a, k, id, |a|) == Score(b, k, id, |b|)
    decreases |a|
  {
    MultisetSizes(a, b);
    if |a| != 0 {
      MultisetMembers(a, b);
      assert a[|a| - 1] in a;
      var p :| 0 <= p < |b| && b[p] == a[|a| - 1];
      var rest := b[..p] + b[p + 1..];
      Unmatched(a, b, p);
      ScoresIgnoreListOrder(a[..|a| - 1], rest, k, id);
      ScoreOfRest(b, k, id, p, |b|);
      ScorePrefix(a, a[..|a| - 1], k, id, |a| - 1);
    }
  }

  // ---- dominance ----

  lemma Reciprocals(x: real, y: real)
    requires 0.0 < x < y
    ensures 0.0 < 1.0 / y < 1.0 / x
  {
    var p, q := 1.0 / x, 1.0 / y;
    assert p * x == 1.0 && q * y == 1.0;
    assert q <= 0.0 ==> q * y <= 0.0;
    assert q > 0.0 ==> q * x < q * y;
    assert p <= q ==> p * x <= q * x;
  }

  function Count(list: seq<Item>, id: string, n: nat): nat
    requires n <= |list|
  {
    if n == 0 then 0 else Count(list, id, n - 1) + if list[n - 1].id == id then 1 else 0
  }

  /** Reading the list from the top, a has at any place stood at least as often as b. */
  ghost predicate StaysAhead(list: seq<Item>, a: string, b: string) {
    forall n :: 0 <= n <= |list| ==> Count(list, b, n) <= Count(list, a, n)
  }

  lemma WeightsFall(k: int, n: nat)
    requires k >= 0 && n >= 1
    ensures 0.0 < Weight(k, n + 1) < Weight(k, n)
  {
    Reciprocals((k + n) as real, (k + n + 1) as real);
  }

  /** c times w, summed up. */
  function Times(c: nat, w: real): (r: real)
    ensures w > 0.0 ==> r >= 0.0
  {
    if c == 0 then 0.0 else Times(c - 1, w) + w
  }

  /** A lead in number loses value when the weight falls. */
  lemma {:induction false} LeadShrinks(more: nat, less: nat, before: real, now: real)
    requires less <= more && 0.0 < now < before
    ensures 0.0 <= Times(more, now) - Times(less, now) <= Times(more, before) - Times(less, before)
    ensures less < more ==> Times(more, now) - Times(less, now) < Times(more, before) - Times(less, before)
    decreases more
  {
    if less == more {
      assert Times(more, now) == Times(less, now);
    } else {
      LeadShrinks(more - 1, less, before, now);
    }
  }

  /** a's margin in score after n places is at least its lead in number at the last weight, and more than that
      once b has stood. */
  ghost predicate Worth(list: seq<Item>, k: int, a: string, b: string, n: nat)
    requires n <= |list|
  {
    var margin := ListScore(list, k, a, n) - ListScore(list, k, b, n);
    var lead := Times(Count(list, a, n), Weight(k, n)) - Times(Count(list, b, n), Weight(k, n));
    margin >= lead && (Count(list, b, n) > 0 ==> margin > lead)
  }

  lemma WorthStep(list: seq<Item>, k: int, a: string, b: string, n: nat)
    requires k >= 0 && a != b && 1 < n <= |list| && StaysAhead(list, a, b) && Worth(list, k, a, b, n - 1)
    ensures Worth(list, k, a, b, n)
  {
    var before, now := Weight(k, n - 1), Weight(k, n);
    assert Count(list, b, n - 1) <= Count(list, a, n - 1) && Count(list, b, n) <= Count(list, a, n);
    WeightsFall(k, n - 1);
    LeadShrinks(Count(list, a, n - 1), Count(list, b, n - 1), before, now);
    OnePlace(list, k, a, n);
    OnePlace(list, k, b, n);
  }

  lemma OnePlace(list: seq<Item>, k: int, id: string, n: nat)
    requires 1 <= n <= |list|
    ensures if list[n - 1].id == id
            then Count(list, id, n) == Count(list, id, n - 1) + 1
              && ListScore(list, k, id, n) == ListScore(list, k, id, n - 1) + Weight(k, n)
              && Times(Count(list, id, n), Weight(k, n)) == Times(Count(list, id, n - 1), Weight(k, n)) + Weight(k, n)
            else Count(list, id, n) == Count(list, id, n - 1) && ListScore(list, k, id, n) == ListScore(list, k, id, n - 1)
  {}

  lemma {:induction false} LeadIsWorth(list: seq<Item>, k: int, a: string, b: string, n: nat)
    requires k >= 0 && a != b && 1 <= n <= |list| && StaysAhead(list, a, b)
    ensures Worth(list, k, a, b, n)
  {
    if n == 1 {
      assert Count(list, a, 0) == Count(list, b, 0) == 0;
      assert ListScore(list, k, a, 0) == ListScore(list, k, b, 0) == 0.0;
      assert Count(list, b, 1) <= Count(list, a, 1);
      OnePlace(list, k, a, 1);
      OnePlace(list, k, b, 1);
    } else {
      LeadIsWorth(list, k, a, b, n - 1);
      WorthStep(list, k, a, b, n);
    }
  }

  lemma AheadScoresMore(list: seq<Item>, k: int, a: string, b: string)
    requires k >= 0 && a != b && StaysAhead(list, a, b)
    ensures ListScore(list, k, b, |list|) <= ListScore(list, k, a, |list|)
    ensures Count(list, b, |list|) > 0 ==> ListScore(list, k, b, |list|) < ListScore(list, k, a, |list|)
  {
    if list == [] {
      assert ListScore(list, k, a, 0) == ListScore(list, k, b, 0);
    } else {
      LeadIsWorth(list, k, a, b, |list|);
      WeightsFall(k, |list|);
      assert Count(list, b, |list|) <= Count(list, a, |list|);
      LeadShrinks(Count(list, a, |list|), Count(list, b, |list|), 2.0 * Weight(k, |list|), Weight(k, |list|));
    }
  }

  lemma {:induction false} DominantScore(lists: seq<seq<Item>>, k: int, a: string, b: string, n: nat)
    requires k >= 0 && a != b && n <= |lists|
    requires forall i :: 0 <= i < |lists| ==> StaysAhead(lists[i], a, b)
    ensures Score(lists, k, b, n) <= Score(lists, k, a, n)
    ensures (exists i :: 0 <= i < n && Count(lists[i], b, |lists[i]|) > 0) ==> Score(lists, k, b, n) < Score(lists, k, a, n)
  {
    if n == 0 {
      assert Score(lists, k, b, 0) == Score(lists, k, a, 0);
    } else {
      DominantScore(lists, k, a, b, n - 1);
      AheadScoresMore(lists[n - 1], k, a, b);
    }
  }

  lemma {:induction false} CountedPlace(list: seq<Item>, p: nat, n: nat)
    requires p < n <= |list|
    ensures Count(list, list[p].id, n) >= 1
  {
    if n - 1 == p {
      assert Count(list, list[p].id, n) == Count(list, list[p].id, p) + 1;
    } else {
      CountedPlace(list, p, n - 1);
    }
  }

  /** An id that in every list stays ahead of another comes before it in the result. */
  lemma DominantComesFirst(lists: seq<seq<Item>>, k: int, p: nat, q: nat)
    requires k >= 0 && p < |Fused(lists, k)| && q < |Fused(lists, k)| && p != q
    requires var a, b := Fused(lists, k)[p].id, Fused(lists, k)[q].id;
             forall i :: 0 <= i < |lists| ==> StaysAhead(lists[i], a, b)
    ensures p < q
  {
    var fused := Fused(lists, k);
    var a, b := fused[p].id, fused[q].id;
    FusedOnceEach(lists, k, b);
    assert a != b;
    assert fused[q] in fused && HasItem(fused, b);
    var i, l :| 0 <= i < |lists| && 0 <= l < |lists[i]| && lists[i][l].id == b;
    CountedPlace(lists[i], l, |lists[i]|);
    DominantScore(lists, k, a, b, |lists|);
    assert !Higher(lists, k)(fused[q], fused[p]);
  }

  // ---- lists in which the later id stands once ----

  /** Wherever b stands in the list, a stands ahead of it. */
  ghost predicate Ahead(list: seq<Item>, a: string, b: string) {
    forall q :: 0 <= q < |list| && list[q].id == b ==> exists p :: 0 <= p < q && list[p].id == a
  }

  lemma {:induction false} OnceStaysAhead(list: seq<Item>, a: string, b: string, n: nat)
    requires a != b && n <= |list| && Ahead(list, a, b) && Count(list, b, |list|) <= 1
    ensures Count(list, b, n) <= Count(list, a, n)
  {
    CountRises(list, b, n, |list|);
    if q :| 0 <= q < n && list[q].id == b {
      var p :| 0 <= p < q && list[p].id == a;
      CountedPlace(list, p, n);
    } else {
      CountNothing(list, b, n);
    }
  }

  lemma {:induction false} CountRises(list: seq<Item>, id: string, m: nat, n: nat)
    requires m <= n <= |list|
    ensures Count(list, id, m) <= Count(list, id, n)
  {
    if m == n {
      assert Count(list, id, m) == Count(list, id, n);
    } else {
      CountRises(list, id, m, n - 1);
    }
  }

  lemma {:induction false} CountNothing(list: seq<Item>, id: string, n: nat)
    requires n <= |list| && forall q :: 0 <= q < n ==> list[q].id != id
    ensures Count(list, id, n) == 0
  {
    if n == 0 {
      assert Count(list, id, 0) == 0;
    } else {
      CountNothing(list, id, n - 1);
    }
  }

  /** So an id that stands ahead of another in every list that has the other, and has it once, comes before
      it in the result, whatever else the lists repeat. */
  lemma AheadComesFirst(lists: seq<seq<Item>>, k: int, p: nat, q: nat)
    requires k >= 0 && p < |Fused(lists, k)| && q < |Fused(lists, k)| && p != q
    requires var a, b := Fused(lists, k)[p].id, Fused(lists, k)[q].id;
             forall i :: 0 <= i < |lists| ==> Ahead(lists[i], a, b) && Count(lists[i], b, |lists[i]|) <= 1
    ensures p < q
  {
    var a, b := Fused(lists, k)[p].id, Fused(lists, k)[q].id;
    FusedOnceEach(lists, k, b);
    forall i | 0 <= i < |lists| ensures StaysAhead(lists[i], a, b) {
      forall n | 0 <= n <= |lists[i]| ensures Count(lists[i], b, n) <= Count(lists[i], a, n) {
        OnceStaysAhead(lists[i], a, b, n);
      }
    }
    DominantComesFirst(lists, k, p, q);
  }

  // ---- lists that repeat the later id ----

  lemma WeightBounds(k: int, n: nat, limit: nat)
    requires k >= limit && 1 <= n <= limit
    ensures 1.0 / (k + limit) as real <= Weight(k, n) < 1.0 / k as real
    ensures 1.0 / k as real <= 2.0 * (1.0 / (k + limit) as real)
  {
    Reciprocals(k as real, (k + n) as real);
    if n < limit {
      Reciprocals((k + n) as real, (k + limit) as real);
    }
    HalfBound(k as real, (k + limit) as real);
  }

  lemma HalfBound(x: real, y: real)
    requires 0.0 < x && 0.0 < y <= 2.0 * x
    ensures 1.0 / x <= 2.0 * (1.0 / y)
  {
    var p, q := 1.0 / x, 1.0 / y;
    assert p * x == 1.0 && q * y == 1.0;
    assert q > 0.0 by {
      assert q <= 0.0 ==> q * y <= 0.0;
    }
    assert q * y <= q * (2.0 * x);
    assert p > 2.0 * q ==> p * x > 2.0 * q * x;
  }

  /** When each place is worth at least lo and less than hi, c places are worth between c times either. */
  lemma {:induction false} ScoreBounds(list: seq<Item>, k: int, id: string, n: nat, lo: real, hi: real)
    requires n <= |list| && forall m :: 1 <= m <= |list| ==> lo <= Weight(k, m) < hi
    ensures Times(Count(list, id, n), lo) <= ListScore(list, k, id, n) <= Times(Count(list, id, n), hi)
    ensures Count(list, id, n) > 0 ==> ListScore(list, k, id, n) < Times(Count(list, id, n), hi)
  {
    if n == 0 {
      assert ListScore(list, k, id, 0) == 0.0;
    } else {
      ScoreBounds(list, k, id, n - 1, lo, hi);
      assert lo <= Weight(k, n) < hi;
    }
  }

  /** The exact boundary for one list, when a stands in it once and k is at least its length: a, standing
      ahead of b, outscores it if and only if b stands once. Two places of b, however low, outweigh one of a. */
  lemma AheadOutscoresIff(list: seq<Item>, k: int, a: string, b: string)
    requires 1 <= |list| <= k && a != b && Ahead(list, a, b)
    requires Count(list, a, |list|) == 1 && Count(list, b, |list|) >= 1
    ensures ListScore(list, k, a, |list|) > ListScore(list, k, b, |list|) <==> Count(list, b, |list|) == 1
  {
    if Count(list, b, |list|) == 1 {
      forall m | 0 <= m <= |list| ensures Count(list, b, m) <= Count(list, a, m) {
        OnceStaysAhead(list, a, b, m);
      }
      AheadScoresMore(list, k, a, b);
    } else {
      RepeatedOutscores(list, k, a, b);
    }
  }

  lemma RepeatedOutscores(list: seq<Item>, k: int, a: string, b: string)
    requires 1 <= |list| <= k && Count(list, a, |list|) == 1 && Count(list, b, |list|) >= 2
    ensures ListScore(list, k, a, |list|) < ListScore(list, k, b, |list|)
  {
    var lo, hi := 1.0 / (k + |list|) as real, 1.0 / k as real;
    forall m | 1 <= m <= |list| ensures lo <= Weight(k, m) < hi {
      WeightBounds(k, m, |list|);
    }
    WeightBounds(k, 1, |list|);
    Reciprocals((k + |list|) as real, (k + |list| + 1) as real);
    ScoreBounds(list, k, a, |list|, lo, hi);
    ScoreBounds(list, k, b, |list|, lo, hi);
    AtLeastTwo(Count(list, b, |list|), lo);
    assert Times(1, hi) == Times(0, hi) + hi == hi;
  }

  lemma AtLeastTwo(c: nat, w: real)
    requires c >= 2 && w > 0.0
    ensures Times(c, w) >= 2.0 * w
  {
    assert Times(c, w) == Times(c - 1, w) + w == Times(c - 2, w) + w + w;
  }
}
