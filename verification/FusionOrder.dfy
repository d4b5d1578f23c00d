/** The fused list in full: what an id scores, which of its items stands for it, and in which order. */
module FusionOrder {
  import opened Collections
  import opened RankFusion

  // ---- scores ----

  lemma {:induction false} ListScorePrefix(a: seq<Item>, b: seq<Item>, k: int, id: string, n: nat)
    requires n <= |a|
    ensures ListScore(a + b, k, id, n) == ListScore(a, k, id, n)
  {
    if n == 0 {
    } else {
      ListScorePrefix(a, b, k, id, n - 1);
    }
  }

  lemma {:induction false} ListScoreSplits(a: seq<Item>, b: seq<Item>, k: int, id: string, n: nat)
    requires n <= |b|
    ensures ListScore(a + b, k, id, |a| + n) == ListScore(a, k, id, |a|) + ListScore(b, k + |a|, id, n)
  {
    if n == 0 {
      ListScorePrefix(a, b, k, id, |a|);
    } else {
      ListScoreSplits(a, b, k, id, n - 1);
      assert (a + b)[|a| + n - 1] == b[n - 1];
    }
  }

  lemma {:induction false} ScoreSplits(a: seq<seq<Item>>, b: seq<seq<Item>>, k: int, id: string, n: nat)
    requires n <= |b|
    ensures Score(a + b, k, id, |a| + n) == Score(a, k, id, |a|) + Score(b, k, id, n)
  {
    if n == 0 {
      assert (a + b)[..|a|] == a[..|a|];
      ScorePrefix(a + b, a, k, id, |a|);
    } else {
      ScoreSplits(a, b, k, id, n - 1);
      assert (a + b)[|a| + n - 1] == b[n - 1];
    }
  }

  lemma OneList(list: seq<Item>, k: int, id: string)
    ensures Score([list], k, id, 1) == ListScore(list, k, id, |list|)
  {
    assert Score([list], k, id, 0) == 0.0;
  }

  /** A place is worth the reciprocal of k plus its rank, ... */
  lemma PlaceIsReciprocal(x: Item, k: int, id: string)
    ensures Score([[x]], k, id, 1) * (k + 1) as real == if x.id == id && k + 1 != 0 then 1.0 else 0.0
  {
    OneList([x], k, id);
    assert ListScore([x], k, id, 0) == 0.0 && ListScore([x], k, id, 1) == if x.id == id then Weight(k, 1) else 0.0;
  }

  /** ... what a list is worth to an id is the sum over its places, ... */
  lemma PlacesAddUp(list: seq<Item>, more: seq<Item>, k: int, id: string)
    ensures Score([list + more], k, id, 1) == Score([list], k, id, 1) + Score([more], k + |list|, id, 1)
  {
    OneList(list, k, id);
    OneList(more, k + |list|, id);
    OneList(list + more, k, id);
    ListScoreSplits(list, more, k, id, |more|);
  }

  /** ... and the score the sum over the lists. */
  lemma ListsAddUp(lists: seq<seq<Item>>, more: seq<seq<Item>>, k: int, id: string)
    ensures Score(lists + more, k, id, |lists + more|) == Score(lists, k, id, |lists|) + Score(more, k, id, |more|)
  {
    ScoreSplits(lists, more, k, id, |more|);
  }

  // ---- items and order ----

  /** All places of n lists and j places of the next one, one after another. */
  function Places(lists: seq<seq<Item>>, n: nat, j: nat): seq<Item>
    requires n <= |lists| && if n == |lists| then j == 0 else j <= |lists[n]|
    decreases n, j
  {
    if j > 0 then Places(lists, n, j - 1) + [lists[n][j - 1]]
    else if n > 0 then Places(lists, n - 1, |lists[n - 1]|)
    else []
  }

  /** The first place of the id; the end, if it has none. */
  function FirstOf(places: seq<Item>, id: string): (p: nat)
    ensures p <= |places| && (p < |places| ==> places[p].id == id) && forall j :: 0 <= j < p ==> places[j].id != id
  {
    if places == [] || places[0].id == id then 0 else 1 + FirstOf(places[1..], id)
  }

  /** The items are the places' first ones, in the order of these. */
  ghost predicate FirstSights(items: seq<Item>, places: seq<Item>) {
    && (forall p :: 0 <= p < |items| ==> FirstOf(places, items[p].id) < |places| && places[FirstOf(places, items[p].id)] == items[p])
    && (forall p, q :: 0 <= p < q < |items| ==> FirstOf(places, items[p].id) < FirstOf(places, items[q].id))
  }

  lemma {:induction false} FirstStays(places: seq<Item>, x: Item, id: string)
    ensures FirstOf(places + [x], id) == if FirstOf(places, id) == |places| && x.id != id then |places| + 1 else FirstOf(places, id)
  {
    if places == [] {
      assert places + [x] == [x];
    } else {
      assert (places + [x])[1..] == places[1..] + [x];
      FirstStays(places[1..], x, id);
    }
  }

  /** Every named place's id has an item. */
  ghost predicate AllSeen(items: seq<Item>, places: seq<Item>) {
    forall p :: 0 <= p < |places| && places[p].id != "" ==> HasItem(items, places[p].id)
  }

  lemma OldFirst(items: seq<Item>, places: seq<Item>, x: Item)
    requires FirstSights(items, places)
    ensures FirstSights(items, places + [x])
    ensures forall p :: 0 <= p < |items| ==> FirstOf(places + [x], items[p].id) < |places|
  {
    forall p | 0 <= p < |items| ensures FirstOf(places + [x], items[p].id) == FirstOf(places, items[p].id) {
      FirstStays(places, x, items[p].id);
    }
  }

  lemma NotedFirst(items: seq<Item>, places: seq<Item>, x: Item)
    requires FirstSights(items, places) && AllSeen(items, places)
    ensures FirstSights(Noted(items, x), places + [x])
  {
    OldFirst(items, places, x);
    if x.id != "" && !HasItem(items, x.id) {
      var more := places + [x];
      assert FirstOf(places, x.id) == |places|;
      FirstStays(places, x, x.id);
      assert FirstOf(more, x.id) == |places| && more[|places|] == x;
      assert Noted(items, x) == items + [x];
    }
  }

  lemma AllNoted(items: seq<Item>, places: seq<Item>, x: Item)
    requires AllSeen(items, places)
    ensures AllSeen(Noted(items, x), places + [x])
  {
    forall p | 0 <= p < |places + [x]| && (places + [x])[p].id != "" ensures HasItem(Noted(items, x), (places + [x])[p].id) {
      if x.id != "" {
        NotedMembers(items, x, (places + [x])[p].id);
      }
    }
  }

  lemma {:induction false} SeenInOrder(lists: seq<seq<Item>>, n: nat, j: nat)
    requires n <= |lists| && if n == |lists| then j == 0 else j <= |lists[n]|
    ensures FirstSights(Seen(lists, n, j), Places(lists, n, j))
    ensures AllSeen(Seen(lists, n, j), Places(lists, n, j))
    decreases n, j
  {
    if j > 0 {
      SeenInOrder(lists, n, j - 1);
      NotedFirst(Seen(lists, n, j - 1), Places(lists, n, j - 1), lists[n][j - 1]);
      AllNoted(Seen(lists, n, j - 1), Places(lists, n, j - 1), lists[n][j - 1]);
    } else if n > 0 {
      SeenInOrder(lists, n - 1, |lists[n - 1]|);
    }
  }

  lemma PlaceOf(items: seq<Item>, p: nat)
    requires p < |items| && DistinctIds(items)
    ensures Place(items, items[p]) == p
  {}

  lemma HigherIsPreorder(lists: seq<seq<Item>>, k: int)
    ensures TotalPreorder(Higher(lists, k))
  {}

  lemma TiesInOrder(lists: seq<seq<Item>>, k: int, p: nat, q: nat)
    requires p < q < |Fused(lists, k)|
    requires Score(lists, k, Fused(lists, k)[p].id, |lists|) == Score(lists, k, Fused(lists, k)[q].id, |lists|)
    ensures ComesBefore(Seen(lists, |lists|, 0), Fused(lists, k)[p], Fused(lists, k)[q])
  {
    var fused := Fused(lists, k);
    FusedOnceEach(lists, k, "");
    PlaceOf(fused, p);
    PlaceOf(fused, q);
    HigherIsPreorder(lists, k);
    StableOrder(Seen(lists, |lists|, 0), Higher(lists, k), fused[p], fused[q]);
  }

  lemma FirstSightOrder(items: seq<Item>, places: seq<Item>, a: Item, b: Item)
    requires FirstSights(items, places) && b in items && ComesBefore(items, a, b)
    ensures FirstOf(places, a.id) < FirstOf(places, b.id)
  {
    assert Place(items, b) < |items|;
  }

  lemma FusedFirst(lists: seq<seq<Item>>, k: int, p: nat)
    requires p < |Fused(lists, k)|
    ensures var (places, a) := (Places(lists, |lists|, 0), Fused(lists, k)[p]);
            && a in Seen(lists, |lists|, 0)
            && FirstOf(places, a.id) < |places| && places[FirstOf(places, a.id)] == a
  {
    SeenInOrder(lists, |lists|, 0);
    MultisetMembers(Fused(lists, k), Seen(lists, |lists|, 0));
    assert Fused(lists, k)[p] in Fused(lists, k);
  }

  lemma HigherFirst(lists: seq<seq<Item>>, k: int, p: nat, q: nat)
    requires p < q < |Fused(lists, k)|
    ensures Score(lists, k, Fused(lists, k)[p].id, |lists|) >= Score(lists, k, Fused(lists, k)[q].id, |lists|)
  {
    FusedOnceEach(lists, k, "");
    assert Higher(lists, k)(Fused(lists, k)[p], Fused(lists, k)[q]);
  }

  /** An id is represented by the first item that any list has under it; of two ids in the fused list the one
      that stands before the other has the higher score or, with the same score, was seen first. */
  lemma FusedInOrder(lists: seq<seq<Item>>, k: int, p: nat, q: nat)
    requires p < q < |Fused(lists, k)|
    ensures var (places, a, b) := (Places(lists, |lists|, 0), Fused(lists, k)[p], Fused(lists, k)[q]);
            var (i, j) := (FirstOf(places, a.id), FirstOf(places, b.id));
            && i < |places| && places[i] == a && j < |places| && places[j] == b
            && (|| Score(lists, k, a.id, |lists|) > Score(lists, k, b.id, |lists|)
                || (Score(lists, k, a.id, |lists|) == Score(lists, k, b.id, |lists|) && i < j))
  {
    var fused, places := Fused(lists, k), Places(lists, |lists|, 0);
    FusedFirst(lists, k, p);
    FusedFirst(lists, k, q);
    HigherFirst(lists, k, p, q);
    if Score(lists, k, fused[p].id, |lists|) == Score(lists, k, fused[q].id, |lists|) {
      TiesInOrder(lists, k, p, q);
      SeenInOrder(lists, |lists|, 0);
      FirstSightOrder(Seen(lists, |lists|, 0), places, fused[p], fused[q]);
    }
  }
}
