/** The subconscious agent index: a list of ids, a matrix of unit rows and a table of last-seen times, kept
    side by side. */
module AgentIndex {
  import opened Collections

  type Vector = seq<real>

  const TTL_SECONDS: int := 300
  const SIMILARITY_THRESHOLD: real := 0.85

  /** A matrix is absent, or has at least one row. */
  datatype Index = Index(ids: seq<string>, matrix: Option<seq<Vector>>, lastSeen: map<string, int>)

  datatype Outcome = Applied | Skipped | Raised

  function Rows(s: Index): seq<Vector> { if s.matrix.None? then [] else s.matrix.value }

  /** What holds of the parts whatever was called: distinct ids with a time for each, rows of one width, and
      no more rows than ids. */
  ghost predicate Shaped(s: Index) {
    && Distinct(s.ids)
    && (s.matrix.Some? ==> s.matrix.value != [])
    && |Rows(s)| <= |s.ids|
    && (forall i :: 0 <= i < |Rows(s)| ==> |Rows(s)[i]| == Width(s))
    && (forall id :: id in s.lastSeen <==> id in s.ids)
  }

  /** The three parts represent one map: there is a row for each id as well. */
  ghost predicate Valid(s: Index) { Shaped(s) && |Rows(s)| == |s.ids| }

  function Width(s: Index): nat { if Rows(s) == [] then 0 else |Rows(s)[0]| }

  function IndexOf(ids: seq<string>, id: string): (i: nat)
    requires id in ids
    ensures i < |ids| && ids[i] == id && id !in ids[..i]
  {
    if ids[0] == id then 0 else 1 + IndexOf(ids[1..], id)
  }

  /** The map that is represented. */
  ghost function View(s: Index): map<string, Vector>
    requires |Rows(s)| == |s.ids|
  {
    map id | id in s.ids :: Rows(s)[IndexOf(s.ids, id)]
  }

  /** The Euclidean norm is a parameter; that of the empty vector is zero. */
  function Norm(norm: Vector -> real, v: Vector): real { if v == [] then 0.0 else norm(v) }

  function Unit(norm: Vector -> real, v: Vector): (u: Vector)
    requires Norm(norm, v) != 0.0
    ensures |u| == |v|
  {
    seq(|v|, i requires 0 <= i < |v| => v[i] / norm(v))
  }

  /** Assigning to a row: the same width is copied, a single number is spread over the row, and any other
      width is refused. */
  function Fitted(u: Vector, width: nat): Option<Vector> {
    if |u| == width then Some(u)
    else if |u| == 1 then Some(seq(width, _ => u[0]))
    else None
  }

  function Update(norm: Vector -> real, s: Index, id: string, v: Vector, now: int): (Index, Outcome) {
    if Norm(norm, v) == 0.0 then (s, Skipped)
    else
      var u := Unit(norm, v);
      var seen := s.lastSeen[id := now];
      if id in s.ids then
        var i := IndexOf(s.ids, id);
        if i < |Rows(s)| && Fitted(u, |Rows(s)[i]|).Some? then
          (Index(s.ids, Some(Rows(s)[i := Fitted(u, |Rows(s)[i]|).value]), seen), Applied)
        else (Index(s.ids, s.matrix, seen), Raised)
      else if Rows(s) == [] then (Index(s.ids + [id], Some([u]), seen), Applied)
      else if |u| == Width(s) then (Index(s.ids + [id], Some(Rows(s) + [u]), seen), Applied)
      else (Index(s.ids + [id], s.matrix, seen), Raised)
  }

  function Without<T>(xs: seq<T>, i: nat): seq<T>
    requires i < |xs|
  {
    xs[..i] + xs[i + 1..]
  }

  function Remove(s: Index, id: string): (Index, Outcome) {
    if id !in s.ids then (s, Skipped)
    else
      var i := IndexOf(s.ids, id);
      var ids, seen := Without(s.ids, i), s.lastSeen - {id};
      if Rows(s) == [] then (Index(ids, s.matrix, seen), Applied)
      else if i >= |Rows(s)| then (Index(ids, s.matrix, seen), Raised)
      else
        var rows := Without(Rows(s), i);
        (Index(ids, if rows == [] then None else Some(rows), seen), Applied)
  }

  function Stale(s: Index, now: int): seq<string> {
    Filter(s.ids, (id: string) => id in s.lastSeen && now - s.lastSeen[id] > TTL_SECONDS)
  }

  /** The removals of one round, up to the first that raises. */
  function Evicted(s: Index, stale: seq<string>, n: nat): (Index, Outcome)
    requires n <= |stale|
  {
    if n == 0 then (s, Applied)
    else
      var (t, r) := Evicted(s, stale, n - 1);
      if r.Raised? then (t, r) else Remove(t, stale[n - 1])
  }

  function Dot(a: Vector, b: Vector, n: nat): real
    requires n <= |a| && n <= |b|
  {
    if n == 0 then 0.0 else Dot(a, b, n - 1) + a[n - 1] * b[n - 1]
  }

  /** The ids of the first n rows that are near enough, the source excepted, with their similarities. */
  function Targets(s: Index, u: Vector, source: string, n: nat): seq<(string, real)>
    requires n <= |Rows(s)| <= |s.ids| && forall i :: 0 <= i < n ==> |Rows(s)[i]| == |u|
  {
    if n == 0 then []
    else
      var x := (s.ids[n - 1], Dot(Rows(s)[n - 1], u, |u|));
      Targets(s, u, source, n - 1) + if x.1 >= SIMILARITY_THRESHOLD && x.0 != source then [x] else []
  }

  // ---- the code ----

  class SubconsciousStream {
    var ids: seq<string>
    var matrix: Option<seq<Vector>>
    var lastSeen: map<string, int>
    const norm: Vector -> real

    function State(): Index
      reads this
    {
      Index(ids, matrix, lastSeen)
    }

    method UpdateAgentVector(id: string, embedding: Vector, now: int) returns (r: Outcome)
      modifies this
      ensures (State(), r) == Update(norm, old(State()), id, embedding, now)
    {
      if Norm(norm, embedding) == 0.0 {
        return Skipped;
      }
      var vec := Unit(norm, embedding);
      lastSeen := lastSeen[id := now];
      if id in ids {
        var idx := IndexOf(ids, id);
        if matrix.None? || idx >= |matrix.value| {
          return Raised;
        }
        var row := Fitted(vec, |matrix.value[idx]|);
        if row.None? {
          return Raised;
        }
        matrix := Some(matrix.value[idx := row.value]);
      } else {
        ids := ids + [id];
        if matrix.None? || |matrix.value| == 0 {
          matrix := Some([vec]);
        } else if |vec| != |matrix.value[0]| {
          return Raised;
        } else {
          matrix := Some(matrix.value + [vec]);
        }
      }
      r := Applied;
    }

    method RemoveAgent(id: string) returns (r: Outcome)
      modifies this
      ensures (State(), r) == Remove(old(State()), id)
    {
      if id !in ids {
        return Skipped;
      }
      var idx := IndexOf(ids, id);
      ids := Without(ids, idx);
      lastSeen := lastSeen - {id};
      if matrix.Some? && |matrix.value| > 0 {
        if idx >= |matrix.value| {
          return Raised;
        }
        matrix := Some(Without(matrix.value, idx));
        if |matrix.value| == 0 {
          matrix := None;
        }
      }
      r := Applied;
    }

    /** One round of the eviction loop that nobody interrupts. A removal that raises ends the round. */
    method EvictionSweep(now: int)
      modifies this
      ensures var stale := Stale(old(State()), now); State() == Evicted(old(State()), stale, |stale|).0
    {
      var stale := Stale(State(), now);
      for n := 0 to |stale|
        invariant State() == Evicted(old(State()), stale, n).0 && !Evicted(old(State()), stale, n).1.Raised?
      {
        var r := RemoveAgent(stale[n]);
        if r.Raised? {
          RoundEnds(old(State()), stale, n + 1, |stale|);
          return;
        }
      }
    }

    /** The agents a broadcast is injected into, in the order of the ids; None when the product with the
        matrix is refused. */
    method SelectTargets(embedding: Vector, source: string) returns (targets: Option<seq<(string, real)>>)
      requires Shaped(State())
      ensures targets.None? <==> matrix.Some? && Norm(norm, embedding) != 0.0 && |embedding| != Width(State())
      ensures targets.Some? && (matrix.None? || Norm(norm, embedding) == 0.0) ==> targets.value == []
      ensures targets.Some? && matrix.Some? && Norm(norm, embedding) != 0.0 ==>
                targets.value == Targets(State(), Unit(norm, embedding), source, |matrix.value|)
    {
      if |ids| == 0 || matrix.None? || Norm(norm, embedding) == 0.0 {
        return Some([]);
      }
      var vec := Unit(norm, embedding);
      if |vec| != |matrix.value[0]| {
        return None;
      }
      var found: seq<(string, real)> := [];
      for i := 0 to |matrix.value|
        invariant found == Targets(State(), vec, source, i)
      {
        var similarity := Dot(matrix.value[i], vec, |vec|);
        if similarity >= SIMILARITY_THRESHOLD && ids[i] != source {
          found := found + [(ids[i], similarity)];
        }
      }
      targets := Some(found);
    }
  }

  lemma RaisedStays(s: Index, stale: seq<string>, n: nat)
    requires n < |stale| && Evicted(s, stale, n).1.Raised?
    ensures Evicted(s, stale, n + 1) == Evicted(s, stale, n)
  {}

  lemma {:induction false} RoundEnds(s: Index, stale: seq<string>, m: nat, n: nat)
    requires m <= n <= |stale| && Evicted(s, stale, m).1.Raised?
    ensures Evicted(s, stale, n) == Evicted(s, stale, m)
    decreases n - m
  {
    if m == n {
    } else {
      RaisedStays(s, stale, m);
      RoundEnds(s, stale, m + 1, n);
    }
  }

  lemma AtIndex(s: Index, i: nat)
    requires Valid(s) && i < |s.ids|
    ensures s.ids[i] in View(s) && View(s)[s.ids[i]] == Rows(s)[i]
  {
    var j := IndexOf(s.ids, s.ids[i]);
    assert i == j;
  }

  lemma {:induction false} TargetsMembers(s: Index, u: Vector, source: string, n: nat, x: (string, real))
    requires Shaped(s) && n <= |Rows(s)| && Width(s) == |u|
    ensures x in Targets(s, u, source, n)
       <==> x.0 != source && x.1 >= SIMILARITY_THRESHOLD && exists i :: 0 <= i < n && x == (s.ids[i], Dot(Rows(s)[i], u, |u|))
  {
    if n == 0 {
      assert Targets(s, u, source, 0) == [];
    } else {
      TargetsMembers(s, u, source, n - 1, x);
    }
  }

  ghost predicate EachOnce(found: seq<(string, real)>) {
    forall i, j :: 0 <= i < j < |found| ==> found[i].0 != found[j].0
  }

  ghost predicate Among(found: seq<(string, real)>, ids: seq<string>) {
    forall i :: 0 <= i < |found| ==> found[i].0 in ids
  }

  lemma OneMoreTarget(found: seq<(string, real)>, ids: seq<string>, x: (string, real))
    requires EachOnce(found) && Among(found, ids) && x.0 !in ids
    ensures EachOnce(found + [x]) && Among(found + [x], ids + [x.0]) && Among(found, ids + [x.0])
  {}

  lemma {:induction false} TargetsDistinct(s: Index, u: Vector, source: string, n: nat)
    requires Shaped(s) && n <= |Rows(s)| && Width(s) == |u|
    ensures EachOnce(Targets(s, u, source, n)) && Among(Targets(s, u, source, n), s.ids[..n])
  {
    if n == 0 {
      assert Targets(s, u, source, 0) == [];
    } else {
      TargetsDistinct(s, u, source, n - 1);
      assert s.ids[..n] == s.ids[..n - 1] + [s.ids[n - 1]];
      assert s.ids[n - 1] !in s.ids[..n - 1];
      OneMoreTarget(Targets(s, u, source, n - 1), s.ids[..n - 1], (s.ids[n - 1], Dot(Rows(s)[n - 1], u, |u|)));
    }
  }

  /** On a valid index the targets are exactly the other agents whose vector is near enough, each once. */
  lemma TargetsAreTheNearOnes(s: Index, u: Vector, source: string, id: string, similarity: real)
    requires Valid(s) && Width(s) == |u|
    ensures (id, similarity) in Targets(s, u, source, |Rows(s)|)
       <==> id in View(s) && id != source && similarity == Dot(View(s)[id], u, |u|) && similarity >= SIMILARITY_THRESHOLD
    ensures EachOnce(Targets(s, u, source, |Rows(s)|))
  {
    TargetsMembers(s, u, source, |Rows(s)|, (id, similarity));
    TargetsDistinct(s, u, source, |Rows(s)|);
    if i :| 0 <= i < |s.ids| && s.ids[i] == id {
      AtIndex(s, i);
    }
  }

  // ---- one map ----

  lemma ViewIs(s: Index, m: map<string, Vector>)
    requires Valid(s)
    requires forall k :: 0 <= k < |s.ids| ==> s.ids[k] in m && m[s.ids[k]] == Rows(s)[k]
    requires forall x :: x in m ==> x in s.ids
    ensures View(s) == m
  {
    forall x | x in s.ids ensures x in m && View(s)[x] == m[x] {
      assert s.ids[IndexOf(s.ids, x)] == x;
    }
    assert View(s).Keys == m.Keys;
  }

  lemma KnownUpdated(norm: Vector -> real, s: Index, id: string, v: Vector, now: int)
    requires Valid(s) && Norm(norm, v) != 0.0 && id in s.ids && |v| == Width(s)
    ensures var (s', r) := Update(norm, s, id, v, now);
            r == Applied && Valid(s') && View(s') == View(s)[id := Unit(norm, v)]
  {
    var (s', r) := Update(norm, s, id, v, now);
    var i := IndexOf(s.ids, id);
    assert Rows(s') == Rows(s)[i := Unit(norm, v)];
    forall k | 0 <= k < |s.ids| ensures s.ids[k] in View(s) && View(s)[id := Unit(norm, v)][s.ids[k]] == Rows(s')[k] {
      AtIndex(s, k);
      assert s.ids[k] == id <==> k == i;
    }
    ViewIs(s', View(s)[id := Unit(norm, v)]);
  }

  lemma NewcomerParts(norm: Vector -> real, s: Index, id: string, v: Vector, now: int)
    requires Valid(s) && Norm(norm, v) != 0.0 && id !in s.ids && (s.ids == [] || |v| == Width(s))
    ensures var (s', r) := Update(norm, s, id, v, now);
            && r == Applied && Valid(s')
            && s'.ids == s.ids + [id] && Rows(s') == Rows(s) + [Unit(norm, v)]
  {}

  lemma NewcomerAdded(norm: Vector -> real, s: Index, id: string, v: Vector, now: int)
    requires Valid(s) && Norm(norm, v) != 0.0 && id !in s.ids && (s.ids == [] || |v| == Width(s))
    ensures var (s', r) := Update(norm, s, id, v, now);
            r == Applied && Valid(s') && View(s') == View(s)[id := Unit(norm, v)]
  {
    var s' := Update(norm, s, id, v, now).0;
    var m := View(s)[id := Unit(norm, v)];
    NewcomerParts(norm, s, id, v, now);
    forall k | 0 <= k < |s'.ids| ensures s'.ids[k] in m && m[s'.ids[k]] == Rows(s')[k] {
      if k < |s.ids| {
        AtIndex(s, k);
      }
    }
    ViewIs(s', m);
  }

  ghost predicate IsMapUpdate(norm: Vector -> real, s: Index, s': Index, id: string, v: Vector)
    requires Valid(s) && Norm(norm, v) != 0.0
  {
    Valid(s') && View(s') == View(s)[id := Unit(norm, v)]
  }

  lemma UpdateRefines(norm: Vector -> real, s: Index, id: string, v: Vector, now: int)
    requires Valid(s) && Norm(norm, v) != 0.0 && (s.ids == [] || |v| == Width(s))
    ensures Update(norm, s, id, v, now).1 == Applied
    ensures IsMapUpdate(norm, s, Update(norm, s, id, v, now).0, id, v)
  {
    if id in s.ids {
      KnownUpdated(norm, s, id, v, now);
    } else {
      NewcomerAdded(norm, s, id, v, now);
    }
  }

  lemma MisfitIsNoUpdate(norm: Vector -> real, s: Index, id: string, v: Vector, now: int)
    requires Valid(s) && Norm(norm, v) != 0.0 && s.ids != [] && |v| != Width(s)
    ensures !IsMapUpdate(norm, s, Update(norm, s, id, v, now).0, id, v)
  {
    if id in s.ids {
      var i := IndexOf(s.ids, id);
      var s' := Update(norm, s, id, v, now).0;
      assert s'.ids == s.ids && |Rows(s')[i]| == Width(s);
      assert View(s')[id] == Rows(s')[i];
      assert View(s)[id := Unit(norm, v)][id] == Unit(norm, v);
    }
  }

  /** An update that is not skipped is a map update if and only if the index is empty or the new vector has
      its width. */
  lemma UpdateRefinesIff(norm: Vector -> real, s: Index, id: string, v: Vector, now: int)
    requires Valid(s) && Norm(norm, v) != 0.0
    ensures IsMapUpdate(norm, s, Update(norm, s, id, v, now).0, id, v) <==> s.ids == [] || |v| == Width(s)
  {
    if s.ids == [] || |v| == Width(s) {
      UpdateRefines(norm, s, id, v, now);
    } else {
      MisfitIsNoUpdate(norm, s, id, v, now);
    }
  }

  lemma UpdateRefreshes(norm: Vector -> real, s: Index, id: string, v: Vector, now: int)
    requires Norm(norm, v) != 0.0
    ensures Update(norm, s, id, v, now).0.lastSeen == s.lastSeen[id := now]
  {}

  /** The representation breaks exactly when a new agent brings another width. */
  lemma UpdateKeepsValidIff(norm: Vector -> real, s: Index, id: string, v: Vector, now: int)
    requires Valid(s)
    ensures Valid(Update(norm, s, id, v, now).0)
        <==> Norm(norm, v) == 0.0 || id in s.ids || s.ids == [] || |v| == Width(s)
  {
    if Norm(norm, v) != 0.0 {
      if s.ids == [] || |v| == Width(s) {
        UpdateRefines(norm, s, id, v, now);
      }
    }
  }

  /** After such a failure the next newcomer's row is filed under the agent that failed. */
  lemma FailedNewcomerShiftsRows(norm: Vector -> real, s: Index, a: string, v: Vector, b: string, w: Vector, now: int)
    requires Valid(s) && s.ids != [] && a !in s.ids && b !in s.ids && a != b
    requires Norm(norm, v) != 0.0 && |v| != Width(s) && Norm(norm, w) != 0.0 && |w| == Width(s)
    ensures var s1 := Update(norm, s, a, v, now).0;
            var (s2, r) := Update(norm, s1, b, w, now);
            && r == Applied
            && s2.ids == s.ids + [a, b] && Rows(s2) == Rows(s) + [Unit(norm, w)]
  {
    var s1 := Update(norm, s, a, v, now).0;
    assert s1.ids == s.ids + [a] && b !in s1.ids;
    assert s.ids + [a] + [b] == s.ids + [a, b];
  }

  /** Removing the failed newcomer before another one comes raises as well, yet repairs the index. */
  lemma RemovalRepairs(norm: Vector -> real, s: Index, a: string, v: Vector, now: int)
    requires Valid(s) && s.ids != [] && a !in s.ids && Norm(norm, v) != 0.0 && |v| != Width(s)
    ensures Remove(Update(norm, s, a, v, now).0, a) == (s, Raised)
  {
    var s1 := Update(norm, s, a, v, now).0;
    assert IndexOf(s1.ids, a) == |s.ids| by {
      assert s1.ids == s.ids + [a];
      assert forall k :: 0 <= k < |s.ids| ==> s1.ids[k] in s.ids;
    }
    assert Without(s1.ids, |s.ids|) == s.ids;
    assert s.lastSeen[a := now] - {a} == s.lastSeen;
  }

  lemma RemoveParts(s: Index, id: string)
    requires |Rows(s)| == |s.ids| && id in s.ids
    ensures var (s', r) := Remove(s, id);
            var i := IndexOf(s.ids, id);
            && s'.ids == Without(s.ids, i) && Rows(s') == Without(Rows(s), i) && s'.lastSeen == s.lastSeen - {id}
            && (s'.matrix.None? <==> Rows(s') == []) && r == Applied
  {}

  lemma WithoutRow(rows: seq<Vector>, i: nat, width: nat)
    requires i < |rows| && forall k :: 0 <= k < |rows| ==> |rows[k]| == width
    ensures forall k :: 0 <= k < |Without(rows, i)| ==> |Without(rows, i)[k]| == width
  {}

  lemma WithoutId(ids: seq<string>, i: nat)
    requires Distinct(ids) && i < |ids|
    ensures Distinct(Without(ids, i))
    ensures forall x :: x in Without(ids, i) <==> x in ids && x != ids[i]
  {
    assert ids == ids[..i] + [ids[i]] + ids[i + 1..];
  }

  lemma RemoveKeepsValid(s: Index, id: string)
    requires Valid(s) && id in s.ids
    ensures Valid(Remove(s, id).0)
  {
    RemoveParts(s, id);
    WithoutId(s.ids, IndexOf(s.ids, id));
    WithoutRow(Rows(s), IndexOf(s.ids, id), Width(s));
  }

  /** Where the k-th agent left after a removal stood before it. */
  lemma RemovedAt(s: Index, id: string, k: nat)
    requires Valid(s) && id in s.ids && k + 1 < |s.ids|
    ensures var i := IndexOf(s.ids, id);
            var j := if k < i then k else k + 1;
            var s' := Remove(s, id).0;
            && k < |s'.ids| && |Rows(s')| == |s'.ids|
            && s'.ids[k] == s.ids[j] != id && Rows(s')[k] == Rows(s)[j]
  {
    RemoveParts(s, id);
  }

  lemma RemoveView(s: Index, id: string)
    requires Valid(s) && id in s.ids && Valid(Remove(s, id).0)
    ensures View(Remove(s, id).0) == View(s) - {id}
  {
    var s', m := Remove(s, id).0, View(s) - {id};
    RemoveParts(s, id);
    WithoutId(s.ids, IndexOf(s.ids, id));
    forall k | 0 <= k < |s'.ids| ensures s'.ids[k] in m && m[s'.ids[k]] == Rows(s')[k] {
      RemovedAt(s, id, k);
      AtIndex(s, if k < IndexOf(s.ids, id) then k else k + 1);
    }
    forall x | x in m ensures x in s'.ids {
      assert x in s.ids && x != id;
    }
    ViewIs(s', m);
  }

  /** Removal takes the agent out of all three parts. */
  lemma RemoveRefines(s: Index, id: string)
    requires Valid(s)
    ensures Valid(Remove(s, id).0) && View(Remove(s, id).0) == View(s) - {id}
    ensures Remove(s, id).0.lastSeen == s.lastSeen - {id} && Remove(s, id).1 != Raised
  {
    if id in s.ids {
      RemoveParts(s, id);
      RemoveKeepsValid(s, id);
      RemoveView(s, id);
    } else {
      assert View(s) - {id} == View(s);
      assert s.lastSeen - {id} == s.lastSeen;
    }
  }

  /** t is s without these agents. */
  ghost predicate Reduced(s: Index, t: Index, gone: set<string>)
    requires Valid(s)
  {
    Valid(t) && View(t) == View(s) - gone && t.lastSeen == s.lastSeen - gone
  }

  lemma ReducedNext(s: Index, t: Index, gone: set<string>, id: string)
    requires Valid(s) && Reduced(s, t, gone)
    ensures Reduced(s, Remove(t, id).0, gone + {id}) && !Remove(t, id).1.Raised?
  {
    RemoveRefines(t, id);
    Subtracted(View(s), gone, id);
    Subtracted(s.lastSeen, gone, id);
  }

  lemma Subtracted<T>(m: map<string, T>, gone: set<string>, id: string)
    ensures m - gone - {id} == m - (gone + {id})
  {}

  lemma SetOfNext(xs: seq<string>, n: nat)
    requires n < |xs|
    ensures SetOf(xs[..n + 1]) == SetOf(xs[..n]) + {xs[n]}
  {
    assert xs[..n + 1] == xs[..n] + [xs[n]];
  }

  lemma NothingReduced(s: Index)
    requires Valid(s)
    ensures Reduced(s, s, {})
  {
    assert View(s) - {} == View(s) && s.lastSeen - {} == s.lastSeen;
  }

  lemma {:induction false} EvictedRefines(s: Index, stale: seq<string>, n: nat)
    requires Valid(s) && n <= |stale|
    ensures Reduced(s, Evicted(s, stale, n).0, SetOf(stale[..n])) && !Evicted(s, stale, n).1.Raised?
  {
    if n == 0 {
      assert SetOf(stale[..0]) == {};
      NothingReduced(s);
    } else {
      EvictedRefines(s, stale, n - 1);
      ReducedNext(s, Evicted(s, stale, n - 1).0, SetOf(stale[..n - 1]), stale[n - 1]);
      SetOfNext(stale, n - 1);
    }
  }

  function Swept(s: Index, now: int): Index { Evicted(s, Stale(s, now), |Stale(s, now)|).0 }

  /** A sweep removes exactly the agents not seen for longer than the time to live. */
  lemma SweepEvictsExactlyTheStale(s: Index, now: int, id: string)
    requires Valid(s)
    ensures var s' := Swept(s, now);
            && Valid(s')
            && (id in View(s') <==> id in View(s) && now - s.lastSeen[id] <= TTL_SECONDS)
            && (id in View(s') ==> View(s')[id] == View(s)[id] && s'.lastSeen[id] == s.lastSeen[id])
  {
    var stale := Stale(s, now);
    EvictedRefines(s, stale, |stale|);
    assert stale[..|stale|] == stale;
  }

  // ---- runs ----

  datatype Call = UpdateCall(id: string, vector: Vector, now: int) | RemoveCall(id: string) | SweepCall(now: int)

  function Called(norm: Vector -> real, s: Index, c: Call): Index {
    match c
    case UpdateCall(id, v, now) => Update(norm, s, id, v, now).0
    case RemoveCall(id) => Remove(s, id).0
    case SweepCall(now) => Swept(s, now)
  }

  function IndexAt(norm: Vector -> real, calls: seq<Call>, n: nat): Index
    requires n <= |calls|
  {
    if n == 0 then Index([], None, map[]) else Called(norm, IndexAt(norm, calls, n - 1), calls[n - 1])
  }

  lemma UpdateKeepsShape(norm: Vector -> real, s: Index, id: string, v: Vector, now: int)
    requires Shaped(s)
    ensures Shaped(Update(norm, s, id, v, now).0)
  {}

  lemma RemoveShrinks(s: Index, id: string)
    requires id in s.ids && IndexOf(s.ids, id) < |Rows(s)|
    ensures var s', i := Remove(s, id).0, IndexOf(s.ids, id);
            && s'.ids == Without(s.ids, i) && Rows(s') == Without(Rows(s), i)
            && (s'.matrix.Some? ==> s'.matrix.value != []) && s'.lastSeen == s.lastSeen - {id}
  {}

  lemma RemoveKeepsShape(s: Index, id: string)
    requires Shaped(s)
    ensures Shaped(Remove(s, id).0)
  {
    if id in s.ids {
      var i := IndexOf(s.ids, id);
      WithoutId(s.ids, i);
      if i < |Rows(s)| {
        RemoveShrinks(s, id);
        WithoutRow(Rows(s), i, Width(s));
      }
    }
  }

  lemma {:induction false} EvictedKeepsShape(s: Index, stale: seq<string>, n: nat)
    requires Shaped(s) && n <= |stale|
    ensures Shaped(Evicted(s, stale, n).0)
  {
    if n == 0 {
      assert Evicted(s, stale, 0).0 == s;
    } else {
      EvictedKeepsShape(s, stale, n - 1);
      RemoveKeepsShape(Evicted(s, stale, n - 1).0, stale[n - 1]);
    }
  }

  /** Whatever is called, with whatever vectors, the parts keep their shape. */
  lemma {:induction false} RunsKeepShape(norm: Vector -> real, calls: seq<Call>, n: nat)
    requires n <= |calls|
    ensures Shaped(IndexAt(norm, calls, n))
  {
    if n == 0 {
      assert IndexAt(norm, calls, 0) == Index([], None, map[]);
    } else {
      var s := IndexAt(norm, calls, n - 1);
      RunsKeepShape(norm, calls, n - 1);
      match calls[n - 1]
      case UpdateCall(id, v, now) => UpdateKeepsShape(norm, s, id, v, now);
      case RemoveCall(id) => RemoveKeepsShape(s, id);
      case SweepCall(now) => EvictedKeepsShape(s, Stale(s, now), |Stale(s, now)|);
    }
  }

  /** What should be known of an agent: its unit vector and when it was last seen. */
  datatype Known = Known(row: Vector, seen: int)

  /** A call, as it is meant for one agent: an update is remembered, a removal and too long a silence forget. */
  function KnownNext(norm: Vector -> real, before: Option<Known>, c: Call, id: string): Option<Known> {
    match c
    case UpdateCall(x, v, now) => if x == id && Norm(norm, v) != 0.0 then Some(Known(Unit(norm, v), now)) else before
    case RemoveCall(x) => if x == id then None else before
    case SweepCall(now) => if before.Some? && now - before.value.seen > TTL_SECONDS then None else before
  }

  function KnownAt(norm: Vector -> real, calls: seq<Call>, n: nat, id: string): Option<Known>
    requires n <= |calls|
  {
    if n == 0 then None else KnownNext(norm, KnownAt(norm, calls, n - 1, id), calls[n - 1], id)
  }

  ghost predicate Represents(s: Index, id: string, k: Option<Known>, width: nat) {
    && Valid(s)
    && (id in View(s) <==> k.Some?)
    && (k.Some? ==> id in s.lastSeen && k.value == Known(View(s)[id], s.lastSeen[id]))
    && (s.ids != [] ==> Width(s) == width)
  }

  ghost predicate OneWidth(norm: Vector -> real, calls: seq<Call>, width: nat) {
    forall i :: 0 <= i < |calls| && calls[i].UpdateCall? && Norm(norm, calls[i].vector) != 0.0 ==> |calls[i].vector| == width
  }

  lemma WidthOfAny(s: Index, id: string)
    requires Valid(s) && id in View(s)
    ensures |View(s)[id]| == Width(s)
  {}

  lemma UpdateRepresents(norm: Vector -> real, s: Index, id: string, k: Option<Known>, width: nat, x: string, v: Vector, now: int)
    requires Represents(s, id, k, width) && |v| == width && Norm(norm, v) != 0.0
    ensures Represents(Update(norm, s, x, v, now).0, id, if x == id then Some(Known(Unit(norm, v), now)) else k, width)
  {
    UpdateRefines(norm, s, x, v, now);
    UpdateRefreshes(norm, s, x, v, now);
    var s' := Update(norm, s, x, v, now).0;
    WidthOfAny(s', x);
  }

  lemma RemoveRepresents(s: Index, id: string, k: Option<Known>, width: nat, x: string)
    requires Represents(s, id, k, width)
    ensures Represents(Remove(s, x).0, id, if x == id then None else k, width)
  {
    RemoveRefines(s, x);
    var s' := Remove(s, x).0;
    if s'.ids != [] {
      var y := s'.ids[0];
      assert y in View(s') && View(s')[y] == View(s)[y];
      WidthOfAny(s', y);
      WidthOfAny(s, y);
    }
  }

  lemma SweepRepresents(s: Index, id: string, k: Option<Known>, width: nat, now: int)
    requires Represents(s, id, k, width)
    ensures Represents(Swept(s, now), id, if k.Some? && now - k.value.seen > TTL_SECONDS then None else k, width)
  {
    SweepEvictsExactlyTheStale(s, now, id);
    var s' := Swept(s, now);
    if s'.ids != [] {
      var y := s'.ids[0];
      assert y in View(s');
      SweepEvictsExactlyTheStale(s, now, y);
      WidthOfAny(s', y);
      WidthOfAny(s, y);
    }
  }

  lemma CallRepresents(norm: Vector -> real, s: Index, id: string, k: Option<Known>, width: nat, c: Call)
    requires Represents(s, id, k, width)
    requires c.UpdateCall? && Norm(norm, c.vector) != 0.0 ==> |c.vector| == width
    ensures Represents(Called(norm, s, c), id, KnownNext(norm, k, c, id), width)
  {
    match c
    case UpdateCall(x, v, now) =>
      if Norm(norm, v) != 0.0 {
        UpdateRepresents(norm, s, id, k, width, x, v, now);
      }
    case RemoveCall(x) => RemoveRepresents(s, id, k, width, x);
    case SweepCall(now) => SweepRepresents(s, id, k, width, now);
  }

  /** From the empty index, with all vectors of one width, the three parts always represent one map, and it is
      the one the calls mean. */
  lemma {:induction false} RunsRepresent(norm: Vector -> real, calls: seq<Call>, n: nat, width: nat, id: string)
    requires n <= |calls| && OneWidth(norm, calls, width)
    ensures Represents(IndexAt(norm, calls, n), id, KnownAt(norm, calls, n, id), width)
  {
    if n == 0 {
      assert IndexAt(norm, calls, 0) == Index([], None, map[]);
    } else {
      RunsRepresent(norm, calls, n - 1, width, id);
      CallRepresents(norm, IndexAt(norm, calls, n - 1), id, KnownAt(norm, calls, n - 1, id), width, calls[n - 1]);
    }
  }
}
