/** The agent index read off its calls: who is known, by which vector, and who a broadcast goes to. */
module AgentHistory {
  import opened Collections
  import opened AgentIndex

  // ---- the inner product and the cosine ----

  /** With its value on single numbers, this determines the inner product. */
  lemma {:induction false} DotSplits(a: Vector, b: Vector, c: Vector, d: Vector, n: nat)
    requires |a| == |b| && n <= |c| && n <= |d|
    ensures Dot(a + c, b + d, |a| + n) == Dot(a, b, |a|) + Dot(c, d, n)
  {
    if n == 0 {
      DotPrefix(a, b, c, d, |a|);
    } else {
      DotSplits(a, b, c, d, n - 1);
      assert (a + c)[|a| + n - 1] == c[n - 1] && (b + d)[|b| + n - 1] == d[n - 1];
    }
  }

  lemma {:induction false} DotPrefix(a: Vector, b: Vector, c: Vector, d: Vector, n: nat)
    requires |a| == |b| && n <= |a|
    ensures Dot(a + c, b + d, n) == Dot(a, b, n)
  {
    if n == 0 {
    } else {
      DotPrefix(a, b, c, d, n - 1);
    }
  }

  /** The product of single numbers, and of vectors one after the other. */
  lemma InnerProduct(a: Vector, b: Vector, c: Vector, d: Vector, x: real, y: real)
    requires |a| == |b| && |c| == |d|
    ensures Dot([x], [y], 1) == x * y
    ensures Dot(a + c, b + d, |a| + |c|) == Dot(a, b, |a|) + Dot(c, d, |c|)
  {
    assert Dot([x], [y], 0) == 0.0;
    DotSplits(a, b, c, d, |c|);
  }

  /** Times s, u is v. */
  predicate Scales(u: Vector, s: real, v: Vector) { |u| == |v| && forall i :: 0 <= i < |v| ==> u[i] * s == v[i] }

  lemma UnitScales(norm: Vector -> real, v: Vector)
    requires Norm(norm, v) != 0.0
    ensures Scales(Unit(norm, v), norm(v), v)
  {}

  lemma Reordered(a: real, b: real, s: real, t: real)
    ensures (a * b) * (s * t) == (a * s) * (b * t)
  {}

  lemma Distributes(p: real, r: real, scale: real)
    ensures (p + r) * scale == p * scale + r * scale
  {}

  /** One more term: p and q are the sums so far, sum and whole those with the term. */
  lemma TermScales(p: real, a: real, b: real, s: real, t: real, q: real, x: real, y: real, scale: real, sum: real, whole: real)
    requires scale == s * t && a * s == x && b * t == y && p * scale == q && sum == p + a * b && whole == q + x * y
    ensures sum * scale == whole
  {
    Reordered(a, b, s, t);
    Distributes(p, a * b, scale);
  }

  lemma {:induction false} DotScales(a: Vector, b: Vector, v: Vector, w: Vector, s: real, t: real, scale: real, n: nat)
    requires Scales(a, s, v) && Scales(b, t, w) && scale == s * t && n <= |v| && n <= |w|
    ensures Dot(a, b, n) * scale == Dot(v, w, n)
  {
    if n == 0 {
    } else {
      var m := n - 1;
      DotScales(a, b, v, w, s, t, scale, m);
      TermScales(Dot(a, b, m), a[m], b[m], s, t, Dot(v, w, m), v[m], w[m], scale, Dot(a, b, n), Dot(v, w, n));
    }
  }

  lemma QuotientIff(x: real, d: real, scale: real, q: real)
    requires scale != 0.0 && d * scale == q
    ensures x * scale == q <==> x == d
  {
    if x * scale == q {
      Distributes(x, -d, scale);
      assert (x - d) * scale == 0.0;
    }
  }

  /** The similarity is the cosine of the vectors: their product over that of their norms. */
  predicate Cosine(norm: Vector -> real, v: Vector, w: Vector, similarity: real) {
    |v| == |w| && similarity * (norm(v) * norm(w)) == Dot(v, w, |v|)
  }

  lemma NonzeroProduct(s: real, t: real)
    requires s != 0.0 && t != 0.0
    ensures s * t != 0.0
  {}

  lemma ScaledCosine(a: Vector, b: Vector, v: Vector, w: Vector, s: real, t: real, scale: real, similarity: real)
    requires Scales(a, s, v) && Scales(b, t, w) && |v| == |w| && scale == s * t && scale != 0.0
    ensures similarity * scale == Dot(v, w, |v|) <==> similarity == Dot(a, b, |w|)
  {
    DotScales(a, b, v, w, s, t, scale, |w|);
    QuotientIff(similarity, Dot(a, b, |w|), scale, Dot(v, w, |w|));
  }

  lemma CosineIff(norm: Vector -> real, v: Vector, w: Vector, similarity: real)
    requires |v| == |w| && v != [] && norm(v) != 0.0 && norm(w) != 0.0
    ensures Cosine(norm, v, w, similarity) <==> similarity == Dot(Unit(norm, v), Unit(norm, w), |w|)
  {
    UnitScales(norm, v);
    UnitScales(norm, w);
    NonzeroProduct(norm(v), norm(w));
    ScaledCosine(Unit(norm, v), Unit(norm, w), v, w, norm(v), norm(w), norm(v) * norm(w), similarity);
  }

  // ---- one update ----

  /** The row of the agent holds v scaled to unit length or, where v is a single number, that number's sign
      spread over the row's width. */
  ghost predicate RowHolds(norm: Vector -> real, row: Vector, v: Vector, width: nat) {
    |row| == width && (|v| == width || |v| == 1)
    && forall k :: 0 <= k < width ==> row[k] * norm(v) == v[if |v| == width then k else 0]
  }

  /** An update of an agent that has a row exchanges that row alone, and raises, with only the time noted, exactly
      when the vector has neither the row's width nor a single entry. */
  lemma KnownUpdateTells(norm: Vector -> real, s: Index, id: string, v: Vector, now: int, i: nat)
    requires Shaped(s) && i < |Rows(s)| && s.ids[i] == id && v != [] && norm(v) != 0.0
    ensures var (s', r) := Update(norm, s, id, v, now);
            && s'.ids == s.ids && s'.lastSeen == s.lastSeen[id := now]
            && (r == Applied <==> |v| == Width(s) || |v| == 1)
            && (r == Applied ==> |Rows(s')| == |Rows(s)| && RowHolds(norm, Rows(s')[i], v, Width(s))
                                 && forall j :: 0 <= j < |Rows(s)| && j != i ==> Rows(s')[j] == Rows(s)[j])
            && (r != Applied ==> r == Raised && s'.matrix == s.matrix)
  {
    var at := IndexOf(s.ids, id);
    assert at == i;
    UnitScales(norm, v);
  }

  /** An update of an agent that is not listed lists it in any case, and adds its row exactly when there are no
      rows or the vector has their width; otherwise it raises. */
  lemma NewUpdateTells(norm: Vector -> real, s: Index, id: string, v: Vector, now: int)
    requires Shaped(s) && id !in s.ids && v != [] && norm(v) != 0.0
    ensures var (s', r) := Update(norm, s, id, v, now);
            && s'.ids == s.ids + [id] && s'.lastSeen == s.lastSeen[id := now]
            && (r == Applied <==> Rows(s) == [] || |v| == Width(s))
            && (r == Applied ==> |Rows(s')| == |Rows(s)| + 1 && Rows(s) <= Rows(s') && RowHolds(norm, Rows(s')[|Rows(s)|], v, |v|))
            && (r != Applied ==> r == Raised && s'.matrix == s.matrix)
  {
    UnitScales(norm, v);
  }

  // ---- who is known ----

  /** The call makes the agent known, by a vector that is not null. */
  predicate Heard(norm: Vector -> real, c: Call, id: string) {
    c.UpdateCall? && c.id == id && c.vector != [] && norm(c.vector) != 0.0
  }

  /** The call makes the agent, last seen at that time, forgotten. */
  predicate Forgets(c: Call, id: string, seen: int) {
    c == RemoveCall(id) || (c.SweepCall? && c.now - seen > 300)
  }

  /** Call j is the last to make the agent known, and none of the first n has made it forgotten since. */
  ghost predicate LastHeard(norm: Vector -> real, calls: seq<Call>, n: nat, id: string, j: nat) {
    && j < n <= |calls| && Heard(norm, calls[j], id)
    && forall k :: j < k < n ==> !Heard(norm, calls[k], id) && !Forgets(calls[k], id, calls[j].now)
  }

  ghost predicate KnownTells(norm: Vector -> real, calls: seq<Call>, n: nat, id: string, known: Option<Known>) {
    if known.Some? then
      exists j: nat :: LastHeard(norm, calls, n, id, j) && known.value == Known(Unit(norm, calls[j].vector), calls[j].now)
    else forall j: nat :: !LastHeard(norm, calls, n, id, j)
  }

  lemma HeardOn(norm: Vector -> real, calls: seq<Call>, m: nat, id: string, j: nat)
    requires m < |calls| && j < m && !Heard(norm, calls[m], id)
    ensures LastHeard(norm, calls, m + 1, id, j) <==> LastHeard(norm, calls, m, id, j) && !Forgets(calls[m], id, calls[j].now)
  {}

  lemma OneHeard(norm: Vector -> real, calls: seq<Call>, n: nat, id: string, i: nat, j: nat)
    requires LastHeard(norm, calls, n, id, i) && LastHeard(norm, calls, n, id, j)
    ensures i == j
  {}

  lemma KnownStep(norm: Vector -> real, calls: seq<Call>, m: nat, id: string, before: Option<Known>)
    requires m < |calls| && KnownTells(norm, calls, m, id, before)
    ensures KnownTells(norm, calls, m + 1, id, KnownNext(norm, before, calls[m], id))
  {
    var next := m + 1;
    if Heard(norm, calls[m], id) {
      assert LastHeard(norm, calls, next, id, m);
    } else {
      forall j: nat | j < m ensures LastHeard(norm, calls, next, id, j)
                              <==> LastHeard(norm, calls, m, id, j) && !Forgets(calls[m], id, calls[j].now) {
        HeardOn(norm, calls, m, id, j);
      }
      if before.Some? {
        var i: nat :| LastHeard(norm, calls, m, id, i) && before.value == Known(Unit(norm, calls[i].vector), calls[i].now);
        forall j: nat | LastHeard(norm, calls, next, id, j) ensures j == i {
          OneHeard(norm, calls, m, id, i, j);
        }
      }
    }
  }

  /** An agent is known by the last vector it sent, until it is removed or a sweep comes more than five minutes
      after that. */
  lemma {:induction false} KnownIsLastHeard(norm: Vector -> real, calls: seq<Call>, n: nat, id: string)
    requires n <= |calls|
    ensures KnownTells(norm, calls, n, id, KnownAt(norm, calls, n, id))
  {
    if n == 0 {
    } else {
      KnownIsLastHeard(norm, calls, n - 1, id);
      KnownStep(norm, calls, n - 1, id, KnownAt(norm, calls, n - 1, id));
    }
  }

  // ---- who a broadcast goes to ----

  /** On a run with vectors of one width, a broadcast goes to exactly the agents known by a vector whose cosine
      with the broadcast's is at least 0.85, the sender excepted, and each comes with that cosine. */
  lemma TargetsAreCosines(norm: Vector -> real, calls: seq<Call>, n: nat, w: Vector, source: string, id: string, similarity: real)
    requires n <= |calls| && OneWidth(norm, calls, |w|) && w != [] && norm(w) != 0.0
    ensures var s := IndexAt(norm, calls, n);
            && Shaped(s) && |Rows(s)| <= |s.ids| && (forall i :: 0 <= i < |Rows(s)| ==> |Rows(s)[i]| == |w|)
            && ((id, similarity) in Targets(s, Unit(norm, w), source, |Rows(s)|)
                <==> id != source && exists j: nat :: LastHeard(norm, calls, n, id, j) && similarity >= 0.85
                                      && Cosine(norm, calls[j].vector, w, similarity))
  {
    var s, known := IndexAt(norm, calls, n), KnownAt(norm, calls, n, id);
    RunsRepresent(norm, calls, n, |w|, id);
    KnownIsLastHeard(norm, calls, n, id);
    if s.ids != [] {
      TargetsAreTheNearOnes(s, Unit(norm, w), source, id, similarity);
    } else {
      assert Rows(s) == [] && id !in View(s);
    }
    if known.Some? {
      var j: nat :| LastHeard(norm, calls, n, id, j) && known.value == Known(Unit(norm, calls[j].vector), calls[j].now);
      CosineIff(norm, calls[j].vector, w, similarity);
      forall i: nat | LastHeard(norm, calls, n, id, i) ensures i == j {
        OneHeard(norm, calls, n, id, i, j);
      }
    }
  }
}
