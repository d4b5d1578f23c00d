/** Keyset pagination of the forensic recall endpoint, down to the text of its cursors. */
module ForensicPaging {
  import opened Collections

  // ---- uuids: numbers in the database, text in the cursor ----

  function Pow16(w: nat): (r: nat)
    ensures 1 <= r
  {
    if w == 0 then 1 else 16 * Pow16(w - 1)
  }

  type Uuid = n: nat | n < Pow16(32) witness 0

  function HexDigit(d: nat): (c: char)
    requires d < 16
    ensures c != '_'
  {
    "0123456789abcdef"[d]
  }

  function Hex(n: nat, w: nat): (s: string)
    ensures |s| == w && '_' !in s
  {
    if w == 0 then [] else Hex(n / 16, w - 1) + [HexDigit(n % 16)]
  }

  /** The canonical form, 8-4-4-4-12. */
  function Dashes(h: string): (s: string)
    requires |h| == 32
    ensures '_' !in h ==> '_' !in s
  {
    h[..8] + ("-" + (h[8..12] + ("-" + (h[12..16] + ("-" + (h[16..20] + ("-" + h[20..])))))))
  }

  function UuidText(id: Uuid): (s: string)
    ensures '_' !in s
  {
    Dashes(Hex(id, 32))
  }

  /** Text order, character by character. */
  predicate Less(a: string, b: string) {
    b != [] && (a == [] || a[0] < b[0] || (a[0] == b[0] && Less(a[1..], b[1..])))
  }

  lemma {:induction false} LessSplits(p: string, s: string, q: string, t: string)
    requires |p| == |q|
    ensures Less(p + s, q + t) <==> Less(p, q) || (p == q && Less(s, t))
    ensures p + s == q + t <==> p == q && s == t
  {
    if p == [] {
      assert p + s == s && q + t == t;
    } else {
      assert (p + s)[1..] == p[1..] + s && (q + t)[1..] == q[1..] + t;
      LessSplits(p[1..], s, q[1..], t);
      assert p == [p[0]] + p[1..] && q == [q[0]] + q[1..];
      assert p + s == [p[0]] + (p[1..] + s) && q + t == [q[0]] + (q[1..] + t);
      assert (p + s == q + t) ==> p[0] == (p + s)[0] == (q + t)[0] == q[0];
    }
  }

  lemma HexDigitOrder(a: nat, b: nat)
    requires a < 16 && b < 16
    ensures Less([HexDigit(a)], [HexDigit(b)]) <==> a < b
    ensures HexDigit(a) == HexDigit(b) <==> a == b
  {}

  /** Fixed-width hexadecimal is ordered as text the way its numbers are ordered. */
  lemma {:induction false} HexOrder(a: nat, b: nat, w: nat)
    requires a < Pow16(w) && b < Pow16(w)
    ensures Less(Hex(a, w), Hex(b, w)) <==> a < b
    ensures Hex(a, w) == Hex(b, w) <==> a == b
  {
    if w == 0 {
    } else {
      HexOrder(a / 16, b / 16, w - 1);
      HexDigitOrder(a % 16, b % 16);
      LessSplits(Hex(a / 16, w - 1), [HexDigit(a % 16)], Hex(b / 16, w - 1), [HexDigit(b % 16)]);
    }
  }

  lemma Dashed(p: string, s: string, q: string, t: string)
    requires |p| == |q|
    ensures Less(p + ("-" + s), q + ("-" + t)) <==> Less(p, q) || (p == q && Less(s, t))
  {
    LessSplits(p, "-" + s, q, "-" + t);
    LessSplits("-", s, "-", t);
  }

  lemma Cut(a: string, b: string, k: nat)
    requires |a| == |b| && k <= |a|
    ensures Less(a, b) <==> Less(a[..k], b[..k]) || (a[..k] == b[..k] && Less(a[k..], b[k..]))
  {
    assert a == a[..k] + a[k..] && b == b[..k] + b[k..];
    LessSplits(a[..k], a[k..], b[..k], b[k..]);
  }

  lemma DashesKeepOrder(g: string, h: string)
    requires |g| == |h| == 32
    ensures Less(Dashes(g), Dashes(h)) <==> Less(g, h)
  {
    Cut(g, h, 8);
    Cut(g[8..], h[8..], 4);
    Cut(g[12..], h[12..], 4);
    Cut(g[16..], h[16..], 4);
    assert g[8..][4..] == g[12..] && h[8..][4..] == h[12..] && g[8..][..4] == g[8..12] && h[8..][..4] == h[8..12];
    assert g[12..][4..] == g[16..] && h[12..][4..] == h[16..] && g[12..][..4] == g[12..16] && h[12..][..4] == h[12..16];
    assert g[16..][4..] == g[20..] && h[16..][4..] == h[20..] && g[16..][..4] == g[16..20] && h[16..][..4] == h[16..20];
    Dashed(g[16..20], g[20..], h[16..20], h[20..]);
    var g3, h3 := g[16..20] + ("-" + g[20..]), h[16..20] + ("-" + h[20..]);
    Dashed(g[12..16], g3, h[12..16], h3);
    var g2, h2 := g[12..16] + ("-" + g3), h[12..16] + ("-" + h3);
    Dashed(g[8..12], g2, h[8..12], h2);
    Dashed(g[..8], g[8..12] + ("-" + g2), h[..8], h[8..12] + ("-" + h2));
  }

  /** The order of ids as text is their order as ids. */
  lemma UuidTextOrder(a: Uuid, b: Uuid)
    ensures Less(UuidText(a), UuidText(b)) <==> a < b
  {
    HexOrder(a, b, 32);
    DashesKeepOrder(Hex(a, 32), Hex(b, 32));
  }

  // ---- cursors ----

  /** isoformat() and the cast to timestamptz, inverse to each other on the times that occur. */
  datatype Clock = Clock(show: int -> string, parse: string -> Option<int>)

  ghost predicate Faithful(clock: Clock) {
    forall t :: clock.parse(clock.show(t)) == Some(t)
  }

  /** Python's s.rsplit("__", 1): the pieces around the last separator at or before k. */
  function RSplit(s: string, k: int): Option<(string, string)>
    requires k + 2 <= |s|
    decreases k + 1
  {
    if k < 0 then None
    else if s[k..k + 2] == "__" then Some((s[..k], s[k + 2..]))
    else RSplit(s, k - 1)
  }

  lemma {:induction false} RSplitFinds(left: string, right: string, k: nat)
    requires '_' !in right && |left| <= k <= |left| + |right|
    ensures RSplit(left + "__" + right, k) == Some((left, right))
  {
    var s := left + "__" + right;
    if k == |left| {
      assert s[k..k + 2] == "__" && s[..k] == left && s[k + 2..] == right;
    } else {
      assert s[k + 1] == right[k - 1 - |left|];
      assert s[k..k + 2][1] != '_';
      RSplitFinds(left, right, k - 1);
    }
  }

  datatype Row = Row(createdAt: int, id: Uuid, content: string)

  function Encode(clock: Clock, r: Row): string {
    clock.show(r.createdAt) + "__" + UuidText(r.id)
  }

  /** What a cursor compares rows against: a time, and an id as text. */
  datatype Boundary = Boundary(at: int, idText: string)

  datatype Decoded = Start | After(boundary: Boundary) | BadCursor | BadTimestamp

  function Decode(clock: Clock, cursor: Option<string>): Decoded {
    if cursor.None? || cursor.value == "" then Start
    else if |cursor.value| < 2 then BadCursor
    else
      match RSplit(cursor.value, |cursor.value| - 2)
      case None => BadCursor
      case Some((ts, idText)) =>
        match clock.parse(ts)
        case None => BadTimestamp
        case Some(at) => After(Boundary(at, idText))
  }

  lemma DecodeJoined(clock: Clock, left: string, right: string)
    requires '_' !in right && clock.parse(left).Some?
    ensures Decode(clock, Some(left + "__" + right)) == After(Boundary(clock.parse(left).value, right))
  {
    RSplitFinds(left, right, |left| + |right|);
  }

  lemma CursorRoundTrip(clock: Clock, r: Row)
    requires Faithful(clock)
    ensures Decode(clock, Some(Encode(clock, r))) == After(Boundary(r.createdAt, UuidText(r.id)))
  {
    assert clock.parse(clock.show(r.createdAt)) == Some(r.createdAt);
    DecodeJoined(clock, clock.show(r.createdAt), UuidText(r.id));
  }

  predicate Beyond(r: Row, b: Boundary) {
    r.createdAt > b.at || (r.createdAt == b.at && Less(b.idText, UuidText(r.id)))
  }

  predicate Precedes(a: Row, b: Row) {
    a.createdAt < b.createdAt || (a.createdAt == b.createdAt && a.id < b.id)
  }

  // ---- one request ----

  datatype Response = Page(items: seq<Row>, next: Option<string>) | Rejected | Failed

  function Take<T>(xs: seq<T>, n: nat): seq<T> {
    if |xs| <= n then xs else xs[..n]
  }

  /** table lists the rows in ORDER BY created_at, id; keep is the request's filter. */
  function Recall(clock: Clock, table: seq<Row>, keep: Row -> bool, limit: nat, cursor: Option<string>): Response {
    match Decode(clock, cursor)
    case BadCursor => Rejected
    case BadTimestamp => Failed
    case Start => PageOf(clock, Filter(table, keep), limit)
    case After(b) => PageOf(clock, Filter(table, r => keep(r) && Beyond(r, b)), limit)
  }

  function PageOf(clock: Clock, matching: seq<Row>, limit: nat): Response {
    var rows := Take(matching, limit + 1);
    var items := Take(rows, limit);
    Page(items, if |rows| > limit && items != [] then Some(Encode(clock, items[|items| - 1])) else None)
  }

  predicate SeparatorAt(s: string, k: nat) { k + 2 <= |s| && s[k..k + 2] == "__" }

  ghost predicate LastSeparator(s: string, k: nat) { SeparatorAt(s, k) && forall j: nat :: k < j ==> !SeparatorAt(s, j) }

  lemma {:induction false} RSplitAt(s: string, k: nat, j: nat)
    requires k + 2 <= |s| && j <= k && SeparatorAt(s, j) && forall i: nat :: j < i <= k ==> !SeparatorAt(s, i)
    ensures RSplit(s, k) == Some((s[..j], s[j + 2..]))
  {
    if j == k {
    } else {
      assert !SeparatorAt(s, k);
      RSplitAt(s, k - 1, j);
    }
  }

  lemma {:induction false} RSplitNone(s: string, k: int)
    requires k + 2 <= |s| && forall j: nat :: j <= k ==> !SeparatorAt(s, j)
    ensures RSplit(s, k) == None
    decreases k + 1
  {
    if k < 0 {
    } else {
      assert !SeparatorAt(s, k);
      RSplitNone(s, k - 1);
    }
  }

  lemma OneLast(s: string, i: nat, j: nat)
    requires LastSeparator(s, i) && LastSeparator(s, j)
    ensures i == j
  {}

  lemma DecodeAt(clock: Clock, cursor: string, last: nat)
    requires LastSeparator(cursor, last)
    ensures var at := clock.parse(cursor[..last]);
            Decode(clock, Some(cursor)) == if at.None? then BadTimestamp else After(Boundary(at.value, cursor[last + 2..]))
  {
    RSplitAt(cursor, |cursor| - 2, last);
  }

  /** A cursor is rejected exactly when it has no separator, and fails in the database exactly when what stands
      before its last one is no time. */
  lemma RefusedCursors(clock: Clock, table: seq<Row>, keep: Row -> bool, limit: nat, cursor: string)
    requires cursor != ""
    ensures var r := Recall(clock, table, keep, limit, Some(cursor));
            && (r == Rejected <==> forall k: nat :: !SeparatorAt(cursor, k))
            && (r == Failed <==> exists k: nat :: LastSeparator(cursor, k) && clock.parse(cursor[..k]).None?)
  {
    if k: nat :| SeparatorAt(cursor, k) {
      var last := LastOf(cursor, k);
      DecodeAt(clock, cursor, last);
      forall i: nat | LastSeparator(cursor, i) ensures i == last {
        OneLast(cursor, i, last);
      }
    } else if |cursor| >= 2 {
      RSplitNone(cursor, |cursor| - 2);
    }
  }

  lemma {:induction false} LastOf(s: string, k: nat) returns (last: nat)
    requires SeparatorAt(s, k)
    ensures LastSeparator(s, last)
    decreases |s| - k
  {
    last := k;
    if j: nat :| k < j && SeparatorAt(s, j) {
      last := LastOf(s, j);
    }
  }

  // ---- following the cursor while the table changes ----

  ghost predicate Listing(table: seq<Row>) {
    forall i, j :: 0 <= i < j < |table| ==> Precedes(table[i], table[j])
  }

  function Wanted(keep: Row -> bool, last: Option<Row>): Row -> bool {
    r => keep(r) && match last case None => true case Some(l) => Precedes(l, r)
  }

  /** The matching rows after last, or all of them at the start. */
  function Rest(table: seq<Row>, keep: Row -> bool, last: Option<Row>): seq<Row> {
    Filter(table, Wanted(keep, last))
  }

  function CursorAt(clock: Clock, last: Option<Row>): Option<string> {
    if last.None? then None else Some(Encode(clock, last.value))
  }

  lemma {:induction false} FilterAgrees<T(!new)>(xs: seq<T>, f: T -> bool, g: T -> bool)
    requires forall x :: f(x) == g(x)
    ensures Filter(xs, f) == Filter(xs, g)
  {
    if xs == [] {
    } else {
      FilterAgrees(xs[1..], f, g);
    }
  }

  lemma RecallIsRest(clock: Clock, table: seq<Row>, keep: Row -> bool, limit: nat, last: Option<Row>)
    requires Faithful(clock)
    ensures Recall(clock, table, keep, limit, CursorAt(clock, last)) == PageOf(clock, Rest(table, keep, last), limit)
  {
    match last
    case None =>
      FilterAgrees(table, keep, Wanted(keep, None));
    case Some(l) =>
      CursorRoundTrip(clock, l);
      var b := Boundary(l.createdAt, UuidText(l.id));
      forall r: Row ensures Beyond(r, b) == Precedes(l, r) {
        UuidTextOrder(l.id, r.id);
      }
      FilterAgrees(table, r => keep(r) && Beyond(r, b), Wanted(keep, last));
  }

  /** What a client collects that follows next_cursor, request k being served from tables[k]; and whether it
      comes to a page without a next cursor. */
  function Walk(clock: Clock, tables: seq<seq<Row>>, keep: Row -> bool, limit: nat, k: nat, cursor: Option<string>): (seq<Row>, bool)
    requires k <= |tables|
    decreases |tables| - k
  {
    if k == |tables| then ([], false)
    else
      match Recall(clock, tables[k], keep, limit, cursor)
      case Page(items, next) =>
        if next.None? then (items, true)
        else
          var (more, ended) := Walk(clock, tables, keep, limit, k + 1, next);
          (items + more, ended)
      case _ => ([], false)
  }

  /** The same walk, were the last row itself the cursor. */
  function Collect(tables: seq<seq<Row>>, keep: Row -> bool, limit: nat, k: nat, last: Option<Row>): (seq<Row>, bool)
    requires 1 <= limit && k <= |tables|
    decreases |tables| - k
  {
    if k == |tables| then ([], false)
    else
      var rows := Rest(tables[k], keep, last);
      if |rows| <= limit then (rows, true)
      else
        var (more, ended) := Collect(tables, keep, limit, k + 1, Some(rows[limit - 1]));
        (rows[..limit] + more, ended)
  }

  /** The cursor's text loses nothing. */
  lemma {:induction false} WalkIsCollect(clock: Clock, tables: seq<seq<Row>>, keep: Row -> bool, limit: nat, k: nat, last: Option<Row>)
    requires Faithful(clock) && 1 <= limit && k <= |tables|
    ensures Walk(clock, tables, keep, limit, k, CursorAt(clock, last)) == Collect(tables, keep, limit, k, last)
    decreases |tables| - k
  {
    if k < |tables| {
      RecallIsRest(clock, tables[k], keep, limit, last);
      var rows := Rest(tables[k], keep, last);
      PageParts(clock, rows, limit);
      if |rows| > limit {
        WalkIsCollect(clock, tables, keep, limit, k + 1, Some(rows[limit - 1]));
      }
    }
  }

  lemma PageParts(clock: Clock, matching: seq<Row>, limit: nat)
    requires 1 <= limit
    ensures PageOf(clock, matching, limit)
         == if |matching| <= limit then Page(matching, None)
            else Page(matching[..limit], CursorAt(clock, Some(matching[limit - 1])))
  {}

  lemma {:induction false} FilterKeepsOrder(xs: seq<Row>, keep: Row -> bool)
    requires Listing(xs)
    ensures Listing(Filter(xs, keep))
  {
    if xs == [] {
    } else {
      FilterKeepsOrder(xs[1..], keep);
      var rest := Filter(xs[1..], keep);
      forall j | 0 <= j < |rest| ensures Precedes(xs[0], rest[j]) {
        assert rest[j] in xs[1..];
      }
    }
  }

  ghost predicate FromTables(r: Row, tables: seq<seq<Row>>, k: nat) {
    exists i :: k <= i < |tables| && r in tables[i]
  }

  lemma JoinOrdered(items: seq<Row>, rest: seq<Row>, end: Row)
    requires Listing(items) && Listing(rest) && items != [] && items[|items| - 1] == end
    requires forall r :: r in rest ==> Precedes(end, r)
    ensures Listing(items + rest)
  {
    forall i, j | 0 <= i < j < |items + rest| ensures Precedes((items + rest)[i], (items + rest)[j]) {
      if i < |items| <= j {
        assert rest[j - |items|] in rest;
        assert Precedes(items[i], end) || items[i] == end;
      }
    }
  }

  lemma {:induction false} CollectIsOrdered(tables: seq<seq<Row>>, keep: Row -> bool, limit: nat, k: nat, last: Option<Row>)
    requires 1 <= limit && k <= |tables|
    requires forall i :: 0 <= i < |tables| ==> Listing(tables[i])
    ensures var out := Collect(tables, keep, limit, k, last).0;
            Listing(out) && forall r :: r in out ==> Wanted(keep, last)(r) && FromTables(r, tables, k)
    decreases |tables| - k
  {
    if k < |tables| {
      var rows := Rest(tables[k], keep, last);
      FilterKeepsOrder(tables[k], Wanted(keep, last));
      if |rows| > limit {
        var end := rows[limit - 1];
        assert end in rows;
        CollectIsOrdered(tables, keep, limit, k + 1, Some(end));
        var rest := Collect(tables, keep, limit, k + 1, Some(end)).0;
        JoinOrdered(rows[..limit], rest, end);
        forall r | r in rest ensures Wanted(keep, last)(r) && FromTables(r, tables, k) {
          assert FromTables(r, tables, k + 1);
        }
      }
    }
  }

  lemma {:induction false} CollectMissesNothing(tables: seq<seq<Row>>, keep: Row -> bool, limit: nat, k: nat, last: Option<Row>, r: Row)
    requires 1 <= limit && k <= |tables|
    requires forall i :: 0 <= i < |tables| ==> Listing(tables[i])
    requires Collect(tables, keep, limit, k, last).1 && Wanted(keep, last)(r)
    requires forall i :: k <= i < |tables| ==> r in tables[i]
    ensures r in Collect(tables, keep, limit, k, last).0
    decreases |tables| - k
  {
    var rows := Rest(tables[k], keep, last);
    FilterKeepsOrder(tables[k], Wanted(keep, last));
    assert r in rows;
    if |rows| > limit && r !in rows[..limit] {
      var i :| 0 <= i < |rows| && rows[i] == r;
      assert forall j :: 0 <= j < limit ==> rows[..limit][j] == rows[j] && rows[j] in rows[..limit];
      assert Precedes(rows[limit - 1], r);
      CollectMissesNothing(tables, keep, limit, k + 1, Some(rows[limit - 1]), r);
    }
  }

  /** Whatever is inserted or deleted between requests, a client that follows next_cursor from the start
      collects rows in strictly increasing (created_at, id) order, so none twice, each from some table that
      served it; and if the walk ends, every matching row that was there throughout is among them. */
  lemma WalkOverChangingTable(clock: Clock, tables: seq<seq<Row>>, keep: Row -> bool, limit: nat)
    requires Faithful(clock) && 1 <= limit
    requires forall i :: 0 <= i < |tables| ==> Listing(tables[i])
    ensures var (out, ended) := Walk(clock, tables, keep, limit, 0, None);
            && Listing(out)
            && (forall r :: r in out ==> keep(r) && FromTables(r, tables, 0))
            && (ended ==> forall r :: keep(r) && (forall i :: 0 <= i < |tables| ==> r in tables[i]) ==> r in out)
  {
    WalkIsCollect(clock, tables, keep, limit, 0, None);
    CollectIsOrdered(tables, keep, limit, 0, None);
    var (out, ended) := Walk(clock, tables, keep, limit, 0, None);
    if ended {
      forall r | keep(r) && (forall i :: 0 <= i < |tables| ==> r in tables[i]) ensures r in out {
        CollectMissesNothing(tables, keep, limit, 0, None, r);
      }
    }
  }

  // ---- a table that stands still ----

  lemma HeadIsBehind(xs: seq<Row>, keep: Row -> bool, r: Row)
    requires xs != [] && Precedes(xs[0], r)
    ensures Rest(xs, keep, Some(r)) == Rest(xs[1..], keep, Some(r))
  {
    assert !Wanted(keep, Some(r))(xs[0]);
  }

  lemma {:induction false} FilterSuffix(xs: seq<Row>, keep: Row -> bool, last: Option<Row>, i: nat)
    requires Listing(xs) && i < |Rest(xs, keep, last)|
    ensures Rest(xs, keep, Some(Rest(xs, keep, last)[i])) == Rest(xs, keep, last)[i + 1..]
  {
    var all, h := Rest(xs, keep, last), xs[0];
    var tail := Rest(xs[1..], keep, last);
    FilterKeepsOrder(xs, Wanted(keep, last));
    if Wanted(keep, last)(h) {
      assert all == [h] + tail;
      if i == 0 {
        AllAfter(xs[1..], keep, last, h);
        assert all[1..] == tail;
      } else {
        FilterSuffix(xs[1..], keep, last, i - 1);
        assert all[i] == tail[i - 1] && all[i + 1..] == tail[i..];
        HeadIsBehind(xs, keep, all[i]);
      }
    } else {
      FilterSuffix(xs[1..], keep, last, i);
      assert all[i] in all && all[i] in xs && all[i] != h;
      HeadIsBehind(xs, keep, all[i]);
    }
  }

  /** Behind h, the rows wanted after h are the rows wanted. */
  lemma {:induction false} AllAfter(xs: seq<Row>, keep: Row -> bool, last: Option<Row>, h: Row)
    requires forall r :: r in xs ==> Precedes(h, r)
    requires last.Some? ==> Precedes(last.value, h)
    ensures Rest(xs, keep, Some(h)) == Rest(xs, keep, last)
  {
    if xs == [] {
    } else {
      AllAfter(xs[1..], keep, last, h);
    }
  }

  lemma {:induction false} CollectIsExact(table: seq<Row>, keep: Row -> bool, limit: nat, tables: seq<seq<Row>>, k: nat, last: Option<Row>)
    requires 1 <= limit && Listing(table) && k <= |tables|
    requires forall i :: k <= i < |tables| ==> tables[i] == table
    requires |Rest(table, keep, last)| < |tables| - k
    ensures Collect(tables, keep, limit, k, last) == (Rest(table, keep, last), true)
    decreases |tables| - k
  {
    var rows := Rest(table, keep, last);
    if |rows| > limit {
      FilterSuffix(table, keep, last, limit - 1);
      CollectIsExact(table, keep, limit, tables, k + 1, Some(rows[limit - 1]));
      assert rows == rows[..limit] + rows[limit..];
    }
  }

  /** On a table that stands still, following next_cursor ends, after at most one request per matching row
      and one more, and the pages put together are exactly the matching rows in order. */
  lemma WalkIsExact(clock: Clock, table: seq<Row>, keep: Row -> bool, limit: nat, requests: nat)
    requires Faithful(clock) && 1 <= limit && Listing(table) && |Filter(table, keep)| < requests
    ensures Walk(clock, seq(requests, i => table), keep, limit, 0, None) == (Filter(table, keep), true)
  {
    var tables := seq(requests, i => table);
    WalkIsCollect(clock, tables, keep, limit, 0, None);
    FilterAgrees(table, keep, Wanted(keep, None));
    CollectIsExact(table, keep, limit, tables, 0, None);
  }
}
