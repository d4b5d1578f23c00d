/** Idempotent evidence writes: the canonical payload, and the two statements (look the key up, insert the
    row) with which any number of clients write to one table. */
module EvidenceWrites {
  import opened Collections
  import opened Strings

  /** A JSON value: null, a string, or any other value by its text with sorted keys. */
  datatype Json = Null | Text(value: string) | Other(text: string)

  type Fields = map<string, Json>

  // ---- the canonical payload ----

  const FIELDS: seq<string> := ["task_id", "session_id", "gateway_id", "event_type", "event_at", "source", "source_ref"]

  /** metadata.get(field): absent and null are the same. */
  function Get(metadata: Fields, field: string): Json { if field in metadata then metadata[field] else Null }

  /** Hashes are taken to be free of collisions, so the hash of a payload stands for the payload itself. */
  function Canonical(content: string, memoryType: string, agentId: string, metadata: Fields): Fields {
    map["content" := Text(Strip(content)), "memory_type" := Text(memoryType), "agent_id" := Text(agentId)]
    + map f | f in FIELDS && Get(metadata, f) != Null :: Get(metadata, f)
  }

  /** What the first n canonical fields contribute. */
  function Picked(metadata: Fields, n: nat): Fields
    requires n <= |FIELDS|
  {
    map f | f in FIELDS[..n] && Get(metadata, f) != Null :: Get(metadata, f)
  }

  lemma PickedNext(metadata: Fields, n: nat)
    requires n < |FIELDS|
    ensures var val := Get(metadata, FIELDS[n]);
            Picked(metadata, n + 1) == if val != Null then Picked(metadata, n)[FIELDS[n] := val] else Picked(metadata, n)
  {
    assert FIELDS[..n + 1] == FIELDS[..n] + [FIELDS[n]];
  }

  lemma PickedAll(metadata: Fields)
    ensures Picked(metadata, |FIELDS|) == map f | f in FIELDS && Get(metadata, f) != Null :: Get(metadata, f)
  {
    assert FIELDS[..|FIELDS|] == FIELDS;
  }

  lemma UpdatedRight(base: Fields, more: Fields, key: string, value: Json)
    ensures (base + more)[key := value] == base + more[key := value]
  {}

  method ComputeCanonicalPayload(content: string, memoryType: string, agentId: string, metadata: Fields)
    returns (canonical: Fields)
    ensures canonical == Canonical(content, memoryType, agentId, metadata)
  {
    canonical := map["content" := Text(Strip(content)), "memory_type" := Text(memoryType), "agent_id" := Text(agentId)];
    ghost var base := canonical;
    for i := 0 to |FIELDS|
      invariant canonical == base + Picked(metadata, i)
    {
      var val := Get(metadata, FIELDS[i]);
      PickedNext(metadata, i);
      UpdatedRight(base, Picked(metadata, i), FIELDS[i], val);
      if val != Null {
        canonical := canonical[FIELDS[i] := val];
      }
    }
    PickedAll(metadata);
  }

  lemma FieldsAreNotBase(f: string)
    requires f in FIELDS
    ensures f != "content" && f != "memory_type" && f != "agent_id"
  {
    assert forall i :: 0 <= i < |FIELDS| ==>
      FIELDS[i] != "content" && FIELDS[i] != "memory_type" && FIELDS[i] != "agent_id" by {
      assert FIELDS[0][0] == 't' && FIELDS[1][0] == 's' && FIELDS[2][0] == 'g' && FIELDS[3][0] == 'e' && FIELDS[4][0] == 'e';
      assert FIELDS[5][0] == 's' && FIELDS[6][0] == 's';
      assert "content"[0] == 'c' && "memory_type"[0] == 'm' && "agent_id"[0] == 'a';
    }
  }

  lemma FieldKept(c: string, t: string, a: string, m: Fields, f: string)
    requires f in FIELDS
    ensures f in Canonical(c, t, a, m) <==> Get(m, f) != Null
    ensures f in Canonical(c, t, a, m) ==> Canonical(c, t, a, m)[f] == Get(m, f)
  {
    FieldsAreNotBase(f);
  }

  lemma SamePartsSamePayload(c1: string, c2: string, t: string, a: string, m1: Fields, m2: Fields)
    requires Strip(c1) == Strip(c2) && forall f :: f in FIELDS ==> Get(m1, f) == Get(m2, f)
    ensures Canonical(c1, t, a, m1) == Canonical(c2, t, a, m2)
  {
    assert (map f | f in FIELDS && Get(m1, f) != Null :: Get(m1, f)) == (map f | f in FIELDS && Get(m2, f) != Null :: Get(m2, f));
  }

  ghost predicate SameFields(m1: Fields, m2: Fields) {
    && Get(m1, "task_id") == Get(m2, "task_id") && Get(m1, "session_id") == Get(m2, "session_id")
    && Get(m1, "gateway_id") == Get(m2, "gateway_id") && Get(m1, "event_type") == Get(m2, "event_type")
    && Get(m1, "event_at") == Get(m2, "event_at") && Get(m1, "source") == Get(m2, "source")
    && Get(m1, "source_ref") == Get(m2, "source_ref")
  }

  lemma SameFieldsAre(m1: Fields, m2: Fields)
    ensures SameFields(m1, m2) <==> forall f :: f in FIELDS ==> Get(m1, f) == Get(m2, f)
  {
    if forall f :: f in FIELDS ==> Get(m1, f) == Get(m2, f) {
      assert forall i :: 0 <= i < |FIELDS| ==> Get(m1, FIELDS[i]) == Get(m2, FIELDS[i]);
      assert Get(m1, FIELDS[0]) == Get(m2, FIELDS[0]) && Get(m1, FIELDS[1]) == Get(m2, FIELDS[1]);
      assert Get(m1, FIELDS[2]) == Get(m2, FIELDS[2]) && Get(m1, FIELDS[3]) == Get(m2, FIELDS[3]);
      assert Get(m1, FIELDS[4]) == Get(m2, FIELDS[4]) && Get(m1, FIELDS[5]) == Get(m2, FIELDS[5]);
      assert Get(m1, FIELDS[6]) == Get(m2, FIELDS[6]);
    }
  }

  /** Two writes have the same canonical payload if and only if they agree on the text up to surrounding
      space, the type, the agent and the seven canonical fields, an absent field counting as null. */
  lemma SameCanonicalIff(c1: string, t1: string, a1: string, m1: Fields, c2: string, t2: string, a2: string, m2: Fields)
    ensures Canonical(c1, t1, a1, m1) == Canonical(c2, t2, a2, m2)
        <==> Strip(c1) == Strip(c2) && t1 == t2 && a1 == a2 && SameFields(m1, m2)
  {
    SameFieldsAre(m1, m2);
    if Canonical(c1, t1, a1, m1) == Canonical(c2, t2, a2, m2) {
      BaseKept(c1, t1, a1, m1);
      BaseKept(c2, t2, a2, m2);
      forall f | f in FIELDS ensures Get(m1, f) == Get(m2, f) {
        FieldKept(c1, t1, a1, m1, f);
        FieldKept(c2, t2, a2, m2, f);
      }
    }
    if Strip(c1) == Strip(c2) && t1 == t2 && a1 == a2 && forall f :: f in FIELDS ==> Get(m1, f) == Get(m2, f) {
      SamePartsSamePayload(c1, c2, t1, a1, m1, m2);
    }
  }

  lemma BaseKept(c: string, t: string, a: string, m: Fields)
    ensures var x := Canonical(c, t, a, m);
            && "content" in x && "memory_type" in x && "agent_id" in x
            && x["content"] == Text(Strip(c)) && x["memory_type"] == Text(t) && x["agent_id"] == Text(a)
  {
    if "content" in FIELDS {
      FieldsAreNotBase("content");
    }
    if "memory_type" in FIELDS {
      FieldsAreNotBase("memory_type");
    }
    if "agent_id" in FIELDS {
      FieldsAreNotBase("agent_id");
    }
    assert "content"[0] == 'c' && "memory_type"[0] == 'm' && "agent_id"[0] == 'a';
  }

  const TRANSPORT_ONLY: seq<string> := ["ts", "ingested_at", "allowed_roles", "entities"]

  lemma TransportIsNotCanonical(i: nat, j: nat)
    requires i < |FIELDS| && j < |TRANSPORT_ONLY|
    ensures FIELDS[i] != TRANSPORT_ONLY[j]
  {
    assert |TRANSPORT_ONLY[0]| == 2 && |TRANSPORT_ONLY[1]| == 11 && |TRANSPORT_ONLY[2]| == 13 && |TRANSPORT_ONLY[3]| == 8;
    assert |FIELDS[0]| == 7 && |FIELDS[1]| == |FIELDS[2]| == |FIELDS[3]| == |FIELDS[6]| == 10 && |FIELDS[5]| == 6;
    assert |FIELDS[4]| == 8 && FIELDS[4][1] == 'v' && TRANSPORT_ONLY[3][1] == 'n';
  }

  /** Whatever a retry puts in its transport-only fields, the payload stays the same. */
  lemma TransportFieldsAreIrrelevant(c: string, t: string, a: string, m: Fields, key: string, value: Json)
    requires key in TRANSPORT_ONLY
    ensures Canonical(c, t, a, m[key := value]) == Canonical(c, t, a, m)
  {
    var j :| 0 <= j < |TRANSPORT_ONLY| && TRANSPORT_ONLY[j] == key;
    forall i | 0 <= i < |FIELDS| ensures FIELDS[i] != key {
      TransportIsNotCanonical(i, j);
    }
    SameFieldsAre(m[key := value], m);
    SameCanonicalIff(c, t, a, m[key := value], c, t, a, m);
  }

  // ---- the table and the two statements ----

  datatype Request = Request(tenant: string, evidence: bool, key: Option<string>, content: string, memoryType: string,
                             agentId: string, metadata: Fields)

  /** An empty idempotency key is no key. */
  function KeyOf(q: Request): Option<string> { if q.key == Some("") then None else q.key }

  function DigestOf(q: Request): Option<Fields> {
    if q.evidence && KeyOf(q).Some? then Some(Canonical(q.content, q.memoryType, q.agentId, q.metadata)) else None
  }

  /** metadata->>'idempotency_key', on which an older index insists as well, and whatever the tenant. */
  function TagOf(q: Request): Option<string> {
    match Get(q.metadata, "idempotency_key")
    case Null => None
    case Text(value) => Some(value)
    case Other(text) => Some(text)
  }

  /** A row by its place in the table, which is its id. */
  datatype Row = Row(tenant: string, evidence: bool, key: Option<string>, digest: Option<Fields>, tag: Option<string>)

  type Client = nat

  datatype State = State(rows: seq<Row>, waiting: map<Client, Request>)

  datatype Reply = Created(id: nat) | Replayed(id: nat) | Conflict(id: nat) | Merged | Waiting | UniqueViolation | Nothing

  /** The look-up of a call, or its insert. duplicate is what the content search of a learning write finds. */
  datatype Event = LookUp(client: Client, request: Request, duplicate: bool) | InsertRow(client: Client)

  function Find(rows: seq<Row>, tenant: string, key: string): (r: Option<nat>)
    ensures r.Some? ==> r.value < |rows| && rows[r.value].tenant == tenant && rows[r.value].key == Some(key)
    ensures r.None? ==> forall i :: 0 <= i < |rows| ==> !(rows[i].tenant == tenant && rows[i].key == Some(key))
  {
    if rows == [] then None
    else if rows[|rows| - 1].tenant == tenant && rows[|rows| - 1].key == Some(key) then Some(|rows| - 1)
    else Find(rows[..|rows| - 1], tenant, key)
  }

  function Taken(rows: seq<Row>, q: Request): Option<nat> {
    if KeyOf(q).Some? then Find(rows, q.tenant, KeyOf(q).value) else None
  }

  predicate TagTaken(rows: seq<Row>, tag: Option<string>) {
    tag.Some? && exists i :: 0 <= i < |rows| && rows[i].tag == tag
  }

  function Step(s: State, e: Event): (State, Reply) {
    match e
    case LookUp(client, q, duplicate) =>
      if client in s.waiting then (s, Nothing)
      else if DigestOf(q).Some? && Taken(s.rows, q).Some? then
        var id := Taken(s.rows, q).value;
        (s, if s.rows[id].digest == DigestOf(q) then Replayed(id) else Conflict(id))
      else if !q.evidence && duplicate then (s, Merged)
      else (s.(waiting := s.waiting[client := q]), Waiting)
    case InsertRow(client) =>
      if client !in s.waiting then (s, Nothing)
      else
        var q := s.waiting[client];
        var rest := s.waiting - {client};
        if Taken(s.rows, q).Some? || TagTaken(s.rows, TagOf(q)) then (State(s.rows, rest), UniqueViolation)
        else (State(s.rows + [Row(q.tenant, q.evidence, KeyOf(q), DigestOf(q), TagOf(q))], rest), Created(|s.rows|))
  }

  class MemoryTable {
    var rows: seq<Row>

    /** A call that nobody interrupts. */
    method CreateMemory(q: Request, duplicate: bool) returns (r: Reply)
      modifies this
      ensures var (s, first) := Step(State(old(rows), map[]), LookUp(0, q, duplicate));
              (rows, r) == if first.Waiting? then (Step(s, InsertRow(0)).0.rows, Step(s, InsertRow(0)).1) else (s.rows, first)
    {
      var key := KeyOf(q);
      var hash := None;
      if q.evidence && key.Some? {
        var canonical := ComputeCanonicalPayload(q.content, q.memoryType, q.agentId, q.metadata);
        hash := Some(canonical);
        var existing := Find(rows, q.tenant, key.value);
        if existing.Some? {
          if rows[existing.value].digest == hash {
            return Replayed(existing.value);
          }
          return Conflict(existing.value);
        }
      }
      if !q.evidence && duplicate {
        return Merged;
      }
      if Taken(rows, q).Some? || TagTaken(rows, TagOf(q)) {
        return UniqueViolation;
      }
      rows := rows + [Row(q.tenant, q.evidence, key, hash, TagOf(q))];
      r := Created(|rows| - 1);
    }
  }

  // ---- runs ----

  ghost predicate KeysUnique(rows: seq<Row>) {
    && (forall i, j :: 0 <= i < j < |rows| && rows[i].tenant == rows[j].tenant && rows[i].key.Some? ==> rows[i].key != rows[j].key)
    && (forall i, j :: 0 <= i < j < |rows| && rows[i].tag.Some? ==> rows[i].tag != rows[j].tag)
  }

  ghost predicate IsRun(states: seq<State>, events: seq<Event>) {
    && |states| == |events| + 1
    && states[0] == State([], map[])
    && forall i :: 0 <= i < |events| ==> states[i + 1] == Step(states[i], events[i]).0
  }

  function ReplyAt(states: seq<State>, events: seq<Event>, i: nat): Reply
    requires i < |events| && i < |states|
  {
    Step(states[i], events[i]).1
  }

  /** The request that an event answers. */
  function Asked(s: State, e: Event): Option<Request> {
    match e
    case LookUp(client, q, _) => Some(q)
    case InsertRow(client) => if client in s.waiting then Some(s.waiting[client]) else None
  }

  predicate Succeeded(r: Reply) { r.Created? || r.Replayed? }

  /** Only a created row changes the table, and it is added at the end. */
  lemma StepAppends(s: State, e: Event)
    ensures var (s', r) := Step(s, e);
            && s.rows <= s'.rows
            && (r.Created? ==> Asked(s, e).Some? && |s'.rows| == |s.rows| + 1 && r.id == |s.rows|)
            && (!r.Created? ==> s'.rows == s.rows)
    ensures KeysUnique(s.rows) ==> KeysUnique(Step(s, e).0.rows)
  {}

  /** The row a success names is the request's: its tenant, its key and its canonical payload. */
  lemma SuccessNamesItsRow(s: State, e: Event)
    requires Succeeded(Step(s, e).1)
    ensures var (s', r) := Step(s, e);
            && Asked(s, e).Some? && r.id < |s'.rows|
            && s'.rows[r.id].tenant == Asked(s, e).value.tenant
            && s'.rows[r.id].key == KeyOf(Asked(s, e).value)
            && s'.rows[r.id].digest == DigestOf(Asked(s, e).value)
  {}

  /** Over every run, a tenant has at most one row for a key, and one tag stands in one row. */
  lemma {:induction false} KeysStayUnique(states: seq<State>, events: seq<Event>, n: nat)
    requires IsRun(states, events) && n < |states|
    ensures KeysUnique(states[n].rows)
  {
    if n == 0 {
    } else {
      KeysStayUnique(states, events, n - 1);
      StepAppends(states[n - 1], events[n - 1]);
    }
  }

  /** A row, once written, keeps its id and its stored payload forever. */
  lemma {:induction false} RowsPersist(states: seq<State>, events: seq<Event>, m: nat, n: nat)
    requires IsRun(states, events) && m <= n < |states|
    ensures states[m].rows <= states[n].rows
  {
    if m == n {
    } else {
      RowsPersist(states, events, m, n - 1);
      StepAppends(states[n - 1], events[n - 1]);
    }
  }

  lemma OneRow(rows: seq<Row>, i: nat, j: nat)
    requires KeysUnique(rows) && i < |rows| && j < |rows|
    requires rows[i].tenant == rows[j].tenant && rows[i].key == rows[j].key && rows[i].key.Some?
    ensures i == j
  {}

  /** However the statements of the clients interleave, two successful evidence writes with the same tenant
      and key name the same row, and had the same canonical payload. */
  lemma SameKeySameRow(states: seq<State>, events: seq<Event>, m: nat, n: nat, q1: Request, q2: Request)
    requires IsRun(states, events) && m <= n < |events|
    requires Succeeded(ReplyAt(states, events, m)) && Asked(states[m], events[m]) == Some(q1)
    requires Succeeded(ReplyAt(states, events, n)) && Asked(states[n], events[n]) == Some(q2)
    requires q1.evidence && q2.evidence && q1.tenant == q2.tenant && KeyOf(q1) == KeyOf(q2) && KeyOf(q1).Some?
    ensures ReplyAt(states, events, m).id == ReplyAt(states, events, n).id
    ensures SamePayload(q2, q1)
  {
    SuccessNamesItsRow(states[m], events[m]);
    SuccessNamesItsRow(states[n], events[n]);
    RowsPersist(states, events, m + 1, n + 1);
    KeysStayUnique(states, events, n + 1);
    var rows, i, j := states[n + 1].rows, ReplyAt(states, events, m).id, ReplyAt(states, events, n).id;
    assert states[m + 1].rows[i] == rows[i];
    OneRow(rows, i, j);
    SameCanonicalIff(q1.content, q1.memoryType, q1.agentId, q1.metadata, q2.content, q2.memoryType, q2.agentId, q2.metadata);
  }

  /** One key is created once, whoever races for it. */
  lemma CreatedOnce(states: seq<State>, events: seq<Event>, m: nat, n: nat, q1: Request, q2: Request)
    requires IsRun(states, events) && m < n < |events|
    requires ReplyAt(states, events, m).Created? && Asked(states[m], events[m]) == Some(q1)
    requires Asked(states[n], events[n]) == Some(q2)
    requires q1.tenant == q2.tenant && KeyOf(q1) == KeyOf(q2) && KeyOf(q1).Some?
    ensures !ReplyAt(states, events, n).Created?
  {
    SuccessNamesItsRow(states[m], events[m]);
    RowsPersist(states, events, m + 1, n);
    var id := ReplyAt(states, events, m).id;
    assert states[n].rows[id] == states[m + 1].rows[id];
    assert Taken(states[n].rows, q2).Some?;
  }

  ghost predicate SamePayload(q: Request, first: Request) {
    && Strip(q.content) == Strip(first.content) && q.memoryType == first.memoryType && q.agentId == first.agentId
    && SameFields(q.metadata, first.metadata)
  }

  /** What an evidence call about a key that request first made a row for is told: the stored row if and only
      if first was evidence as well and the payloads agree on the canonical parts, and a conflict otherwise, so
      always under a learning row; nothing changes in either case. */
  lemma KnownKeyIff(s: State, client: Client, q: Request, duplicate: bool, id: nat, first: Request)
    requires KeysUnique(s.rows) && id < |s.rows| && client !in s.waiting
    requires q.evidence && KeyOf(q).Some? && s.rows[id].tenant == q.tenant && s.rows[id].key == KeyOf(q)
    requires KeyOf(first) == s.rows[id].key && s.rows[id].digest == DigestOf(first)
    ensures var (s', r) := Step(s, LookUp(client, q, duplicate));
            && s' == s
            && (r == Replayed(id) <==> first.evidence && SamePayload(q, first))
            && (r != Replayed(id) ==> r == Conflict(id))
  {
    var found := Taken(s.rows, q);
    assert found.Some?;
    OneRow(s.rows, found.value, id);
    SameCanonicalIff(q.content, q.memoryType, q.agentId, q.metadata, first.content, first.memoryType, first.agentId, first.metadata);
  }

  /** A call that was not answered at its look-up waits until its insert. */
  lemma {:induction false} WaitingStays(states: seq<State>, events: seq<Event>, m: nat, n: nat, client: Client, q: Request)
    requires IsRun(states, events) && m <= n < |states|
    requires client in states[m].waiting && states[m].waiting[client] == q
    requires forall k :: m <= k < n ==> events[k] != InsertRow(client)
    ensures client in states[n].waiting && states[n].waiting[client] == q
  {
    if m == n {
    } else {
      WaitingStays(states, events, m, n - 1, client, q);
      assert states[n] == Step(states[n - 1], events[n - 1]).0 && events[n - 1] != InsertRow(client);
    }
  }

  /** Evidence without a key is never merged, whatever it says and whatever happens between its two statements:
      it makes its own row if and only if, when it comes to insert, no stored row of whatever tenant has the
      idempotency_key of its metadata. */
  lemma KeylessEvidenceIsKeptIff(states: seq<State>, events: seq<Event>, m: nat, n: nat, client: Client, q: Request, duplicate: bool)
    requires IsRun(states, events) && m < n < |events| && client !in states[m].waiting && q.evidence && KeyOf(q).None?
    requires events[m] == LookUp(client, q, duplicate) && events[n] == InsertRow(client)
    requires forall k :: m < k < n ==> events[k] != InsertRow(client)
    ensures ReplyAt(states, events, m) == Waiting
    ensures ReplyAt(states, events, n)
         == if TagTaken(states[n].rows, TagOf(q)) then UniqueViolation else Created(|states[n].rows|)
    ensures states[n + 1].rows
         == if TagTaken(states[n].rows, TagOf(q)) then states[n].rows
            else states[n].rows + [Row(q.tenant, true, None, None, TagOf(q))]
  {
    assert states[m + 1] == Step(states[m], events[m]).0;
    WaitingStays(states, events, m + 1, n, client, q);
    assert states[n + 1] == Step(states[n], events[n]).0;
  }

  /** A retry under its key is answered as a replay although its metadata repeats its own tag. */
  lemma ReplayIgnoresTag(states: seq<State>, events: seq<Event>, m: nat, client: Client, q: Request, duplicate: bool)
    requires IsRun(states, events) && m < |events| && client !in states[m + 1].waiting
    requires ReplyAt(states, events, m).Created? && Asked(states[m], events[m]) == Some(q)
    requires q.evidence && KeyOf(q).Some?
    ensures Step(states[m + 1], LookUp(client, q, duplicate)) == (states[m + 1], Replayed(ReplyAt(states, events, m).id))
  {
    var id := ReplyAt(states, events, m).id;
    SuccessNamesItsRow(states[m], events[m]);
    KeysStayUnique(states, events, m + 1);
    var found := Taken(states[m + 1].rows, q);
    assert found.Some?;
    OneRow(states[m + 1].rows, found.value, id);
  }

  // ---- the two statements, said of the request and the stored rows ----

  /** The request comes under this idempotency key; the empty one is none. */
  predicate Keyed(q: Request, key: string) { q.key == Some(key) && key != "" }

  /** The request's metadata carries this idempotency_key. */
  predicate Tagged(q: Request, tag: string) {
    "idempotency_key" in q.metadata && q.metadata["idempotency_key"] in {Text(tag), Other(tag)}
  }

  predicate RowKeyed(row: Row, q: Request) { row.tenant == q.tenant && row.key.Some? && Keyed(q, row.key.value) }

  predicate RowTagged(row: Row, q: Request) { row.tag.Some? && Tagged(q, row.tag.value) }

  /** The row that a request makes: its tenant, its kind, its key and tag if it has one, and the canonical payload
      of evidence under a key. */
  ghost predicate RowTells(row: Row, q: Request) {
    && row.tenant == q.tenant && row.evidence == q.evidence
    && (forall k :: row.key == Some(k) <==> Keyed(q, k))
    && (forall v :: row.tag == Some(v) <==> Tagged(q, v))
    && row.digest == if q.evidence && row.key.Some? then Some(Canonical(q.content, q.memoryType, q.agentId, q.metadata)) else None
  }

  /** An insert goes through exactly when no row has the request's key in its tenant, nor its tag in any. */
  lemma InsertTells(s: State, client: Client)
    requires client in s.waiting
    ensures var (q, s', r) := (s.waiting[client], Step(s, InsertRow(client)).0, Step(s, InsertRow(client)).1);
            && client !in s'.waiting
            && (r == UniqueViolation <==> exists i :: 0 <= i < |s.rows| && (RowKeyed(s.rows[i], q) || RowTagged(s.rows[i], q)))
            && (if r == UniqueViolation then s'.rows == s.rows
                else r == Created(|s.rows|) && |s'.rows| == |s.rows| + 1 && s.rows <= s'.rows && RowTells(s'.rows[|s.rows|], q))
  {
    var q, s' := s.waiting[client], Step(s, InsertRow(client)).0;
    if Step(s, InsertRow(client)).1.Created? {
      assert s'.rows[|s.rows|] == Row(q.tenant, q.evidence, KeyOf(q), DigestOf(q), TagOf(q));
    } else if Taken(s.rows, q).Some? {
      assert RowKeyed(s.rows[Taken(s.rows, q).value], q);
    } else {
      var i :| 0 <= i < |s.rows| && s.rows[i].tag == TagOf(q);
      assert RowTagged(s.rows[i], q);
    }
  }

  /** A look-up answers an evidence call whose key has a row in its tenant, and a learning call with a duplicate;
      every other call goes on to insert. */
  lemma LookUpTells(s: State, client: Client, q: Request, duplicate: bool)
    requires client !in s.waiting
    ensures var (s', r) := Step(s, LookUp(client, q, duplicate));
            && ((r.Replayed? || r.Conflict?) <==> q.evidence && exists i :: 0 <= i < |s.rows| && RowKeyed(s.rows[i], q))
            && (r.Replayed? || r.Conflict? ==> r.id < |s.rows| && RowKeyed(s.rows[r.id], q))
            && (r.Merged? <==> !q.evidence && duplicate)
            && (r.Replayed? || r.Conflict? || r.Merged? || r.Waiting?)
            && s' == if r.Waiting? then s.(waiting := s.waiting[client := q]) else s
  {
    if q.evidence && Taken(s.rows, q).Some? {
      assert RowKeyed(s.rows[Taken(s.rows, q).value], q);
    }
  }
}
