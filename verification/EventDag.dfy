/** Swarm events, and what they say about one task when the stream is read up to some point. */
module EventDag {
  import opened Collections

  type Id = string

  datatype Kind =
    | TaskDrafted | BidSubmitted | LeaseGranted | TaskClaimed | TaskCompleted | TaskFailed | TaskCancelled
    | TaskAmended | AuditProposed | AuditAccepted | AuditRejected | LeaseExpired | CircuitBreaker | SystemHalt
    | HeartbeatPing | LaneContested | LaneAcquired | DlqEntry | OtherKind

  /** The payload keys that are read; None is an absent key. */
  datatype Payload = Payload(title: Option<string>, parent: Option<Id>, root: Option<Id>, gateway: Option<string>,
                             budget: Option<real>, lane: Option<string>)

  datatype Event = Event(id: Id, task: Id, kind: Kind, payload: Payload, cost: real, source: string, ts: string)

  datatype Status = Pending | Bidding | Claimed | Executing | AuditPending | Completed | Failed | Cancelled | Halted

  /** Everything a projected task holds except its children. */
  datatype Fields = Fields(title: string, status: Status, parent: Option<Id>, gateway: Option<string>, budget: real,
                           spent: real, events: seq<Id>, createdAt: string, completedAt: Option<string>)

  function GetOr<T>(o: Option<T>, default: T): T {
    if o.Some? then o.value else default
  }

  /** An empty parent id is no parent. */
  function Truthy(parent: Option<Id>): Option<Id> {
    if parent == Some("") then None else parent
  }

  /** The part of an event's effect on its own task that both projections share: everything but the parent
      named by a draft and the gateway of a granted lease. */
  function Applied(f: Fields, e: Event): Fields {
    var g := f.(events := f.events + [e.id], spent := f.spent + e.cost);
    match e.kind
    case TaskDrafted => g.(title := GetOr(e.payload.title, f.title), status := Pending, budget := GetOr(e.payload.budget, 0.0))
    case BidSubmitted => g.(status := Bidding)
    case LeaseGranted => g.(status := Claimed)
    case TaskClaimed => g.(status := Executing, gateway := Some(GetOr(e.payload.gateway, e.source)))
    case TaskCompleted => g.(status := Completed, completedAt := Some(e.ts))
    case TaskFailed => g.(status := Failed)
    case TaskCancelled => g.(status := Cancelled)
    case TaskAmended => g.(title := GetOr(e.payload.title, f.title))
    case AuditProposed => g.(status := AuditPending)
    case AuditAccepted => g.(status := Completed)
    case AuditRejected => g.(status := Pending, gateway := None)
    case LeaseExpired => g.(status := Pending, gateway := None)
    case CircuitBreaker => g.(status := Failed)
    case _ => g
  }

  function NewFields(title: string, ts: string): Fields {
    Fields(title, Pending, None, None, 0.0, 0.0, [], ts, None)
  }

  /** Some event among the first n is the task's. */
  predicate Seen(es: seq<Event>, n: nat, t: Id)
    requires n <= |es|
  {
    n != 0 && (es[n - 1].task == t || Seen(es, n - 1, t))
  }

  lemma {:induction false} SeenStays(es: seq<Event>, m: nat, n: nat, t: Id)
    requires m <= n <= |es| && Seen(es, m, t)
    ensures Seen(es, n, t)
  {
    if m == n {
    } else {
      SeenStays(es, m, n - 1, t);
    }
  }

  // ---- the batch projection's view of one task ----

  function BatchApplied(before: Option<Fields>, e: Event): Fields {
    var f := GetOr(before, NewFields(GetOr(e.payload.title, "Unknown"), e.ts));
    var g := Applied(f, e);
    if e.kind.TaskDrafted? then g.(parent := Truthy(e.payload.parent))
    else if e.kind.LeaseGranted? then g.(gateway := Some(e.source))
    else g
  }

  function BatchFields(es: seq<Event>, n: nat, t: Id): Option<Fields>
    requires n <= |es|
  {
    if n == 0 then None
    else
      var before := BatchFields(es, n - 1, t);
      if es[n - 1].task == t then Some(BatchApplied(before, es[n - 1])) else before
  }

  lemma {:induction false} BatchFieldsIffSeen(es: seq<Event>, n: nat, t: Id)
    requires n <= |es|
    ensures BatchFields(es, n, t).Some? <==> Seen(es, n, t)
    ensures BatchFields(es, n, t).Some? ==> BatchFields(es, n, t).value.parent != Some("")
  {
    if n == 0 {
    } else {
      BatchFieldsIffSeen(es, n - 1, t);
    }
  }

  // ---- the ledger's view of one task ----

  function LedgerApplied(before: Option<Fields>, e: Event): Fields {
    var f := GetOr(before, NewFields("Unknown", e.ts));
    var g := Applied(f, e);
    if e.kind.TaskDrafted? then g.(parent := e.payload.parent)
    else if e.kind.LeaseGranted? then g.(gateway := Some(GetOr(e.payload.gateway, e.source)))
    else g
  }

  function HaltedBy(f: Fields, e: Event): Fields {
    if e.kind.SystemHalt? && f.status.Executing? then f.(status := Halted) else f
  }

  /** A halt that names any task halts every executing one. */
  function LedgerFields(es: seq<Event>, n: nat, t: Id): Option<Fields>
    requires n <= |es|
  {
    if n == 0 then None
    else
      var before, e := LedgerFields(es, n - 1, t), es[n - 1];
      if e.task == [] then before
      else if e.task == t then Some(HaltedBy(LedgerApplied(before, e), e))
      else if before.None? then None
      else Some(HaltedBy(before.value, e))
  }

  lemma {:induction false} LedgerFieldsIffSeen(es: seq<Event>, n: nat, t: Id)
    requires n <= |es| && t != ""
    ensures LedgerFields(es, n, t).Some? <==> Seen(es, n, t)
  {
    if n == 0 {
    } else {
      LedgerFieldsIffSeen(es, n - 1, t);
    }
  }
}
