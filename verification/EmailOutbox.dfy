/**
 The email outbox as a state machine: rows in the database, any number of
 pollers, the mail server and one clock. Every database call, every mail call
 and every clock reading of `EmailOutboxService` is one step, so a list of
 steps is one interleaving of all pollers.
 */
module EmailOutbox {
  import opened Prelude

  const BASE_BACKOFF_MS: nat := 2_000
  const CLAIM_LEASE_MS: nat := 60_000
  const DEFAULT_MAX_ATTEMPTS: nat := 5

  datatype Kind = TaskClientHandoff | OtherKind
  datatype Status = Pending | Sent | Failed

  datatype Row = Row(
    kind: Kind, clientUserIds: seq<Id>, sentUserIds: seq<Id>,
    status: Status, attempts: nat, maxAttempts: nat, nextRetryAt: int, createdAt: int)

  /** Where a `processEntry` call that holds a claim currently waits. `row` is the entry it read. */
  datatype Stage =
    | Claimed
    | Loaded(row: Row)
    | Sending(row: Row, todo: seq<Id>, sent: seq<Id>)
    | Unsaved(row: Row, todo: seq<Id>, sent: seq<Id>)  // last of `sent` was mailed, not yet written back
    | Refused(row: Row, sent: seq<Id>)                 // mail returned false, progress not yet written back
    | Caught(row: Row, at: int)                        // in the catch block, backoff clock already read

  datatype Worker =
    | Idle
    | Sampled(entry: Id, now: int)                     // `now` read, claim not yet issued
    | Live(entry: Id, now: int, stage: Stage)

  /** One successful claim: the row, its `attempts` at that moment, and the claim time. */
  datatype Claim = Claim(entry: Id, attempts: nat, time: int)

  /** `users`, `rows`, `clock`, `workers` drive the steps; the other fields only record history. */
  datatype World = World(
    clock: int, users: set<Id>, rows: map<Id, Row>, workers: map<Id, Worker>,
    enrolled: map<Id, set<Id>>,        // accounts that existed when the row was enqueued
    mailed: multiset<(Id, Id)>,        // (row, user): mail accepted by the mail server
    lost: multiset<(Id, Id)>,          // (row, user): crash or failed write between mail and write-back
    calls: multiset<Id>,               // row: calls to the mail server
    crashes: multiset<Id>,             // row: pollers that died holding the claim
    claims: seq<Claim>)

  datatype Step =
    | Tick(to: int)
    | Register(user: Id)
    | Enqueue(entry: Id, clients: seq<Id>)
    | Sample(w: Id, entry: Id)
    | TryClaim(w: Id)
    | Load(w: Id)
    | LookUp(w: Id, found: seq<Id>)    // users in the order the database returned them
    | Send(w: Id, ok: bool)
    | Save(w: Id)
    | Finish(w: Id)
    | Throw(w: Id)                     // an awaited call inside the try block rejects
    | Fail(w: Id)                      // the update in the catch block
    | Crash(w: Id)                     // the process dies, or a call outside the try block rejects

  function At(w: World, k: Id): Worker {
    if k in w.workers then w.workers[k] else Idle
  }

  function Set(w: World, k: Id, x: Worker): World {
    w.(workers := w.workers[k := x])
  }

  /** What one step of a poller that holds a claim does: to itself, to its row, and to the history. */
  datatype Effect = Effect(
    worker: Worker, row: Row, called: bool, mailed: Option<Id>, lost: Option<Id>, died: bool)

  function Tag(entry: Id, user: Option<Id>): multiset<(Id, Id)> {
    if user.Some? then multiset{(entry, user.value)} else multiset{}
  }

  function Apply(w: World, k: Id, entry: Id, f: Effect): World {
    w.(workers := w.workers[k := f.worker],
       rows := w.rows[entry := f.row],
       calls := w.calls + if f.called then multiset{entry} else multiset{},
       mailed := w.mailed + Tag(entry, f.mailed),
       lost := w.lost + Tag(entry, f.lost),
       crashes := w.crashes + if f.died then multiset{entry} else multiset{})
  }

  predicate Claimable(w: World, entry: Id, now: int) {
    entry in w.rows && w.rows[entry].status == Pending && w.rows[entry].nextRetryAt <= now
  }

  function Last(s: seq<Id>): Id
    requires s != []
  {
    s[|s| - 1]
  }

  function PendingUserIds(row: Row): seq<Id> {
    Without(row.clientUserIds, row.sentUserIds)
  }

  /** `s.filter((id) => !gone.has(id))` */
  function Without(s: seq<Id>, gone: seq<Id>): (r: seq<Id>)
    ensures forall u :: u in r <==> u in s && u !in gone
  {
    if s == [] then []
    else if s[0] in gone then Without(s[1..], gone)
    else [s[0]] + Without(s[1..], gone)
  }

  /** `findMany({ id: { in: ids } })`: each existing user among `ids` once, in any order. */
  predicate IsLookUp(users: set<Id>, ids: seq<Id>, found: seq<Id>) {
    && NoDup(found)
    && (forall u :: u in found ==> u in ids && u in users)
    && (forall u :: u in ids && u in users ==> u in found)
  }

  function AfterFailure(row: Row, at: int, stored: Row): Row {
    var attempts := row.attempts + 1;
    var failed := attempts >= row.maxAttempts;
    stored.(status := if failed then Failed else Pending,
            attempts := attempts,
            nextRetryAt := if failed then row.nextRetryAt else at + BASE_BACKOFF_MS * attempts)
  }

  /** The world after `s`, or None when `s` cannot happen in `w`. */
  function Next(w: World, s: Step): Option<World> {
    match s
    case Tick(to) =>
      if w.clock <= to then Some(w.(clock := to)) else None
    case Register(user) =>
      Some(w.(users := w.users + {user}))
    case Enqueue(entry, clients) =>
      if entry in w.rows then None
      else Some(w.(
        rows := w.rows[entry :=
          Row(TaskClientHandoff, clients, [], Pending, 0, DEFAULT_MAX_ATTEMPTS, w.clock, w.clock)],
        enrolled := w.enrolled[entry := w.users]))
    case Sample(k, entry) =>
      if At(w, k).Idle? then Some(Set(w, k, Sampled(entry, w.clock))) else None
    case _ =>
      var x := At(w, s.w);
      match x
      case Idle => None
      case Sampled(entry, now) =>
        if s.TryClaim? && Claimable(w, entry, now) then Some(TakeLease(w, s.w, entry, now))
        else if s.TryClaim? || s.Crash? then Some(Set(w, s.w, Idle))
        else None
      case Live(entry, now, stage) =>
        if entry !in w.rows then None
        else
          var f := LiveEffect(x, w.rows[entry], w.clock, w.users, s);
          if f.None? then None else Some(Apply(w, s.w, entry, f.value))
  }

  /** The guarded `updateMany` that pushes `nextRetryAt` to the end of the lease. */
  function TakeLease(w: World, k: Id, entry: Id, now: int): World
    requires entry in w.rows
  {
    w.(workers := w.workers[k := Live(entry, now, Claimed)],
       rows := w.rows[entry := w.rows[entry].(nextRetryAt := now + CLAIM_LEASE_MS)],
       claims := w.claims + [Claim(entry, w.rows[entry].attempts, now)])
  }

  function Quiet(x: Worker, row: Row): Effect {
    Effect(x, row, false, None, None, false)
  }

  /** The mail a poller would forget about if it stopped now. */
  function Unwritten(stage: Stage): Option<Id> {
    if stage.Unsaved? && stage.sent != [] then Some(Last(stage.sent)) else None
  }

  /** One step of a poller holding a claim on the stored row `r`. */
  function LiveEffect(x: Worker, r: Row, clock: int, users: set<Id>, s: Step): Option<Effect>
    requires x.Live?
  {
    if s.Crash? then Some(Quiet(Idle, r).(died := true, lost := Unwritten(x.stage)))
    else
      match x.stage
      case Claimed =>
        if !s.Load? then None
        else Some(Quiet(if r.status == Pending then x.(stage := Loaded(r)) else Idle, r))
      case Loaded(row) =>
        if s.Throw? then Some(Quiet(x.(stage := Caught(row, clock)), r))
        else if !s.LookUp? then None
        else if row.kind != TaskClientHandoff || PendingUserIds(row) == [] then
          Some(Quiet(x.(stage := Sending(row, [], row.sentUserIds)), r))
        else if IsLookUp(users, PendingUserIds(row), s.found) then
          Some(Quiet(x.(stage := Sending(row, s.found, Dedup(row.sentUserIds))), r))
        else None
      case Sending(row, todo, sent) =>
        if s.Throw? then
          Some(Quiet(x.(stage := Caught(row, clock)), r).(called := todo != []))
        else if s.Finish? && todo == [] then
          Some(Quiet(Idle, r.(status := Sent, attempts := r.attempts + 1)))
        else if s.Send? && todo != [] && s.ok then
          Some(Quiet(x.(stage := Unsaved(row, todo[1..], sent + [todo[0]])), r).(
            called := true, mailed := Some(todo[0])))
        else if s.Send? && todo != [] then
          Some(Quiet(x.(stage := Refused(row, sent)), r).(called := true))
        else None
      case Unsaved(row, todo, sent) =>
        if s.Throw? then Some(Quiet(x.(stage := Caught(row, clock)), r).(lost := Unwritten(x.stage)))
        else if s.Save? then Some(Quiet(x.(stage := Sending(row, todo, sent)), WriteBack(r, row, sent)))
        else None
      case Refused(row, sent) =>
        if s.Throw? then Some(Quiet(x.(stage := Caught(row, clock)), r))
        else if s.Save? then Some(Quiet(x.(stage := Caught(row, clock)), WriteBack(r, row, sent)))
        else None
      case Caught(row, at) =>
        if s.Fail? then Some(Quiet(Idle, AfterFailure(row, at, r))) else None
  }

  /** `payload: { ...payload, sentUserIds }`: the payload that was read, with new progress. */
  function WriteBack(stored: Row, read: Row, sent: seq<Id>): Row {
    stored.(clientUserIds := read.clientUserIds, sentUserIds := sent)
  }

  /** What the theorems rest on: no claim succeeds on a row that a poller still holds. */
  ghost predicate Apart(w: World, s: Step) {
    s.TryClaim? && At(w, s.w).Sampled? && Claimable(w, At(w, s.w).entry, At(w, s.w).now) ==>
      forall k :: k in w.workers && w.workers[k].Live? ==> w.workers[k].entry != At(w, s.w).entry
  }

  /**
   The lease assumption, which gives that: a `processEntry` call that does not
   die finishes strictly before the time it read at its start plus the lease.
   */
  predicate Timely(w: World, s: Step) {
    s.Tick? ==> forall k :: k in w.workers && !w.workers[k].Idle? ==> s.to < w.workers[k].now + CLAIM_LEASE_MS
  }

  /** The world after a run, or None when one of its steps could not happen. */
  ghost function Execute(w: World, run: seq<Step>): Option<World> {
    if run == [] then Some(w)
    else
      var before := Execute(w, run[..|run| - 1]);
      if before.None? then None else Next(before.value, run[|run| - 1])
  }

  /** Every step of the run keeps the lease assumption. */
  ghost predicate TimelyRun(w: World, run: seq<Step>) {
    run == [] ||
    (TimelyRun(w, run[..|run| - 1]) &&
     var before := Execute(w, run[..|run| - 1]);
     before.Some? && Timely(before.value, run[|run| - 1]))
  }

  /** No step of the run claims a held row. */
  ghost predicate ApartRun(w: World, run: seq<Step>) {
    run == [] ||
    (ApartRun(w, run[..|run| - 1]) &&
     var before := Execute(w, run[..|run| - 1]);
     before.Some? && Apart(before.value, run[|run| - 1]))
  }

  /** Nothing has been attempted yet: no poller is busy and every row is untouched. */
  ghost predicate Initial(w: World) {
    && (forall k :: k in w.workers ==> w.workers[k].Idle?)
    && (forall e :: e in w.rows ==>
          w.rows[e].status == Pending && w.rows[e].attempts == 0 < w.rows[e].maxAttempts && w.rows[e].sentUserIds == [])
    && w.enrolled.Keys == w.rows.Keys
    && (forall e :: e in w.enrolled ==> w.enrolled[e] <= w.users)
    && w.mailed == multiset{} && w.lost == multiset{} && w.calls == multiset{} && w.crashes == multiset{}
    && w.claims == []
  }
}
