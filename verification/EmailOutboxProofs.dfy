/** What every interleaving of outbox pollers keeps, as long as no claim succeeds on a held row. */
module EmailOutboxProofs {
  import opened Prelude
  import opened EmailOutbox

  ghost predicate RowOk(r: Row, known: set<Id>) {
    && (r.status == Pending ==> r.attempts < r.maxAttempts)
    && (r.status == Failed ==> r.attempts == r.maxAttempts)
    && (r.status == Sent ==> 0 < r.attempts <= r.maxAttempts && Covers(r, known, r.sentUserIds, []))
    && NoDup(r.sentUserIds)
    && (forall u :: u in r.sentUserIds ==> u in r.clientUserIds)
  }

  /** Every listed client among `known` is in `sent` or in `todo`. */
  ghost predicate Covers(r: Row, known: set<Id>, sent: seq<Id>, todo: seq<Id>) {
    r.kind == TaskClientHandoff ==>
      forall u :: u in r.clientUserIds && u in known ==> u in sent || u in todo
  }

  ghost predicate Rows(w: World) {
    && w.enrolled.Keys == w.rows.Keys
    && (forall e :: e in w.rows ==> w.enrolled[e] <= w.users && RowOk(w.rows[e], w.enrolled[e]))
  }

  /** `r` is the stored row and `known` the accounts that existed when it was enqueued. */
  ghost predicate StageOk(r: Row, known: set<Id>, now: int, stage: Stage) {
    match stage
    case Claimed => true
    case Loaded(row) => row == r
    case Sending(row, todo, sent) =>
      SameBut(row, r) && sent == r.sentUserIds && Queue(r, todo, sent) && Covers(r, known, sent, todo)
    case Unsaved(row, todo, sent) =>
      SameBut(row, r) && sent != [] && sent == r.sentUserIds + [Last(sent)] && NoDup(sent) &&
      Last(sent) in r.clientUserIds && Queue(r, todo, sent) && Covers(r, known, sent, todo)
    case Refused(row, sent) => SameBut(row, r) && sent == r.sentUserIds
    case Caught(row, at) => SameBut(row, r) && now <= at
  }

  ghost predicate Queue(r: Row, todo: seq<Id>, sent: seq<Id>) {
    NoDup(todo) && forall u :: u in todo ==> u in r.clientUserIds && u !in sent
  }

  /** `read` is what the poller loaded: the stored row up to progress it has written itself. */
  ghost predicate SameBut(read: Row, stored: Row) {
    stored == read.(sentUserIds := stored.sentUserIds)
  }

  ghost predicate LiveOk(x: Worker, r: Row, known: set<Id>, clock: int)
    requires x.Live?
  {
    && r.status == Pending
    && r.nextRetryAt == x.now + CLAIM_LEASE_MS
    && x.now <= clock
    && StageOk(r, known, x.now, x.stage)
  }

  ghost predicate Holds(w: World, k: Id, e: Id) {
    k in w.workers && w.workers[k].Live? && w.workers[k].entry == e
  }

  ghost predicate Exclusive(w: World) {
    forall k, l, e :: Holds(w, k, e) && Holds(w, l, e) ==> k == l
  }

  ghost predicate Workers(w: World) {
    && w.enrolled.Keys == w.rows.Keys
    && (forall k, e :: Holds(w, k, e) ==> e in w.rows && LiveOk(w.workers[k], w.rows[e], w.enrolled[e], w.clock))
    && (forall k :: k in w.workers && w.workers[k].Sampled? ==> w.workers[k].now <= w.clock)
  }

  ghost predicate Inv(w: World) {
    Rows(w) && Workers(w) && Exclusive(w)
  }

  lemma LookUpOk(row: Row, known: set<Id>, users: set<Id>, found: seq<Id>)
    requires RowOk(row, known) && known <= users
    ensures row.kind != TaskClientHandoff || PendingUserIds(row) == [] ==>
      Queue(row, [], row.sentUserIds) && Covers(row, known, row.sentUserIds, [])
    ensures IsLookUp(users, PendingUserIds(row), found) ==>
      Queue(row, found, row.sentUserIds) && Covers(row, known, row.sentUserIds, found)
  {
    assert forall u :: u in row.clientUserIds && u !in row.sentUserIds ==> u in PendingUserIds(row);
  }

  lemma SendOk(r: Row, known: set<Id>, todo: seq<Id>, sent: seq<Id>)
    requires todo != [] && NoDup(sent) && Queue(r, todo, sent) && Covers(r, known, sent, todo)
    ensures NoDup(sent + [todo[0]]) && Last(sent + [todo[0]]) == todo[0]
    ensures Queue(r, todo[1..], sent + [todo[0]]) && Covers(r, known, sent + [todo[0]], todo[1..])
  {
    assert todo[0] in todo;
    assert todo == [todo[0]] + todo[1..];
    assert forall u :: u in todo[1..] ==> u in todo && u != todo[0];
  }

  /** A poller's step keeps the facts about its own row and its own stage. */
  lemma EffectOk(x: Worker, r: Row, known: set<Id>, clock: int, users: set<Id>, s: Step, f: Effect)
    requires x.Live? && LiveOk(x, r, known, clock) && RowOk(r, known) && known <= users
    requires LiveEffect(x, r, clock, users, s) == Some(f)
    ensures RowOk(f.row, known)
    ensures f.worker.Idle? || (f.worker.Live? && f.worker.entry == x.entry && LiveOk(f.worker, f.row, known, clock))
  {
    if x.stage.Loaded? && s.LookUp? {
      LookUpOk(x.stage.row, known, users, s.found);
    } else if x.stage.Sending? && s.Send? && x.stage.todo != [] {
      SendOk(r, known, x.stage.todo, x.stage.sent);
    } else if x.stage.Unsaved? && s.Save? {
      assert r.sentUserIds <= x.stage.sent;
    }
  }

  /** Only poller `k` and row `e` may change, and what `k` becomes fits what `e` becomes. */
  ghost predicate Local(w: World, k: Id, e: Id, v: World) {
    && e in w.rows && v.rows.Keys == w.rows.Keys && v.workers.Keys == w.workers.Keys + {k}
    && (forall d :: d in w.rows && d != e ==> v.rows[d] == w.rows[d])
    && (forall l :: l in w.workers && l != k ==> v.workers[l] == w.workers[l])
    && v.enrolled == w.enrolled && v.users == w.users && v.clock == w.clock
    && !v.workers[k].Sampled?
    && (v.workers[k].Live? ==> v.workers[k].entry == e)
  }

  lemma LocalKeepsInv(w: World, k: Id, e: Id, v: World)
    requires Inv(w) && Local(w, k, e, v)
    requires forall l :: Holds(w, l, e) ==> l == k
    requires RowOk(v.rows[e], w.enrolled[e])
    requires v.workers[k].Live? ==> LiveOk(v.workers[k], v.rows[e], w.enrolled[e], w.clock)
    ensures Inv(v)
  {
    forall l, d | Holds(v, l, d) && l != k
      ensures Holds(w, l, d) && d != e && d in v.rows && LiveOk(v.workers[l], v.rows[d], v.enrolled[d], v.clock)
    {
      assert Holds(w, l, d);
    }
  }

  lemma IdleKeepsInv(w: World, k: Id, x: Worker, v: World)
    requires Inv(w) && !x.Live? && (x.Sampled? ==> x.now == w.clock) && v == Set(w, k, x)
    ensures Inv(v)
  {
    assert forall l, d :: Holds(v, l, d) ==> Holds(w, l, d);
  }

  lemma WorldKeepsInv(w: World, s: Step, v: World)
    requires Inv(w) && Next(w, s) == Some(v) && (s.Tick? || s.Register? || s.Enqueue?)
    ensures Inv(v)
  {
    assert forall k, e :: Holds(v, k, e) <==> Holds(w, k, e);
  }

  lemma ClaimKeepsInv(w: World, k: Id, entry: Id, now: int)
    requires Inv(w) && At(w, k) == Sampled(entry, now) && Claimable(w, entry, now)
    requires forall l :: !Holds(w, l, entry)
    ensures Inv(TakeLease(w, k, entry, now))
  {
    LocalKeepsInv(w, k, entry, TakeLease(w, k, entry, now));
  }

  lemma LiveKeepsInv(w: World, k: Id, s: Step, f: Effect)
    requires Inv(w) && At(w, k).Live? && At(w, k).entry in w.rows
    requires LiveEffect(At(w, k), w.rows[At(w, k).entry], w.clock, w.users, s) == Some(f)
    ensures Inv(Apply(w, k, At(w, k).entry, f))
  {
    var e := At(w, k).entry;
    assert Holds(w, k, e);
    EffectOk(At(w, k), w.rows[e], w.enrolled[e], w.clock, w.users, s, f);
    LocalKeepsInv(w, k, e, Apply(w, k, e, f));
  }

  lemma NextKeepsInv(w: World, s: Step, v: World)
    requires Inv(w) && Apart(w, s) && Next(w, s) == Some(v)
    ensures Inv(v)
  {
    if s.Tick? || s.Register? || s.Enqueue? {
      WorldKeepsInv(w, s, v);
    } else if s.Sample? {
      IdleKeepsInv(w, s.w, Sampled(s.entry, w.clock), v);
    } else {
      var x := At(w, s.w);
      if x.Live? {
        LiveKeepsInv(w, s.w, s, LiveEffect(x, w.rows[x.entry], w.clock, w.users, s).value);
      } else if s.TryClaim? && Claimable(w, x.entry, x.now) {
        assert forall l :: !Holds(w, l, x.entry);
        ClaimKeepsInv(w, s.w, x.entry, x.now);
      } else {
        IdleKeepsInv(w, s.w, Idle, v);
      }
    }
  }
}
