/**
 `EmailOutboxService` as it is written: one poller's control flow, with every
 other poller, the clock and the mail server free to act at each `await`. Its
 methods only ever extend a run of the state machine, so the theorems about runs
 speak about this code.
 */
module EmailOutboxService {
  import opened Prelude
  import opened EmailOutbox
  import opened EmailOutboxProofs
  import opened EmailOutboxHistory
  import opened EmailOutboxTheorems

  const BATCH_SIZE: nat := 20

  /** The rows poller `me` has tried to claim, in order. */
  ghost function Visits(run: seq<Step>, me: Id): seq<Id> {
    if run == [] then []
    else
      var last := run[|run| - 1];
      Visits(run[..|run| - 1], me) + if last.Sample? && last.w == me then [last.entry] else []
  }

  lemma VisitsAppend(run: seq<Step>, s: Step, me: Id)
    ensures Visits(run + [s], me) == Visits(run, me) + if s.Sample? && s.w == me then [s.entry] else []
  {
    assert (run + [s])[..|run|] == run;
  }

  ghost predicate EndsIn(run: seq<Step>, s: Step) {
    run != [] && run[|run| - 1] == s
  }

  /** The query for due rows: the oldest ones first, up to a batch of them, and all when there are fewer. */
  ghost predicate IsDueBatch(w: World, now: int, batch: seq<Id>) {
    && NoDup(batch) && |batch| <= 20
    && (forall e :: e in batch ==> Claimable(w, e, now))
    && (|batch| < 20 ==> forall e :: Claimable(w, e, now) ==> e in batch)
    && (forall i, j :: 0 <= i < j < |batch| ==> NotYounger(w, batch[i], batch[j]))
    && (forall e, d :: e in batch && d !in batch && Claimable(w, d, now) ==> NotYounger(w, e, d))
  }

  predicate NotYounger(w: World, e: Id, d: Id) {
    e in w.rows && d in w.rows && w.rows[e].createdAt <= w.rows[d].createdAt
  }

  lemma OldestExists(w: World, ids: set<Id>) returns (e: Id)
    requires ids != {} && forall d :: d in ids ==> d in w.rows
    ensures e in ids && forall d :: d in ids ==> NotYounger(w, e, d)
  {
    var first: Id :| first in ids;
    e := first;
    if ids != {first} {
      assert ids - {first} != {};
      var d := OldestExists(w, ids - {first});
      e := if w.rows[d].createdAt < w.rows[first].createdAt then d else first;
    }
    assert forall d :: d in ids ==> d == first || d in ids - {first};
  }

  /** From `v` to `w` no attempt on row `e` was counted and no claim was taken back. */
  ghost predicate SameCount(v: World, w: World, e: Id) {
    e in v.rows && e in w.rows && w.rows[e].attempts == v.rows[e].attempts && v.claims <= w.claims
  }

  /** From `v` to `w` exactly one attempt on row `e` was counted. */
  ghost predicate CountedOnce(v: World, w: World, e: Id) {
    e in v.rows && e in w.rows && w.rows[e].attempts == v.rows[e].attempts + 1 && v.claims <= w.claims
  }

  /** The row's attempts are one more than the claim made at time `now` found. */
  ghost predicate CountsClaim(w: World, e: Id, now: int) {
    e in w.rows && w.rows[e].attempts > 0 && Claim(e, w.rows[e].attempts - 1, now) in w.claims
  }

  /** How `deliverHandoffEmails` ends. */
  datatype Delivery = Returned | Threw | Died

  /** How `processEntry` ends. */
  datatype Outcome =
    | Skipped                     // the claim found nothing
    | Delivered                   // written SENT
    | Postponed(attempts: nat)    // written PENDING or FAILED by the catch block
    | Dead                        // the process died, or a call outside the try block rejected

  class EmailOutboxService {
    var world: World
    ghost const start: World
    ghost var run: seq<Step>

    ghost predicate Valid()
      reads this
    {
      ReachedInTime(start, run, world)
    }

    constructor (w: World)
      requires Initial(w)
      ensures Valid() && world == w && run == []
    {
      world, start, run := w, w, [];
    }

    /** One atomic step of the shared world. */
    method Do(s: Step)
      requires Valid() && Timely(world, s) && Next(world, s).Some?
      modifies this
      ensures Valid() && run == old(run) + [s] && Some(world) == Next(old(world), s)
    {
      Extend(start, run, world, s);
      world := Next(world, s).value;
      assert (run + [s])[..|run|] == run;
      run := run + [s];
    }

    /** One atomic step of the entry poller `me` holds. */
    method Take(me: Id, s: Step) returns (ghost f: Effect)
      requires Valid() && At(world, me).Live? && At(world, me).entry in world.rows
      requires !s.Tick? && !s.Register? && !s.Enqueue? && !s.Sample? && s.w == me
      requires LiveEffect(At(world, me), world.rows[At(world, me).entry], world.clock, world.users, s).Some?
      modifies this
      ensures Valid() && run == old(run) + [s] && Visits(run, me) == Visits(old(run), me)
      ensures old(LiveEffect(At(world, me), world.rows[At(world, me).entry], world.clock, world.users, s)) == Some(f)
      ensures At(world, me) == f.worker
      ensures world.rows == old(world.rows)[old(At(world, me)).entry := f.row]
      ensures world.claims == old(world.claims)
    {
      var x := At(world, me);
      f := LiveEffect(x, world.rows[x.entry], world.clock, world.users, s).value;
      NextIsApply(world, s, me, x, world.rows[x.entry], f);
      VisitsAppend(run, s, me);
      Do(s);
    }

    /** `findUnique`: the entry as stored now. */
    method Read(me: Id) returns (entry: Row)
      requires Valid() && At(world, me).Live? && At(world, me).stage.Claimed? && At(world, me).entry in world.rows
      modifies this
      ensures Valid() && run == old(run) + [Load(me)] && world.rows.Keys == old(world.rows).Keys
      ensures SameCount(old(world), world, old(At(world, me)).entry)
      ensures Visits(run, me) == Visits(old(run), me)
      ensures entry == old(world.rows[At(world, me).entry])
      ensures At(world, me) == if entry.status == Pending then old(At(world, me)).(stage := Loaded(entry)) else Idle
      ensures world.rows[old(At(world, me)).entry] == entry
    {
      entry := world.rows[At(world, me).entry];
      ghost var _ := Take(me, Load(me));
    }

    /** `findMany` for the recipients; nothing to ask when none is left or the kind is another one. */
    method FindUsers(me: Id, found: seq<Id>)
      requires Valid() && At(world, me).Live? && At(world, me).stage.Loaded? && At(world, me).entry in world.rows
      requires var entry := At(world, me).stage.row;
               if entry.kind == TaskClientHandoff then IsLookUp(world.users, PendingUserIds(entry), found)
               else found == []
      modifies this
      ensures Valid() && run == old(run) + [LookUp(me, found)] && world.rows.Keys == old(world.rows).Keys
      ensures SameCount(old(world), world, old(At(world, me)).entry)
      ensures Visits(run, me) == Visits(old(run), me)
      ensures var entry := old(At(world, me).stage.row);
              At(world, me) == old(At(world, me)).(stage := Sending(entry, found,
                if PendingUserIds(entry) == [] || entry.kind != TaskClientHandoff
                then entry.sentUserIds else Dedup(entry.sentUserIds)))
    {
      LookUpEffect(At(world, me), world.rows[At(world, me).entry], world.clock, world.users, me, found);
      ghost var _ := Take(me, LookUp(me, found));
    }

    /** `mail.send` */
    method Mail(me: Id, sent: bool)
      requires Valid() && At(world, me).Live? && At(world, me).stage.Sending? && At(world, me).stage.todo != []
      requires At(world, me).entry in world.rows
      modifies this
      ensures Valid() && run == old(run) + [Send(me, sent)] && world.rows.Keys == old(world.rows).Keys
      ensures SameCount(old(world), world, old(At(world, me)).entry)
      ensures Visits(run, me) == Visits(old(run), me)
      ensures var Sending(row, todo, ids) := old(At(world, me).stage);
              At(world, me) == old(At(world, me)).(
                stage := if sent then Unsaved(row, todo[1..], ids + [todo[0]]) else Refused(row, ids))
    {
      ghost var _ := Take(me, Send(me, sent));
    }

    /** The `update` that stores the progress made so far; after a refused mail the code then throws. */
    method SaveProgress(me: Id)
      requires Valid() && At(world, me).Live? && At(world, me).entry in world.rows
      requires At(world, me).stage.Unsaved? || At(world, me).stage.Refused?
      modifies this
      ensures Valid() && run == old(run) + [Save(me)] && world.rows.Keys == old(world.rows).Keys
      ensures SameCount(old(world), world, old(At(world, me)).entry)
      ensures Visits(run, me) == Visits(old(run), me)
      ensures var x := old(At(world, me));
              At(world, me) == if x.stage.Unsaved?
                               then x.(stage := Sending(x.stage.row, x.stage.todo, x.stage.sent))
                               else x.(stage := Caught(x.stage.row, old(world.clock)))
      ensures var e := old(At(world, me)).entry;
        world.rows == old(world.rows)[e := old(world.rows)[e].(sentUserIds := old(At(world, me)).stage.sent)]
    {
      HeldReading(start, run, world, me);
      ghost var _ := Take(me, Save(me));
    }

    /** A call inside the try block rejects: control moves to the catch block, which reads the clock. */
    method Reject(me: Id)
      requires Valid() && At(world, me).Live? && At(world, me).entry in world.rows
      requires !At(world, me).stage.Claimed? && !At(world, me).stage.Caught?
      modifies this
      ensures Valid() && run == old(run) + [Throw(me)] && world.rows.Keys == old(world.rows).Keys
      ensures SameCount(old(world), world, old(At(world, me)).entry)
      ensures Visits(run, me) == Visits(old(run), me)
      ensures At(world, me) == old(At(world, me)).(stage := Caught(old(At(world, me)).stage.row, old(world.clock)))
    {
      ghost var _ := Take(me, Throw(me));
    }

    /** Everything that may happen while `me` awaits; it may also die, and is told so. */
    method Await(me: Id) returns (alive: bool)
      requires Valid() && !At(world, me).Idle?
      modifies this
      ensures Valid() && old(run) <= run
      ensures At(world, me) == if alive then old(At(world, me)) else Idle
      ensures old(world.rows).Keys <= world.rows.Keys
      ensures Visits(run, me) == Visits(old(run), me)
      ensures !alive ==> EndsIn(run, Crash(me))
      ensures alive && At(world, me).Live? ==> SameCount(old(world), world, At(world, me).entry)
    {
      HeldIsStored(start, run, world, me);
      var budget: nat := *;
      alive := true;
      while budget > 0 && alive
        invariant Valid() && old(run) <= run
        invariant At(world, me) == if alive then old(At(world, me)) else Idle
        invariant old(world.rows).Keys <= world.rows.Keys
        invariant Visits(run, me) == Visits(old(run), me)
        invariant !alive ==> EndsIn(run, Crash(me))
        invariant alive && At(world, me).Live? ==> SameCount(old(world), world, At(world, me).entry)
      {
        var s: Step := *;
        if Next(world, s).Some? && Timely(world, s) && (s == Crash(me) || !By(s, me)) {
          StepsApart(world, s, me);
          if s != Crash(me) {
            HeldRowIsLeftAlone(start, run, world, s, me);
          }
          VisitsAppend(run, s, me);
          Do(s);
          alive := s != Crash(me);
        }
        budget := budget - 1;
      }
    }

    method ProcessEntry(me: Id, entryId: Id) returns (outcome: Outcome)
      requires Valid() && At(world, me).Idle?
      modifies this
      ensures Valid() && old(run) <= run && At(world, me).Idle?
      ensures Visits(run, me) == Visits(old(run), me) + [entryId]
      ensures outcome.Skipped? ==> !Claimable(world, entryId, old(world.clock))
      ensures outcome.Delivered? ==> IsDelivered(world, entryId) && EndsIn(run, Finish(me))
      ensures outcome.Postponed? ==> IsPostponed(world, entryId, outcome.attempts) && EndsIn(run, Fail(me))
      ensures outcome.Delivered? || outcome.Postponed? ==> CountsClaim(world, entryId, old(world.clock))
      ensures outcome.Dead? ==> EndsIn(run, Crash(me))
    {
      var now := world.clock;
      var alive, claimed := ClaimEntry(me, entryId);
      if !alive { return Dead; }
      if !claimed { return Skipped; }

      outcome := Attempt(me, entryId, now);
    }

    /** The rest of `processEntry`, once the claim has succeeded. */
    method Attempt(me: Id, entryId: Id, now: int) returns (outcome: Outcome)
      requires Valid() && At(world, me) == Live(entryId, now, Claimed) && entryId in world.rows
      modifies this
      ensures Valid() && old(run) <= run && At(world, me).Idle?
      ensures Visits(run, me) == Visits(old(run), me)
      ensures outcome.Skipped? ==> !Claimable(world, entryId, now)
      ensures outcome.Delivered? || outcome.Postponed? ==> CountedOnce(old(world), world, entryId)
      ensures outcome.Delivered? ==> IsDelivered(world, entryId) && EndsIn(run, Finish(me))
      ensures outcome.Postponed? ==> IsPostponed(world, entryId, outcome.attempts) && EndsIn(run, Fail(me))
      ensures outcome.Dead? ==> EndsIn(run, Crash(me))
    {
      var alive := Await(me);
      if !alive { return Dead; }
      var entry := Read(me);
      if entry.status != Pending { return Skipped; }

      outcome := Work(me, entryId, now, entry);
    }

    /** The try and catch blocks of `processEntry`. */
    method Work(me: Id, entryId: Id, now: int, entry: Row) returns (outcome: Outcome)
      requires Valid() && entryId in world.rows && At(world, me) == Live(entryId, now, Loaded(entry))
      modifies this
      ensures Valid() && old(run) <= run && At(world, me).Idle?
      ensures outcome.Delivered? || outcome.Postponed? ==> CountedOnce(old(world), world, entryId)
      ensures outcome.Delivered? ==> IsDelivered(world, entryId) && EndsIn(run, Finish(me))
      ensures outcome.Postponed? ==> IsPostponed(world, entryId, outcome.attempts) && EndsIn(run, Fail(me))
      ensures outcome.Dead? ==> EndsIn(run, Crash(me))
      ensures !outcome.Skipped? && Visits(run, me) == Visits(old(run), me)
    {
      var end := Deliver(me, entryId, now, entry);
      if end.Died? { return Dead; }
      outcome := Settle(me, entryId, end);
    }

    /** Rows of another kind have nothing to deliver. */
    method Deliver(me: Id, entryId: Id, now: int, entry: Row) returns (end: Delivery)
      requires Valid() && entryId in world.rows && At(world, me) == Live(entryId, now, Loaded(entry))
      modifies this
      ensures Valid() && old(run) <= run && entryId in world.rows
      ensures end.Died? ==> At(world, me).Idle? && EndsIn(run, Crash(me))
      ensures Visits(run, me) == Visits(old(run), me)
      ensures !end.Died? ==> At(world, me).Live? && At(world, me).entry == entryId
      ensures !end.Died? ==> SameCount(old(world), world, entryId)
      ensures end.Returned? ==> At(world, me).stage.Sending? && At(world, me).stage.todo == []
      ensures end.Threw? ==> At(world, me).stage.Caught?
    {
      if entry.kind == TaskClientHandoff {
        end := DeliverHandoffEmails(me, entryId, now, entry);
      } else {
        FindUsers(me, []);
        end := Returned;
      }
    }

    /** The start of `processEntry`: read the clock, then the guarded `updateMany`. */
    method ClaimEntry(me: Id, entryId: Id) returns (alive: bool, claimed: bool)
      requires Valid() && At(world, me).Idle?
      modifies this
      ensures Valid() && old(run) <= run
      ensures claimed ==> alive && entryId in world.rows && At(world, me) == Live(entryId, old(world.clock), Claimed)
                          && world.rows[entryId].nextRetryAt == old(world.clock) + CLAIM_LEASE_MS
                          && Claim(entryId, world.rows[entryId].attempts, old(world.clock)) in world.claims
      ensures !claimed ==> At(world, me).Idle?
      ensures alive && !claimed ==> !Claimable(world, entryId, old(world.clock))
      ensures !alive ==> EndsIn(run, Crash(me))
      ensures Visits(run, me) == Visits(old(run), me) + [entryId]
    {
      var now := world.clock;
      VisitsAppend(run, Sample(me, entryId), me);
      Do(Sample(me, entryId));
      alive := Await(me);
      claimed := false;
      if alive {
        claimed := Claimable(world, entryId, now);
        VisitsAppend(run, TryClaim(me), me);
        Do(TryClaim(me));
      }
    }

    /** The end of `processEntry`: write SENT, or run the catch block. */
    method Settle(me: Id, entryId: Id, end: Delivery) returns (outcome: Outcome)
      requires Valid() && At(world, me).Live? && At(world, me).entry == entryId && entryId in world.rows
      requires end.Returned? ==> At(world, me).stage.Sending? && At(world, me).stage.todo == []
      requires end.Threw? ==> At(world, me).stage.Caught?
      requires !end.Died?
      modifies this
      ensures Valid() && old(run) <= run && At(world, me).Idle?
      ensures outcome.Delivered? || outcome.Postponed? ==> CountedOnce(old(world), world, entryId)
      ensures outcome.Delivered? ==> IsDelivered(world, entryId) && EndsIn(run, Finish(me))
      ensures outcome.Postponed? ==> IsPostponed(world, entryId, outcome.attempts) && EndsIn(run, Fail(me))
      ensures outcome.Dead? ==> EndsIn(run, Crash(me))
      ensures !outcome.Skipped? && Visits(run, me) == Visits(old(run), me)
    {
      if end.Returned? {
        var alive := Await(me);
        if !alive { return Dead; }
        var rejected: bool := *;
        if !rejected {
          WriteSent(me, entryId);
          return Delivered;
        }
        Reject(me);
      }
      outcome := CountFailure(me, entryId);
    }

    /** The `update` to SENT. */
    method WriteSent(me: Id, entryId: Id)
      requires Valid() && At(world, me).Live? && At(world, me).entry == entryId && entryId in world.rows
      requires At(world, me).stage.Sending? && At(world, me).stage.todo == []
      modifies this
      ensures Valid() && run == old(run) + [Finish(me)] && At(world, me).Idle?
      ensures CountedOnce(old(world), world, entryId) && IsDelivered(world, entryId)
      ensures var r := old(world.rows)[entryId];
        world.rows == old(world.rows)[entryId := r.(status := Sent, attempts := r.attempts + 1)]
      ensures Visits(run, me) == Visits(old(run), me)
    {
      ghost var _ := Take(me, Finish(me));
      DeliveredNow(start, run, world, entryId);
    }

    /** The `update` of the catch block. */
    method CountFailure(me: Id, entryId: Id) returns (outcome: Outcome)
      requires Valid() && At(world, me).Live? && At(world, me).entry == entryId && entryId in world.rows
      requires At(world, me).stage.Caught?
      modifies this
      ensures Valid() && old(run) <= run && At(world, me).Idle?
      ensures outcome.Dead? || outcome.Postponed?
      ensures outcome.Postponed? ==> CountedOnce(old(world), world, entryId)
      ensures outcome.Postponed? ==> outcome.attempts == old(At(world, me)).stage.row.attempts + 1
      ensures outcome.Postponed? ==> IsPostponed(world, entryId, outcome.attempts) && EndsIn(run, Fail(me))
      ensures outcome.Dead? ==> EndsIn(run, Crash(me))
      ensures Visits(run, me) == Visits(old(run), me)
    {
      var alive := Await(me);
      if !alive { return Dead; }
      WriteFailure(me, entryId);
      return Postponed(world.rows[entryId].attempts);
    }

    method WriteFailure(me: Id, entryId: Id)
      requires Valid() && At(world, me).Live? && At(world, me).entry == entryId && entryId in world.rows
      requires At(world, me).stage.Caught?
      modifies this
      ensures Valid() && run == old(run) + [Fail(me)] && At(world, me).Idle?
      ensures CountedOnce(old(world), world, entryId)
      ensures world.rows[entryId].attempts == old(At(world, me)).stage.row.attempts + 1
      ensures IsPostponed(world, entryId, world.rows[entryId].attempts)
      ensures world.rows == old(world.rows)[entryId := world.rows[entryId]]
      ensures var r := old(world.rows[entryId]);
        world.rows[entryId] == if r.attempts + 1 == r.maxAttempts
          then r.(status := Failed, attempts := r.attempts + 1)
          else r.(attempts := r.attempts + 1,
                  nextRetryAt := old(At(world, me)).stage.at + 2000 * (r.attempts + 1))
      ensures Visits(run, me) == Visits(old(run), me)
    {
      HeldReading(start, run, world, me);
      AfterFailureIs(At(world, me).stage.row, At(world, me).stage.at, world.rows[entryId]);
      ghost var _ := Take(me, Fail(me));
    }

    method DeliverHandoffEmails(me: Id, entryId: Id, now: int, entry: Row) returns (end: Delivery)
      requires Valid() && entryId in world.rows && entry.kind == TaskClientHandoff
      requires At(world, me) == Live(entryId, now, Loaded(entry))
      modifies this
      ensures Valid() && old(run) <= run && entryId in world.rows
      ensures end.Died? ==> At(world, me).Idle? && EndsIn(run, Crash(me))
      ensures Visits(run, me) == Visits(old(run), me)
      ensures !end.Died? ==> At(world, me).Live? && At(world, me).entry == entryId
      ensures !end.Died? ==> SameCount(old(world), world, entryId)
      ensures end.Returned? ==> At(world, me).stage.Sending? && At(world, me).stage.todo == []
      ensures end.Threw? ==> At(world, me).stage.Caught?
    {
      var alreadySent := Dedup(entry.sentUserIds);
      var pendingUserIds := Without(entry.clientUserIds, entry.sentUserIds);
      if |pendingUserIds| == 0 {
        FindUsers(me, []);
        return Returned;
      }

      var alive := Await(me);
      if !alive { return Died; }
      var rejected: bool := *;
      if rejected {
        Reject(me);
        return Threw;
      }
      var users := Existing(pendingUserIds, world.users);
      FindUsers(me, users);

      var sentUserIds := alreadySent;
      for i := 0 to |users|
        invariant Valid() && old(run) <= run && entryId in world.rows
        invariant Visits(run, me) == Visits(old(run), me)
        invariant SameCount(old(world), world, entryId)
        invariant At(world, me) == Live(entryId, now, Sending(entry, users[i..], sentUserIds))
      {
        end := MailOne(me, entryId, now, entry, users[i..], sentUserIds);
        if !end.Returned? { return; }
        sentUserIds := sentUserIds + [users[i]];
      }
      return Returned;
    }

    /** The loop body of `deliverHandoffEmails` for the user `todo[0]`. */
    method MailOne(me: Id, entryId: Id, now: int, entry: Row, todo: seq<Id>, sentUserIds: seq<Id>)
      returns (end: Delivery)
      requires Valid() && entryId in world.rows && todo != []
      requires At(world, me) == Live(entryId, now, Sending(entry, todo, sentUserIds))
      modifies this
      ensures Valid() && old(run) <= run && entryId in world.rows
      ensures end.Died? ==> At(world, me).Idle? && EndsIn(run, Crash(me))
      ensures Visits(run, me) == Visits(old(run), me)
      ensures end.Threw? ==> At(world, me).Live? && At(world, me).entry == entryId && At(world, me).stage.Caught?
      ensures end.Returned? ==>
        At(world, me) == Live(entryId, now, Sending(entry, todo[1..], sentUserIds + [todo[0]]))
      ensures !end.Died? ==> SameCount(old(world), world, entryId)
    {
      var alive := Await(me);
      if !alive { return Died; }
      var rejected: bool := *;
      if rejected {
        Reject(me);
        return Threw;
      }
      var sent: bool := *;
      Mail(me, sent);
      end := Record(me, entryId, sent);
    }

    /** The `update` that follows a mail, and what comes of it. */
    method Record(me: Id, entryId: Id, sent: bool) returns (end: Delivery)
      requires Valid() && entryId in world.rows && At(world, me).Live? && At(world, me).entry == entryId
      requires if sent then At(world, me).stage.Unsaved? else At(world, me).stage.Refused?
      modifies this
      ensures Valid() && old(run) <= run && entryId in world.rows
      ensures Visits(run, me) == Visits(old(run), me)
      ensures end.Died? ==> At(world, me).Idle? && EndsIn(run, Crash(me))
      ensures end.Threw? ==> At(world, me).Live? && At(world, me).entry == entryId && At(world, me).stage.Caught?
      ensures end.Returned? ==> sent && At(world, me) == old(At(world, me)).(
        stage := Sending(old(At(world, me)).stage.row, old(At(world, me)).stage.todo, old(At(world, me)).stage.sent))
      ensures !end.Died? ==> SameCount(old(world), world, entryId)
    {
      var alive := Await(me);
      if !alive { return Died; }
      var rejected: bool := *;
      if rejected { Reject(me); } else { SaveProgress(me); }
      return if sent && !rejected then Returned else Threw;
    }

    /** `findMany` of the due rows. */
    method FindDue(now: int) returns (batch: seq<Id>)
      ensures IsDueBatch(world, now, batch)
    {
      var left := set e | e in world.rows && Claimable(world, e, now);
      batch := [];
      while left != {} && |batch| < BATCH_SIZE
        invariant NoDup(batch) && |batch| <= BATCH_SIZE
        invariant forall e :: e in batch ==> Claimable(world, e, now) && e !in left
        invariant forall e :: Claimable(world, e, now) ==> e in batch || e in left
        invariant forall e :: e in left ==> Claimable(world, e, now)
        invariant forall i, j :: 0 <= i < j < |batch| ==> NotYounger(world, batch[i], batch[j])
        invariant forall e, d :: e in batch && d in left ==> NotYounger(world, e, d)
        decreases left
      {
        ghost var oldest := OldestExists(world, left);
        var e: Id :| e in left && forall d :: d in left ==> NotYounger(world, e, d);
        batch, left := batch + [e], left - {e};
      }
    }

    /** Works through the due rows in turn; a poll ends early only when the process dies or a call rejects. */
    method ProcessPending(me: Id) returns (batch: seq<Id>, done: nat)
      requires Valid() && At(world, me).Idle?
      modifies this
      ensures Valid() && old(run) <= run && At(world, me).Idle?
      ensures IsDueBatch(old(world), old(world.clock), batch)
      ensures WorkedThrough(old(run), run, me, batch, done)
    {
      batch := FindDue(world.clock);
      done := ProcessBatch(me, batch);
    }

    /** The loop of `processPending`. */
    method ProcessBatch(me: Id, batch: seq<Id>) returns (done: nat)
      requires Valid() && At(world, me).Idle?
      modifies this
      ensures Valid() && old(run) <= run && At(world, me).Idle?
      ensures WorkedThrough(old(run), run, me, batch, done)
    {
      ghost var before := Visits(run, me);
      done := 0;
      for i := 0 to |batch|
        invariant Valid() && old(run) <= run && At(world, me).Idle?
        invariant done == i && Visits(run, me) == before + batch[..i]
      {
        var outcome := ProcessEntry(me, batch[i]);
        NextVisit(before, batch, i);
        if outcome.Dead? { return; }
        done := done + 1;
      }
      assert batch[..|batch|] == batch;
    }

    method EnqueueHandoffEmails(me: Id, newId: Id, clientUserIds: seq<Id>) returns (batch: seq<Id>, done: nat)
      requires Valid() && At(world, me).Idle? && newId !in world.rows
      modifies this
      ensures Valid() && old(run) + [Enqueue(newId, clientUserIds)] <= run && At(world, me).Idle?
      ensures newId in batch || |batch| == 20
      ensures WorkedThrough(old(run) + [Enqueue(newId, clientUserIds)], run, me, batch, done)
      ensures newId in world.rows && world.rows[newId].kind == TaskClientHandoff
      ensures world.rows[newId].clientUserIds == clientUserIds && world.rows[newId].maxAttempts == 5
    {
      Create(me, newId, clientUserIds);
      batch, done := ProcessPending(me);
      StoredAsEnqueued(start, run, world, |old(run)|, newId, clientUserIds);
    }

    /** `emailOutbox.create`: the row is due at once. */
    method Create(me: Id, newId: Id, clientUserIds: seq<Id>)
      requires Valid() && At(world, me).Idle? && newId !in world.rows
      modifies this
      ensures Valid() && run == old(run) + [Enqueue(newId, clientUserIds)] && At(world, me).Idle?
      ensures Claimable(world, newId, world.clock)
      ensures world.rows == old(world.rows)[newId :=
        Row(TaskClientHandoff, clientUserIds, [], Pending, 0, 5, old(world.clock), old(world.clock))]
    {
      Do(Enqueue(newId, clientUserIds));
    }
  }

  lemma StoredAsEnqueued(start: World, run: seq<Step>, w: World, n: nat, e: Id, clients: seq<Id>)
    requires ReachedInTime(start, run, w) && n < |run| && run[n] == Enqueue(e, clients)
    ensures e in w.rows && w.rows[e].kind == TaskClientHandoff
    ensures w.rows[e].clientUserIds == clients && w.rows[e].maxAttempts == 5
  {
    TimelyRunIsApart(start, run, w);
    EnqueuedStays(start, run, n, w, e, clients);
  }

  /** Poller `me` went through `batch` in order; it stopped after entry `done` only because it died there. */
  ghost predicate WorkedThrough(before: seq<Step>, after: seq<Step>, me: Id, batch: seq<Id>, done: nat) {
    && done <= |batch|
    && (done == |batch| ==> Visits(after, me) == Visits(before, me) + batch)
    && (done < |batch| ==> Visits(after, me) == Visits(before, me) + batch[..done + 1] && EndsIn(after, Crash(me)))
  }

  lemma NextVisit(before: seq<Id>, batch: seq<Id>, i: nat)
    requires i < |batch|
    ensures before + batch[..i] + [batch[i]] == before + batch[..i + 1]
  {
  }

  /** The row is SENT, and every listed client that had an account at enqueue time has been mailed. */
  ghost predicate IsDelivered(w: World, e: Id) {
    && e in w.rows && w.rows[e].status == Sent && e in w.enrolled
    && (w.rows[e].kind == TaskClientHandoff ==>
          forall u :: u in w.rows[e].clientUserIds && u in w.enrolled[e] ==> w.mailed[(e, u)] >= 1)
  }

  /** The catch block has counted the attempt and chosen PENDING or FAILED by it. */
  predicate IsPostponed(w: World, e: Id, attempts: nat) {
    && e in w.rows && w.rows[e].attempts == attempts
    && w.rows[e].status == if attempts == w.rows[e].maxAttempts then Failed else Pending
  }

  lemma DeliveredNow(start: World, run: seq<Step>, w: World, e: Id)
    requires ReachedInTime(start, run, w) && e in w.rows && w.rows[e].status == Sent
    ensures IsDelivered(w, e)
  {
    TimelyRunIsApart(start, run, w);
    RunKeeps(start, run, w);
    forall u | w.rows[e].kind == TaskClientHandoff && u in w.rows[e].clientUserIds && u in w.enrolled[e]
      ensures w.mailed[(e, u)] >= 1
    {
      SentMeansEveryClientMailed(start, run, w, e, u);
    }
  }

  /** The catch block counts one attempt, and gives up or waits 2 s longer than the last time. */
  lemma AfterFailureIs(read: Row, at: int, r: Row)
    requires SameBut(read, r) && r.status == Pending && r.attempts < r.maxAttempts
    ensures AfterFailure(read, at, r) ==
      if r.attempts + 1 == r.maxAttempts then r.(status := Failed, attempts := r.attempts + 1)
      else r.(attempts := r.attempts + 1, nextRetryAt := at + 2000 * (r.attempts + 1))
    ensures read.attempts == r.attempts
  {
  }

  /** What the poller read is what is stored, up to progress it has written itself. */
  lemma HeldReading(start: World, run: seq<Step>, w: World, me: Id)
    requires ReachedInTime(start, run, w) && At(w, me).Live? && !At(w, me).stage.Claimed?
    ensures At(w, me).entry in w.rows && w.rows[At(w, me).entry].status == Pending
    ensures w.rows[At(w, me).entry].attempts < w.rows[At(w, me).entry].maxAttempts
    ensures SameBut(At(w, me).stage.row, w.rows[At(w, me).entry])
  {
    TimelyRunIsApart(start, run, w);
    RunKeeps(start, run, w);
    assert Holds(w, me, At(w, me).entry);
  }

  lemma HeldIsStored(start: World, run: seq<Step>, w: World, me: Id)
    requires ReachedInTime(start, run, w)
    ensures At(w, me).Live? ==> At(w, me).entry in w.rows
  {
    TimelyRunIsApart(start, run, w);
    RunKeeps(start, run, w);
    assert At(w, me).Live? ==> Holds(w, me, At(w, me).entry);
  }

  /** What others do leaves the row alone that `me` holds. */
  lemma HeldRowIsLeftAlone(start: World, run: seq<Step>, w: World, s: Step, me: Id)
    requires ReachedInTime(start, run, w) && Next(w, s).Some? && !By(s, me)
    ensures At(w, me).Live? ==> SameCount(w, Next(w, s).value, At(w, me).entry)
  {
    if At(w, me).Live? {
      TimelyRunIsApart(start, run, w);
      RunKeeps(start, run, w);
      InLeaseIsApart(w, s);
      OtherLeavesRow(w, s, Next(w, s).value, me, At(w, me).entry);
    }
  }

  lemma OtherMoveLeavesRow(w: World, s: Step, v: World, me: Id, e: Id)
    requires Inv(w) && Next(w, s) == Some(v) && Holds(w, me, e) && e in w.rows
    requires !s.Tick? && !s.Register? && !s.Enqueue? && !s.Sample? && s.w != me && At(w, s.w).Live?
    ensures SameCount(w, v, e)
  {
    var x := At(w, s.w);
    assert Holds(w, s.w, x.entry);
    assert v == Apply(w, s.w, x.entry, LiveEffect(x, w.rows[x.entry], w.clock, w.users, s).value);
  }

  lemma OtherLeavesRow(w: World, s: Step, v: World, me: Id, e: Id)
    requires Inv(w) && Apart(w, s) && Next(w, s) == Some(v) && Holds(w, me, e) && !By(s, me)
    ensures SameCount(w, v, e)
  {
    if !s.Tick? && !s.Register? && !s.Enqueue? && !s.Sample? && At(w, s.w).Live? {
      OtherMoveLeavesRow(w, s, v, me, e);
    }
  }

  predicate By(s: Step, me: Id) {
    !s.Tick? && !s.Register? && !s.Enqueue? && s.w == me
  }

  lemma LookUpEffect(x: Worker, r: Row, clock: int, users: set<Id>, k: Id, found: seq<Id>)
    requires x.Live? && x.stage.Loaded?
    requires if x.stage.row.kind == TaskClientHandoff then IsLookUp(users, PendingUserIds(x.stage.row), found)
             else found == []
    ensures var row := x.stage.row;
            LiveEffect(x, r, clock, users, LookUp(k, found)) == Some(Quiet(x.(stage := Sending(row, found,
              if PendingUserIds(row) == [] || row.kind != TaskClientHandoff
              then row.sentUserIds else Dedup(row.sentUserIds))), r))
  {
    assert |found| == 0 || found[0] in found;
  }

  lemma MoveApart(w: World, s: Step, v: World, me: Id)
    requires Next(w, s) == Some(v) && !s.Tick? && !s.Register? && !s.Enqueue? && !s.Sample? && At(w, s.w).Live?
    ensures s.w != me ==> At(v, me) == At(w, me)
    ensures s == Crash(me) ==> At(v, me) == Idle
    ensures w.rows.Keys <= v.rows.Keys
  {
    var x := At(w, s.w);
    var f := LiveEffect(x, w.rows[x.entry], w.clock, w.users, s).value;
    assert v == Apply(w, s.w, x.entry, f);
    assert v.workers == w.workers[s.w := f.worker] && v.rows == w.rows[x.entry := f.row];
  }

  lemma StepsApart(w: World, s: Step, me: Id)
    requires Next(w, s).Some?
    ensures !By(s, me) ==> At(Next(w, s).value, me) == At(w, me)
    ensures s == Crash(me) ==> At(Next(w, s).value, me) == Idle
    ensures w.rows.Keys <= Next(w, s).value.rows.Keys
  {
    var v := Next(w, s).value;
    if s.Tick? || s.Register? || s.Enqueue? {
      assert v.workers == w.workers;
    } else if s.Sample? {
      assert v == Set(w, s.w, Sampled(s.entry, w.clock));
    } else if At(w, s.w).Live? {
      MoveApart(w, s, v, me);
    } else {
      assert v.workers == w.workers[s.w := v.workers[s.w]];
    }
  }

  /** The accounts among `ids`, in the order listed. */
  function Existing(ids: seq<Id>, users: set<Id>): (found: seq<Id>)
    ensures IsLookUp(users, ids, found)
  {
    if ids == [] then []
    else
      var front := Existing(ids[..|ids| - 1], users);
      var last := ids[|ids| - 1];
      assert ids == ids[..|ids| - 1] + [last];
      if last in users && last !in front then front + [last] else front
  }
}
