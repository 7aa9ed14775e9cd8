/** The promises of the outbox, over every run in which no claim succeeds on a held row. */
module EmailOutboxTheorems {
  import opened Prelude
  import opened EmailOutbox
  import opened EmailOutboxProofs
  import opened EmailOutboxHistory

  ghost predicate Reached(w: World, run: seq<Step>, v: World) {
    Initial(w) && ApartRun(w, run) && Execute(w, run) == Some(v)
  }

  /** Every claim that is not given up is younger than the lease. */
  ghost predicate InLease(w: World) {
    forall k :: k in w.workers && !w.workers[k].Idle? ==> w.clock < w.workers[k].now + CLAIM_LEASE_MS
  }

  lemma InLeaseIsApart(w: World, s: Step)
    requires Inv(w) && InLease(w)
    ensures Apart(w, s)
  {
    if s.TryClaim? && At(w, s.w).Sampled? {
      forall k | k in w.workers && w.workers[k].Live? && w.workers[k].entry == At(w, s.w).entry
        ensures !Claimable(w, At(w, s.w).entry, At(w, s.w).now)
      {
        assert Holds(w, k, At(w, s.w).entry);
      }
    }
  }

  lemma MoveStaysInLease(w: World, k: Id, s: Step, v: World)
    requires InLease(w) && At(w, k).Live? && Next(w, s) == Some(v)
    requires !s.Tick? && !s.Register? && !s.Enqueue? && !s.Sample? && s.w == k
    ensures InLease(v)
  {
    var x := At(w, k);
    var f := LiveEffect(x, w.rows[x.entry], w.clock, w.users, s).value;
    EffectKeepsClaimTime(x, w.rows[x.entry], w.clock, w.users, s);
    assert v == Apply(w, k, x.entry, f);
    assert v.workers == w.workers[k := f.worker];
  }

  lemma StaysInLease(w: World, s: Step, v: World)
    requires InLease(w) && Timely(w, s) && Next(w, s) == Some(v)
    ensures InLease(v)
  {
    if s.Tick? || s.Register? || s.Enqueue? {
      assert v.workers == w.workers;
    } else if s.Sample? {
      assert v == Set(w, s.w, Sampled(s.entry, w.clock));
    } else if At(w, s.w).Live? {
      MoveStaysInLease(w, s.w, s, v);
    } else {
      assert v.clock == w.clock;
    }
  }

  lemma EffectKeepsClaimTime(x: Worker, r: Row, clock: int, users: set<Id>, s: Step)
    requires x.Live? && LiveEffect(x, r, clock, users, s).Some?
    ensures var y := LiveEffect(x, r, clock, users, s).value.worker; y.Idle? || (y.Live? && y.now == x.now)
  {
  }

  ghost predicate ReachedInTime(w: World, run: seq<Step>, v: World) {
    Initial(w) && TimelyRun(w, run) && Execute(w, run) == Some(v)
  }

  /** When no poller outlives its lease, no claim succeeds on a held row, so the promises below hold. */
  lemma {:induction false} TimelyRunIsApart(w: World, run: seq<Step>, v: World)
    requires ReachedInTime(w, run, v)
    ensures Reached(w, run, v) && InLease(v)
  {
    if run != [] {
      var front, s := run[..|run| - 1], run[|run| - 1];
      var before := Execute(w, front).value;
      TimelyRunIsApart(w, front, before);
      RunKeeps(w, front, before);
      InLeaseIsApart(before, s);
      StaysInLease(before, s, v);
    }
  }

  /** After the first `i` steps no two pollers hold one row. */
  ghost predicate ExclusiveAt(w: World, run: seq<Step>, i: nat)
    requires i <= |run|
  {
    Execute(w, run[..i]).Some? && Exclusive(Execute(w, run[..i]).value)
  }

  ghost predicate ExclusiveThroughout(w: World, run: seq<Step>) {
    forall i :: 0 <= i <= |run| ==> ExclusiveAt(w, run, i)
  }

  lemma ClaimOfHeldIsShared(w: World, s: Step, v: World)
    requires Next(w, s) == Some(v) && !Apart(w, s)
    ensures !Exclusive(v)
  {
    var e := At(w, s.w).entry;
    var k :| k in w.workers && w.workers[k].Live? && w.workers[k].entry == e;
    assert Holds(v, k, e) && Holds(v, s.w, e);
  }

  lemma ExclusiveAtFront(w: World, run: seq<Step>, i: nat)
    requires i < |run|
    ensures ExclusiveAt(w, run, i) == ExclusiveAt(w, run[..|run| - 1], i)
  {
    assert run[..|run| - 1][..i] == run[..i];
  }

  lemma ExclusiveFront(w: World, run: seq<Step>)
    requires run != []
    ensures ExclusiveThroughout(w, run) <==>
      ExclusiveThroughout(w, run[..|run| - 1]) && ExclusiveAt(w, run, |run|)
  {
    var front := run[..|run| - 1];
    if ExclusiveThroughout(w, run) {
      forall i | 0 <= i <= |front|
        ensures ExclusiveAt(w, front, i)
      {
        ExclusiveAtFront(w, run, i);
        assert ExclusiveAt(w, run, i);
      }
    }
    if ExclusiveThroughout(w, front) {
      forall i | 0 <= i < |run|
        ensures ExclusiveAt(w, run, i)
      {
        ExclusiveAtFront(w, run, i);
        assert ExclusiveAt(w, front, i);
      }
    }
  }

  /** Throughout a run no two pollers hold one row exactly when no claim succeeds on a held row. */
  lemma {:induction false} ExclusiveIffApart(w: World, run: seq<Step>, v: World)
    requires Initial(w) && Execute(w, run) == Some(v)
    ensures ExclusiveThroughout(w, run) <==> ApartRun(w, run)
  {
    assert run[..|run|] == run;
    if run == [] {
      assert forall k, e :: !Holds(w, k, e);
    } else {
      var front := run[..|run| - 1];
      var before := Execute(w, front).value;
      ExclusiveIffApart(w, front, before);
      ExclusiveFront(w, run);
      if ApartRun(w, run) {
        HoldersDiffer(w, run, v);
      } else if ApartRun(w, front) {
        ClaimOfHeldIsShared(before, run[|run| - 1], v);
      }
    }
  }

  lemma HoldersDiffer(w: World, run: seq<Step>, v: World)
    requires Reached(w, run, v)
    ensures Exclusive(v)
  {
    RunKeeps(w, run, v);
  }

  /** At most one poller works on a row, and the row it works on is still PENDING. */
  lemma OnePollerPerRow(w: World, run: seq<Step>, v: World)
    requires Reached(w, run, v)
    ensures forall k, l, e :: Holds(v, k, e) && Holds(v, l, e) ==> k == l
    ensures forall k, e :: Holds(v, k, e) ==> e in v.rows && v.rows[e].status == Pending
  {
    RunKeeps(w, run, v);
  }

  lemma SettledByStep(w: World, s: Step, v: World, e: Id)
    requires Inv(w) && Next(w, s) == Some(v) && e in w.rows && w.rows[e].status != Pending
    ensures e in v.rows && v.rows[e] == w.rows[e]
  {
    if s.Tick? || s.Register? || s.Enqueue? || s.Sample? {
    } else if At(w, s.w).Live? {
      var x := At(w, s.w);
      var f := LiveEffect(x, w.rows[x.entry], w.clock, w.users, s).value;
      MoveIsLocal(w, s.w, x.entry, s, f, v);
    }
  }

  /** SENT and FAILED are final: a settled row is the same row at every later point of the run. */
  lemma {:induction false} SettledIsFinal(w: World, run: seq<Step>, n: nat, v: World, e: Id)
    requires Reached(w, run, v) && n <= |run|
    ensures Execute(w, run[..n]).Some?
    ensures var mid := Execute(w, run[..n]).value;
            e in mid.rows && mid.rows[e].status != Pending ==> e in v.rows && v.rows[e] == mid.rows[e]
  {
    if n < |run| {
      var front := run[..|run| - 1];
      var before := Execute(w, front).value;
      assert front[..n] == run[..n];
      SettledIsFinal(w, front, n, before, e);
      RunKeeps(w, front, before);
      if e in before.rows && before.rows[e].status != Pending {
        SettledByStep(before, run[|run| - 1], v, e);
      }
    } else {
      assert run[..n] == run;
    }
  }

  lemma FlightIsNew(v: World, e: Id, u: Id)
    requires Inv(v) && InFlight(v, e, u)
    ensures e in v.rows && u in v.rows[e].clientUserIds && !Saved(v, e, u)
  {
    var k :| Holds(v, k, e) && Carries(v.workers[k], u);
    var sent := v.workers[k].stage.sent;
    assert sent[|sent| - 1] == u;
    assert sent[..|sent| - 1] == v.rows[e].sentUserIds;
  }

  /**
   A user gets a row's mail at most once, plus once for every crash or failed
   write that fell between an accepted mail and its write-back.
   */
  lemma MailedAtMostOncePlusLost(w: World, run: seq<Step>, v: World, e: Id, u: Id)
    requires Reached(w, run, v)
    ensures v.mailed[(e, u)] <= 1 + v.lost[(e, u)]
    ensures v.mailed[(e, u)] > 0 ==> e in v.rows && u in v.rows[e].clientUserIds
  {
    RunKeeps(w, run, v);
    assert LedgerAt(v, e, u);
    if InFlight(v, e, u) {
      FlightIsNew(v, e, u);
    }
  }

  /** With nothing lost, the stored progress is the mailed users, up to the one not yet written back. */
  lemma ProgressIsWhatWasMailed(w: World, run: seq<Step>, v: World, e: Id)
    requires Reached(w, run, v) && e in v.rows
    requires forall u :: v.lost[(e, u)] == 0
    ensures NoDup(v.rows[e].sentUserIds)
    ensures forall u :: u in v.rows[e].sentUserIds ==> u in v.rows[e].clientUserIds && v.mailed[(e, u)] == 1
    ensures forall u :: v.mailed[(e, u)] > 0 && u !in v.rows[e].sentUserIds ==> InFlight(v, e, u)
    ensures forall u, t :: InFlight(v, e, u) && InFlight(v, e, t) ==> u == t
  {
    RunKeeps(w, run, v);
    forall u: Id
      ensures u in v.rows[e].sentUserIds ==> v.mailed[(e, u)] == 1
      ensures v.mailed[(e, u)] > 0 && u !in v.rows[e].sentUserIds ==> InFlight(v, e, u)
    {
      MailedAtMostOncePlusLost(w, run, v, e, u);
      assert LedgerAt(v, e, u);
    }
  }

  /** A SENT hand-off row has mailed every listed client that had an account when it was enqueued. */
  lemma SentMeansEveryClientMailed(w: World, run: seq<Step>, v: World, e: Id, u: Id)
    requires Reached(w, run, v) && e in v.rows
    requires v.rows[e].status == Sent && v.rows[e].kind == TaskClientHandoff
    ensures e in v.enrolled
    ensures u in v.rows[e].clientUserIds && u in v.enrolled[e] ==> v.mailed[(e, u)] >= 1
  {
    RunKeeps(w, run, v);
    assert LedgerAt(v, e, u);
  }

  /** What a row was enqueued as stays: its kind, its recipients, its limit and the accounts of that moment. */
  ghost predicate Enqueued(w: World, e: Id, clients: seq<Id>, known: set<Id>) {
    && e in w.rows && w.rows[e].kind == TaskClientHandoff && w.rows[e].clientUserIds == clients
    && w.rows[e].maxAttempts == 5 && e in w.enrolled && w.enrolled[e] == known
  }

  lemma EnqueueStores(w: World, e: Id, clients: seq<Id>, v: World)
    requires Next(w, Enqueue(e, clients)) == Some(v)
    ensures Enqueued(v, e, clients, w.users)
    ensures v.rows[e].status == Pending && v.rows[e].attempts == 0 && v.rows[e].sentUserIds == []
    ensures v.rows[e].nextRetryAt == w.clock && v.rows[e].createdAt == w.clock
    ensures forall d :: d in w.rows ==> d != e && d in v.rows && v.rows[d] == w.rows[d]
  {
  }

  lemma EffectKeepsRecipients(x: Worker, r: Row, known: set<Id>, clock: int, users: set<Id>, s: Step, f: Effect)
    requires x.Live? && LiveOk(x, r, known, clock)
    requires LiveEffect(x, r, clock, users, s) == Some(f)
    ensures f.row.kind == r.kind && f.row.clientUserIds == r.clientUserIds && f.row.maxAttempts == r.maxAttempts
  {
  }

  lemma MoveStaysEnqueued(w: World, s: Step, v: World, e: Id, clients: seq<Id>, known: set<Id>)
    requires Inv(w) && Next(w, s) == Some(v) && Enqueued(w, e, clients, known)
    requires !s.Tick? && !s.Register? && !s.Enqueue? && !s.Sample? && At(w, s.w).Live?
    ensures Enqueued(v, e, clients, known)
  {
    var x := At(w, s.w);
    assert Holds(w, s.w, x.entry);
    var f := LiveEffect(x, w.rows[x.entry], w.clock, w.users, s).value;
    EffectKeepsRecipients(x, w.rows[x.entry], w.enrolled[x.entry], w.clock, w.users, s, f);
    assert v.rows == w.rows[x.entry := f.row] && v.enrolled == w.enrolled;
  }

  /** A claim succeeds on exactly the due PENDING rows, and only puts the row off until the lease ends. */
  lemma ClaimStep(w: World, k: Id, e: Id, now: int, v: World)
    requires At(w, k) == Sampled(e, now) && Next(w, TryClaim(k)) == Some(v)
    ensures At(v, k).Live? <==> e in w.rows && w.rows[e].status == Pending && w.rows[e].nextRetryAt <= now
    ensures At(v, k).Live? ==> v.rows == w.rows[e := w.rows[e].(nextRetryAt := now + 60_000)]
    ensures At(v, k).Live? ==> v.claims == w.claims + [Claim(e, w.rows[e].attempts, now)]
    ensures !At(v, k).Live? ==> v.rows == w.rows && v.claims == w.claims && At(v, k).Idle?
  {
  }

  lemma StaysEnqueued(w: World, s: Step, v: World, e: Id, clients: seq<Id>, known: set<Id>)
    requires Inv(w) && Next(w, s) == Some(v) && Enqueued(w, e, clients, known)
    ensures Enqueued(v, e, clients, known)
  {
    if !s.Tick? && !s.Register? && !s.Enqueue? && !s.Sample? && At(w, s.w).Live? {
      MoveStaysEnqueued(w, s, v, e, clients, known);
    }
  }

  lemma {:induction false} EnqueuedStays(w: World, run: seq<Step>, n: nat, v: World, e: Id, clients: seq<Id>)
    requires Reached(w, run, v) && n < |run| && run[n] == Enqueue(e, clients)
    ensures Execute(w, run[..n]).Some? && Enqueued(v, e, clients, Execute(w, run[..n]).value.users)
  {
    var front := run[..|run| - 1];
    var before := Execute(w, front).value;
    if n < |run| - 1 {
      assert front[..n] == run[..n];
      EnqueuedStays(w, front, n, before, e, clients);
      RunKeeps(w, front, before);
      StaysEnqueued(before, run[|run| - 1], v, e, clients, Execute(w, run[..n]).value.users);
    } else {
      EnqueueStores(before, e, clients, v);
    }
  }

  /**
   The mail of a hand-off goes to exactly the recipients it was enqueued for:
   nobody else is mailed, no one more than once per row and loss, and once the
   row is SENT every recipient that had an account at that moment has been.
   */
  lemma MailsTheEnqueued(w: World, run: seq<Step>, n: nat, v: World, e: Id, clients: seq<Id>, u: Id)
    requires Reached(w, run, v) && n < |run| && run[n] == Enqueue(e, clients)
    ensures Execute(w, run[..n]).Some? && e in v.rows
    ensures v.mailed[(e, u)] > 0 ==> u in clients && u in v.users && v.mailed[(e, u)] <= 1 + v.lost[(e, u)]
    ensures v.rows[e].status == Sent && u in clients && u in Execute(w, run[..n]).value.users ==> v.mailed[(e, u)] >= 1
  {
    EnqueuedStays(w, run, n, v, e, clients);
    OnlyAccountsAreMailed(w, run, v);
    MailedAtMostOncePlusLost(w, run, v, e, u);
    if v.rows[e].status == Sent {
      SentMeansEveryClientMailed(w, run, v, e, u);
    }
  }

  /** Whom a poller is about to mail. */
  function Queued(x: Worker): seq<Id> {
    if x.Live? && (x.stage.Sending? || x.stage.Unsaved?) then x.stage.todo else []
  }

  ghost predicate OnlyAccounts(w: World) {
    && (forall e: Id, u: Id :: w.mailed[(e, u)] > 0 ==> u in w.users)
    && (forall k, u :: k in w.workers && u in Queued(w.workers[k]) ==> u in w.users)
  }

  lemma EffectMailsAccounts(x: Worker, r: Row, clock: int, users: set<Id>, s: Step, f: Effect)
    requires x.Live? && LiveEffect(x, r, clock, users, s) == Some(f)
    requires forall u :: u in Queued(x) ==> u in users
    ensures f.mailed.Some? ==> f.mailed.value in users
    ensures forall u :: u in Queued(f.worker) ==> u in users
  {
  }

  lemma MoveMailsAccounts(w: World, s: Step, v: World)
    requires OnlyAccounts(w) && Next(w, s) == Some(v)
    requires !s.Tick? && !s.Register? && !s.Enqueue? && !s.Sample? && At(w, s.w).Live?
    ensures OnlyAccounts(v)
  {
    var x := At(w, s.w);
    var f := LiveEffect(x, w.rows[x.entry], w.clock, w.users, s).value;
    EffectMailsAccounts(x, w.rows[x.entry], w.clock, w.users, s, f);
    assert v.workers == w.workers[s.w := f.worker] && v.users == w.users;
    assert v.mailed == w.mailed + Tag(x.entry, f.mailed);
  }

  lemma StaysOnlyAccounts(w: World, s: Step, v: World)
    requires OnlyAccounts(w) && Next(w, s) == Some(v)
    ensures OnlyAccounts(v)
  {
    if !s.Tick? && !s.Register? && !s.Enqueue? && !s.Sample? && At(w, s.w).Live? {
      MoveMailsAccounts(w, s, v);
    } else {
      assert v.mailed == w.mailed && w.users <= v.users;
      assert forall k :: k in v.workers ==>
        Queued(v.workers[k]) == [] || (k in w.workers && v.workers[k] == w.workers[k]);
    }
  }

  /** Only users that have an account are mailed, whether or not claims collide. */
  lemma {:induction false} OnlyAccountsAreMailed(w: World, run: seq<Step>, v: World)
    requires Initial(w) && Execute(w, run) == Some(v)
    ensures OnlyAccounts(v)
  {
    if run != [] {
      var before := Execute(w, run[..|run| - 1]).value;
      OnlyAccountsAreMailed(w, run[..|run| - 1], before);
      StaysOnlyAccounts(before, run[|run| - 1], v);
    }
  }

  /**
   What the record counts for one step of a poller with a claim: a call per
   send, answered or not, a mail per accepted send, and a loss per crash or
   rejection while an accepted mail is not yet written back.
   */
  lemma EffectCounts(x: Worker, r: Row, clock: int, users: set<Id>, s: Step, f: Effect)
    requires x.Live? && LiveEffect(x, r, clock, users, s) == Some(f)
    ensures f.called <==> (s.Send? || s.Throw?) && x.stage.Sending? && x.stage.todo != []
    ensures f.mailed.Some? <==> s.Send? && s.ok
    ensures f.mailed.Some? ==> x.stage.Sending? && x.stage.todo != [] && f.mailed.value == x.stage.todo[0]
    ensures f.lost == if s.Crash? || s.Throw? then Unwritten(x.stage) else None
    ensures f.died <==> s.Crash?
  {
  }

  lemma ApplyCounts(w: World, k: Id, e: Id, f: Effect, d: Id, u: Id)
    ensures var v := Apply(w, k, e, f);
      && v.calls[d] == w.calls[d] + One(f.called && d == e)
      && v.mailed[(d, u)] == w.mailed[(d, u)] + One(f.mailed == Some(u) && d == e)
      && v.lost[(d, u)] == w.lost[(d, u)] + One(f.lost == Some(u) && d == e)
      && v.crashes[d] == w.crashes[d] + One(f.died && d == e)
  {
  }

  lemma SendsAreCounted(w: World, s: Step, v: World, f: Effect, d: Id, u: Id)
    requires !s.Tick? && !s.Register? && !s.Enqueue? && !s.Sample? && At(w, s.w).Live? && At(w, s.w).entry in w.rows
    requires LiveEffect(At(w, s.w), w.rows[At(w, s.w).entry], w.clock, w.users, s) == Some(f)
    requires Next(w, s) == Some(v)
    ensures v.calls[d] == w.calls[d] + One(f.called && d == At(w, s.w).entry)
    ensures v.mailed[(d, u)] == w.mailed[(d, u)] + One(f.mailed == Some(u) && d == At(w, s.w).entry)
    ensures v.lost[(d, u)] == w.lost[(d, u)] + One(f.lost == Some(u) && d == At(w, s.w).entry)
    ensures v.crashes[d] == w.crashes[d] + One(f.died && d == At(w, s.w).entry)
  {
    NextIsApply(w, s, s.w, At(w, s.w), w.rows[At(w, s.w).entry], f);
    ApplyCounts(w, s.w, At(w, s.w).entry, f, d, u);
  }

  /** Accounts are only added and the clock only moves when the environment says so. */
  lemma EnvironmentMoves(w: World, s: Step, v: World)
    requires Next(w, s) == Some(v)
    ensures v.users == if s.Register? then w.users + {s.user} else w.users
    ensures v.clock == (if s.Tick? then s.to else w.clock) && w.clock <= v.clock
  {
  }

  /** Attempts are bounded, and FAILED is exactly the row that used them all up. */
  lemma AttemptsBounded(w: World, run: seq<Step>, v: World, e: Id)
    requires Reached(w, run, v) && e in v.rows
    ensures v.rows[e].status == Pending ==> v.rows[e].attempts < v.rows[e].maxAttempts
    ensures v.rows[e].status == Failed ==> v.rows[e].attempts == v.rows[e].maxAttempts
    ensures v.rows[e].status == Sent ==> 0 < v.rows[e].attempts <= v.rows[e].maxAttempts
  {
    RunKeeps(w, run, v);
  }

  /** A row makes at most one mail call per listed client and attempt, plus one per crash. */
  lemma CallsBounded(w: World, run: seq<Step>, v: World, e: Id)
    requires Reached(w, run, v) && e in v.rows
    ensures v.calls[e] <= |v.rows[e].clientUserIds| + v.rows[e].maxAttempts + v.crashes[e]
  {
    RunKeeps(w, run, v);
    var r := v.rows[e];
    NoDupSize(r.sentUserIds, Elems(r.clientUserIds));
    ElemsSize(r.clientUserIds);
    assert CallsAt(v, e);
    if Owed(v, e) {
      var k :| Holds(v, k, e) && Owing(v.workers[k]);
    }
  }

  /** A claim that finds b attempts comes at least Gap(a, b) ms after one that found a. */
  lemma AttemptsArePaced(w: World, run: seq<Step>, v: World, i: nat, j: nat)
    requires Reached(w, run, v) && i < j < |v.claims| && v.claims[i].entry == v.claims[j].entry
    ensures v.claims[j].time >= v.claims[i].time + Gap(v.claims[i].attempts, v.claims[j].attempts)
  {
    RunKeeps(w, run, v);
    assert After(v.claims[i], v.claims[j].attempts, v.claims[j].time);
  }

  /** When no poller died on a row, its n-th claim comes at least 1000 * n * (n - 1) ms after its first. */
  lemma NthAttemptWaits(w: World, run: seq<Step>, v: World, i: nat, j: nat, n: nat)
    requires Reached(w, run, v) && i < j < |v.claims| && v.claims[i].entry == v.claims[j].entry
    requires v.crashes[v.claims[j].entry] == 0
    requires Earlier(v.claims, i, v.claims[i].entry) == 0 && Earlier(v.claims, j, v.claims[j].entry) + 1 == n
    ensures v.claims[j].time >= v.claims[i].time + 1000 * n * (n - 1)
  {
    RunKeeps(w, run, v);
    AttemptsArePaced(w, run, v, i, j);
    ClaimFinds(v, i);
    ClaimFinds(v, j);
    GapFromZero(n);
  }

  lemma ClaimFinds(v: World, i: nat)
    requires ClaimsCounted(v) && i < |v.claims| && v.crashes[v.claims[i].entry] == 0
    ensures v.claims[i].attempts == Earlier(v.claims, i, v.claims[i].entry)
  {
    assert ClaimFound(v, i);
  }

  lemma GapFromZero(n: nat)
    requires n > 0
    ensures Gap(0, n - 1) == 1000 * n * (n - 1)
  {
    assert (n - 1) * n == n * (n - 1);
  }

  lemma Extend(w: World, run: seq<Step>, v: World, s: Step)
    requires Execute(w, run) == Some(v)
    ensures Execute(w, run + [s]) == Next(v, s)
  {
    assert (run + [s])[..|run|] == run;
  }

  /** One row for client 7, pollers 1 and 2, no crash and no failed write. */
  function Scene(clock: int, row: Row, x1: Worker, x2: Worker, mails: nat, claims: seq<Claim>): World {
    World(clock, {7}, map[0 := row], map[1 := x1, 2 := x2], map[0 := {7}],
          Copies<(Id, Id)>((0, 7), mails), multiset{}, Copies<Id>(0, mails), multiset{}, claims)
  }

  function Copies<T(==)>(x: T, n: nat): multiset<T> {
    if n == 0 then multiset{} else Copies(x, n - 1) + multiset{x}
  }

  lemma Go(w: World, run: seq<Step>, v: World, s: Step, v': World) returns (run': seq<Step>)
    requires Execute(w, run) == Some(v) && Next(v, s) == Some(v')
    ensures run' == run + [s] && Execute(w, run') == Some(v')
  {
    run' := run + [s];
    Extend(w, run, v, s);
  }

  lemma ApplyScene(clock: int, row: Row, x1: Worker, x2: Worker, m: nat, c: seq<Claim>, k: Id, f: Effect)
    requires k == 1 || k == 2
    requires f.lost.None? && !f.died && f.mailed == if f.called then Some(7) else None
    ensures Apply(Scene(clock, row, x1, x2, m, c), k, 0, f)
         == Scene(clock, f.row, if k == 1 then f.worker else x1, if k == 2 then f.worker else x2,
                  if f.called then m + 1 else m, c)
  {
    var to := if f.called then m + 1 else m;
    assert Copies<(Id, Id)>((0, 7), m) + Tag(0, f.mailed) == Copies<(Id, Id)>((0, 7), to);
    assert Copies<Id>(0, m) + (if f.called then multiset{0} else multiset{}) == Copies<Id>(0, to);
    assert map[0 := row][0 := f.row] == map[0 := f.row];
    assert map[1 := x1, 2 := x2][1 := f.worker] == map[1 := f.worker, 2 := x2];
    assert map[1 := x1, 2 := x2][2 := f.worker] == map[1 := x1, 2 := f.worker];
  }

  lemma NextIsApply(v: World, s: Step, k: Id, x: Worker, row: Row, f: Effect)
    requires !s.Tick? && !s.Register? && !s.Enqueue? && !s.Sample? && s.w == k
    requires At(v, k) == x && x.Live? && x.entry in v.rows && v.rows[x.entry] == row
    requires LiveEffect(x, row, v.clock, v.users, s) == Some(f)
    ensures Next(v, s) == Some(Apply(v, k, x.entry, f))
  {
  }

  /** Poller `k` takes one step of `processEntry` with effect `f`. */
  lemma Act(w: World, run: seq<Step>, clock: int, row: Row, x1: Worker, x2: Worker, m: nat, c: seq<Claim>,
            k: Id, s: Step, f: Effect) returns (run': seq<Step>)
    requires Execute(w, run) == Some(Scene(clock, row, x1, x2, m, c))
    requires (k == 1 && x1.Live? && x1.entry == 0) || (k == 2 && x2.Live? && x2.entry == 0)
    requires !s.Tick? && !s.Register? && !s.Enqueue? && !s.Sample? && s.w == k
    requires LiveEffect(if k == 1 then x1 else x2, row, clock, {7}, s) == Some(f)
    requires f.lost.None? && !f.died && f.mailed == if f.called then Some(7) else None
    ensures Execute(w, run') ==
      Some(Scene(clock, f.row, if k == 1 then f.worker else x1, if k == 2 then f.worker else x2,
                 if f.called then m + 1 else m, c))
    ensures run <= run'
  {
    var v := Scene(clock, row, x1, x2, m, c);
    NextIsApply(v, s, k, if k == 1 then x1 else x2, row, f);
    ApplyScene(clock, row, x1, x2, m, c, k, f);
    run' := Go(w, run, v, s, Apply(v, k, 0, f));
  }

  /** Poller `k` samples the clock and claims the row. */
  lemma Claims(w: World, run: seq<Step>, clock: int, row: Row, x1: Worker, x2: Worker, c: seq<Claim>, k: Id)
    returns (run': seq<Step>)
    requires Execute(w, run) == Some(Scene(clock, row, x1, x2, 0, c))
    requires row.status == Pending && row.nextRetryAt <= clock && row.attempts == 0
    requires (k == 1 && x1.Idle?) || (k == 2 && x2.Idle?)
    ensures var x := Live(0, clock, Claimed);
            Execute(w, run') == Some(Scene(clock, row.(nextRetryAt := clock + CLAIM_LEASE_MS),
                                           if k == 1 then x else x1, if k == 2 then x else x2, 0,
                                           c + [Claim(0, 0, clock)]))
  {
    var x := Sampled(0, clock);
    SampleScene(clock, row, x1, x2, c, k);
    run' := Go(w, run, Scene(clock, row, x1, x2, 0, c), Sample(k, 0),
               Scene(clock, row, if k == 1 then x else x1, if k == 2 then x else x2, 0, c));
    ClaimScene(clock, row, if k == 1 then x else x1, if k == 2 then x else x2, c, k);
    run' := Go(w, run', Scene(clock, row, if k == 1 then x else x1, if k == 2 then x else x2, 0, c), TryClaim(k),
               TakeLease(Scene(clock, row, if k == 1 then x else x1, if k == 2 then x else x2, 0, c), k, 0, clock));
  }

  lemma SampleScene(clock: int, row: Row, x1: Worker, x2: Worker, c: seq<Claim>, k: Id)
    requires (k == 1 && x1.Idle?) || (k == 2 && x2.Idle?)
    ensures var x := Sampled(0, clock);
            Next(Scene(clock, row, x1, x2, 0, c), Sample(k, 0))
              == Some(Scene(clock, row, if k == 1 then x else x1, if k == 2 then x else x2, 0, c))
  {
    var x := Sampled(0, clock);
    assert map[1 := x1, 2 := x2][k := x] == map[1 := if k == 1 then x else x1, 2 := if k == 2 then x else x2];
  }

  lemma ClaimScene(clock: int, row: Row, x1: Worker, x2: Worker, c: seq<Claim>, k: Id)
    requires (k == 1 && x1 == Sampled(0, clock)) || (k == 2 && x2 == Sampled(0, clock))
    requires row.status == Pending && row.nextRetryAt <= clock && row.attempts == 0
    ensures Next(Scene(clock, row, x1, x2, 0, c), TryClaim(k))
            == Some(TakeLease(Scene(clock, row, x1, x2, 0, c), k, 0, clock))
    ensures var x, r := Live(0, clock, Claimed), row.(nextRetryAt := clock + CLAIM_LEASE_MS);
            TakeLease(Scene(clock, row, x1, x2, 0, c), k, 0, clock)
              == Scene(clock, r, if k == 1 then x else x1, if k == 2 then x else x2, 0, c + [Claim(0, 0, clock)])
  {
    var x, r := Live(0, clock, Claimed), row.(nextRetryAt := clock + CLAIM_LEASE_MS);
    assert map[1 := x1, 2 := x2][k := x] == map[1 := if k == 1 then x else x1, 2 := if k == 2 then x else x2];
    assert map[0 := row][0 := r] == map[0 := r];
  }

  /** Poller `k` samples the clock, claims, reads the row and looks up its client. */
  lemma PollerStarts(w: World, run: seq<Step>, clock: int, row: Row, x1: Worker, x2: Worker, c: seq<Claim>, k: Id)
    returns (run': seq<Step>, row': Row, x: Worker)
    requires row == Row(TaskClientHandoff, [7], [], Pending, 0, 5, row.nextRetryAt, 0) && row.nextRetryAt <= clock
    requires (k == 1 && x1.Idle?) || (k == 2 && x2.Idle?)
    requires Execute(w, run) == Some(Scene(clock, row, x1, x2, 0, c))
    ensures row' == row.(nextRetryAt := clock + CLAIM_LEASE_MS)
    ensures x == Live(0, clock, Sending(row', [7], []))
    ensures Execute(w, run') == Some(Scene(clock, row', if k == 1 then x else x1, if k == 2 then x else x2,
                                           0, c + [Claim(0, 0, clock)]))
  {
    var d := c + [Claim(0, 0, clock)];
    row' := row.(nextRetryAt := clock + CLAIM_LEASE_MS);
    assert PendingUserIds(row') == [7];
    x := Live(0, clock, Claimed);
    var y := x.(stage := Loaded(row'));
    run' := Claims(w, run, clock, row, x1, x2, c, k);
    run' := Act(w, run', clock, row', if k == 1 then x else x1, if k == 2 then x else x2, 0, d, k,
                Load(k), Quiet(y, row'));
    x := x.(stage := Sending(row', [7], []));
    run' := Act(w, run', clock, row', if k == 1 then y else x1, if k == 2 then y else x2, 0, d, k,
                LookUp(k, [7]), Quiet(x, row'));
  }

  /**
   The lease assumption cannot be dropped. One row, one client, two pollers, no
   crash and no failed write: the first poller stalls past its lease, the client
   is mailed twice, and the row goes from SENT back to PENDING.
   */
  lemma StalledPollerBreaksOutbox() returns (w: World, run: seq<Step>, n: nat, v: World)
    ensures Initial(w) && Execute(w, run) == Some(v) && n <= |run|
    ensures v.lost == multiset{} && v.crashes == multiset{} && v.mailed[(0, 7)] == 2
    ensures Execute(w, run[..n]).Some? && 0 in Execute(w, run[..n]).value.rows
    ensures Execute(w, run[..n]).value.rows[0].status == Sent
    ensures 0 in v.rows && v.rows[0].status == Pending
  {
    var r0 := Row(TaskClientHandoff, [7], [], Pending, 0, 5, 0, 0);
    w := Scene(0, r0, Idle, Idle, 0, []);
    var r1, x1, r2, x2;
    run, r1, x1 := PollerStarts(w, [], 0, r0, Idle, Idle, [], 1);
    var c1 := [] + [Claim(0, 0, 0)];
    run := Go(w, run, Scene(0, r1, x1, Idle, 0, c1), Tick(60_000), Scene(60_000, r1, x1, Idle, 0, c1));
    run, r2, x2 := PollerStarts(w, run, 60_000, r1, x1, Idle, c1, 2);
    run, n, v := BothPollersSend(w, run, r1, r2, x1, x2, c1 + [Claim(0, 0, 60_000)]);
  }

  lemma BothPollersSend(w: World, run0: seq<Step>, r1: Row, r2: Row, x1: Worker, x2: Worker, c: seq<Claim>)
    returns (run: seq<Step>, n: nat, v: World)
    requires r1 == Row(TaskClientHandoff, [7], [], Pending, 0, 5, 60_000, 0) && r2 == r1.(nextRetryAt := 120_000)
    requires x1 == Live(0, 0, Sending(r1, [7], [])) && x2 == Live(0, 60_000, Sending(r2, [7], []))
    requires Execute(w, run0) == Some(Scene(60_000, r2, x1, x2, 0, c))
    ensures Execute(w, run) == Some(v) && n <= |run|
    ensures v.lost == multiset{} && v.crashes == multiset{} && v.mailed[(0, 7)] == 2
    ensures Execute(w, run[..n]).Some? && 0 in Execute(w, run[..n]).value.rows
    ensures Execute(w, run[..n]).value.rows[0].status == Sent
    ensures 0 in v.rows && v.rows[0].status == Pending
  {
    var y1, y2 := x1.(stage := Unsaved(r1, [], [7])), x2.(stage := Unsaved(r2, [], [7]));
    run := BothMail(w, run0, r1, r2, x1, x2, y1, y2, c);
    var z1, z2 := x1.(stage := Sending(r1, [], [7])), x2.(stage := Sending(r2, [], [7]));
    var q := r2.(sentUserIds := [7]);
    run := BothSave(w, run, r1, r2, y1, y2, z1, z2, q, c);
    run, n, v := FirstSettlesSecondFails(w, run, q, r2, z1, z2, c);
  }

  lemma BothMail(w: World, run0: seq<Step>, r1: Row, r2: Row, x1: Worker, x2: Worker, y1: Worker, y2: Worker,
                 c: seq<Claim>) returns (run: seq<Step>)
    requires x1.Live? && x1.entry == 0 && x1.stage == Sending(r1, [7], []) && y1 == x1.(stage := Unsaved(r1, [], [7]))
    requires x2.Live? && x2.entry == 0 && x2.stage == Sending(r2, [7], []) && y2 == x2.(stage := Unsaved(r2, [], [7]))
    requires Execute(w, run0) == Some(Scene(60_000, r2, x1, x2, 0, c))
    ensures Execute(w, run) == Some(Scene(60_000, r2, y1, y2, 2, c))
  {
    assert [] + [7] == [7] && [7][1..] == [];
    run := Act(w, run0, 60_000, r2, x1, x2, 0, c, 1, Send(1, true), Effect(y1, r2, true, Some(7), None, false));
    run := Act(w, run, 60_000, r2, y1, x2, 1, c, 2, Send(2, true), Effect(y2, r2, true, Some(7), None, false));
  }

  lemma BothSave(w: World, run0: seq<Step>, r1: Row, r2: Row, y1: Worker, y2: Worker, z1: Worker, z2: Worker, q: Row,
                 c: seq<Claim>) returns (run: seq<Step>)
    requires y1.Live? && y1.entry == 0 && y1.stage == Unsaved(r1, [], [7]) && z1 == y1.(stage := Sending(r1, [], [7]))
    requires y2.Live? && y2.entry == 0 && y2.stage == Unsaved(r2, [], [7]) && z2 == y2.(stage := Sending(r2, [], [7]))
    requires q == r2.(sentUserIds := [7]) && r1.clientUserIds == r2.clientUserIds
    requires Execute(w, run0) == Some(Scene(60_000, r2, y1, y2, 2, c))
    ensures Execute(w, run) == Some(Scene(60_000, q, z1, z2, 2, c))
  {
    run := Act(w, run0, 60_000, r2, y1, y2, 2, c, 1, Save(1), Quiet(z1, q));
    run := Act(w, run, 60_000, q, z1, y2, 2, c, 2, Save(2), Quiet(z2, q));
  }

  lemma FirstSettlesSecondFails(w: World, run0: seq<Step>, q: Row, r2: Row, z1: Worker, z2: Worker, c: seq<Claim>)
    returns (run: seq<Step>, n: nat, v: World)
    requires q.status == Pending && q.attempts == 0
    requires z1.Live? && z1.entry == 0 && z1.stage.Sending? && z1.stage.todo == []
    requires z2.Live? && z2.entry == 0 && z2.stage.Sending? && z2.stage.todo == []
    requires z2.stage.row == r2 && r2.attempts == 0 && r2.maxAttempts == 5
    requires Execute(w, run0) == Some(Scene(60_000, q, z1, z2, 2, c))
    ensures Execute(w, run) == Some(v) && n <= |run|
    ensures v.lost == multiset{} && v.crashes == multiset{} && v.mailed[(0, 7)] == 2
    ensures Execute(w, run[..n]).Some? && 0 in Execute(w, run[..n]).value.rows
    ensures Execute(w, run[..n]).value.rows[0].status == Sent
    ensures 0 in v.rows && v.rows[0].status == Pending
  {
    var t := 60_000;
    var sent := q.(status := Sent, attempts := 1);
    run := Act(w, run0, t, q, z1, z2, 2, c, 1, Finish(1), Quiet(Idle, sent));
    n := |run|;
    ghost var mid := run;
    var u2 := z2.(stage := Caught(r2, t));
    run := Act(w, run, t, sent, Idle, z2, 2, c, 2, Throw(2), Quiet(u2, sent));
    run := Act(w, run, t, sent, Idle, u2, 2, c, 2, Fail(2), Quiet(Idle, AfterFailure(r2, t, sent)));
    v := Scene(t, AfterFailure(r2, t, sent), Idle, Idle, 2, c);
    assert run[..n] == mid;
    assert Copies<(Id, Id)>((0, 7), 2) == multiset{(0, 7), (0, 7)};
  }
}
