/**
 Accounting over whole runs: which mail was sent how often, how many calls were
 made, and how far apart the attempts on one row are.
 */
module EmailOutboxHistory {
  import opened Prelude
  import opened EmailOutbox
  import opened EmailOutboxProofs

  function One(b: bool): nat {
    if b then 1 else 0
  }

  predicate Carries(x: Worker, u: Id) {
    x.Live? && Unwritten(x.stage) == Some(u)
  }

  /** The poller made a call that neither `sentUserIds` nor `attempts` shows yet. */
  predicate Owing(x: Worker) {
    x.Live? && (x.stage.Unsaved? || x.stage.Refused? || x.stage.Caught?)
  }

  ghost predicate InFlight(w: World, e: Id, u: Id) {
    exists k :: Holds(w, k, e) && Carries(w.workers[k], u)
  }

  ghost predicate Owed(w: World, e: Id) {
    exists k :: Holds(w, k, e) && Owing(w.workers[k])
  }

  ghost predicate Held(w: World, e: Id) {
    exists k :: Holds(w, k, e)
  }

  predicate Saved(w: World, e: Id, u: Id) {
    e in w.rows && u in w.rows[e].sentUserIds
  }

  function Progress(w: World, e: Id): nat {
    if e in w.rows then |w.rows[e].sentUserIds| + w.rows[e].attempts else 0
  }

  function Attempts(w: World, e: Id): nat {
    if e in w.rows then w.rows[e].attempts else 0
  }

  /** Claims of row `e` among the first `n` of the log. */
  function Earlier(claims: seq<Claim>, n: nat, e: Id): nat
    requires n <= |claims|
  {
    if n == 0 then 0 else Earlier(claims, n - 1, e) + One(claims[n - 1].entry == e)
  }

  /** Minimal time between a claim that found `a` attempts and one that found `b`. */
  function Gap(a: nat, b: nat): int {
    1000 * (b * (b + 1) - a * (a + 1))
  }

  /** Conservation of mail: accepted = written back + forgotten + about to be written back. */
  ghost predicate LedgerAt(w: World, e: Id, u: Id) {
    w.mailed[(e, u)] == One(Saved(w, e, u)) + w.lost[(e, u)] + One(InFlight(w, e, u))
  }

  ghost predicate CallsAt(w: World, e: Id) {
    w.calls[e] <= Progress(w, e) + w.crashes[e] + One(Owed(w, e))
  }

  /** Every claim of a row was counted as an attempt, ended in a crash, or is still held. */
  ghost predicate ClaimsAt(w: World, e: Id) {
    Earlier(w.claims, |w.claims|, e) == Attempts(w, e) + w.crashes[e] + One(Held(w, e))
  }

  ghost predicate Ledger(w: World) {
    forall e: Id, u: Id :: LedgerAt(w, e, u)
  }

  ghost predicate CallsOk(w: World) {
    forall e :: CallsAt(w, e)
  }

  ghost predicate ClaimFound(w: World, i: nat)
    requires i < |w.claims|
  {
    var c := w.claims[i];
    c.attempts <= Earlier(w.claims, i, c.entry) <= c.attempts + w.crashes[c.entry]
  }

  ghost predicate ClaimsCounted(w: World) {
    && (forall e :: ClaimsAt(w, e))
    && (forall i :: 0 <= i < |w.claims| ==> ClaimFound(w, i))
  }

  ghost predicate After(c: Claim, attempts: nat, time: int) {
    c.attempts <= attempts && c.time + Gap(c.attempts, attempts) <= time
  }

  ghost predicate Paced(w: World) {
    && (forall i, j :: 0 <= i < j < |w.claims| && w.claims[i].entry == w.claims[j].entry ==>
          After(w.claims[i], w.claims[j].attempts, w.claims[j].time))
    && (forall c :: c in w.claims ==> c.entry in w.rows)
    && (forall c :: c in w.claims && w.rows[c.entry].status == Pending ==>
          After(c, w.rows[c.entry].attempts, w.rows[c.entry].nextRetryAt))
    && (forall c, k :: c in w.claims && Holds(w, k, c.entry) ==>
          After(c, w.rows[c.entry].attempts, w.workers[k].now))
  }

  /** Only mail to listed clients can be forgotten. */
  ghost predicate LostListed(w: World) {
    forall e: Id, u: Id :: w.lost[(e, u)] > 0 ==> e in w.rows && u in w.rows[e].clientUserIds
  }

  ghost predicate History(w: World) {
    Ledger(w) && LostListed(w) && CallsOk(w) && ClaimsCounted(w) && Paced(w)
  }

  /** When only poller `k` can hold row `e`, the row's account is settled by looking at `k`. */
  lemma HolderDecides(w: World, k: Id, e: Id)
    requires forall l :: Holds(w, l, e) ==> l == k
    ensures Held(w, e) <==> Holds(w, k, e)
    ensures Owed(w, e) <==> Holds(w, k, e) && Owing(w.workers[k])
    ensures forall u :: InFlight(w, e, u) <==> Holds(w, k, e) && Carries(w.workers[k], u)
  {
  }

  lemma OthersUnmoved(w: World, k: Id, e: Id, v: World, d: Id)
    requires Local(w, k, e, v) && d != e && !Holds(w, k, d)
    ensures Held(v, d) <==> Held(w, d)
    ensures Owed(v, d) <==> Owed(w, d)
    ensures forall u :: InFlight(v, d, u) <==> InFlight(w, d, u)
  {
    assert forall l :: Holds(v, l, d) <==> Holds(w, l, d);
  }

  /** One poller step balances: mail shows up on its row, in the history, or in its hands. */
  lemma EffectBalancesMail(x: Worker, r: Row, known: set<Id>, clock: int, users: set<Id>, s: Step, f: Effect, u: Id)
    requires x.Live? && LiveOk(x, r, known, clock) && RowOk(r, known)
    requires LiveEffect(x, r, clock, users, s) == Some(f)
    ensures One(f.mailed == Some(u)) + One(u in r.sentUserIds) + One(Carries(x, u))
         == One(u in f.row.sentUserIds) + One(f.lost == Some(u)) + One(Carries(f.worker, u))
  {
    if x.stage.Unsaved? {
      assert x.stage.sent[..|r.sentUserIds|] == r.sentUserIds;
      assert Last(x.stage.sent) !in r.sentUserIds;
    }
  }

  /** The same for mail calls and for claims. */
  lemma EffectBalancesCalls(x: Worker, r: Row, known: set<Id>, clock: int, users: set<Id>, s: Step, f: Effect)
    requires x.Live? && LiveOk(x, r, known, clock)
    requires LiveEffect(x, r, clock, users, s) == Some(f)
    ensures One(f.called) + |r.sentUserIds| + r.attempts + One(Owing(x))
         <= |f.row.sentUserIds| + f.row.attempts + One(f.died) + One(Owing(f.worker))
    ensures f.row.attempts + One(f.died) + One(f.worker.Live?) == r.attempts + 1
  {
  }

  /** What a step of poller `k` does to who holds what, on its own row `e` and elsewhere. */
  lemma HoldersAfter(w: World, k: Id, e: Id, v: World)
    requires Local(w, k, e, v) && forall l :: Holds(w, l, e) ==> l == k
    requires forall d :: d != e ==> !Holds(w, k, d)
    ensures Held(v, e) <==> v.workers[k].Live?
    ensures Owed(v, e) <==> Owing(v.workers[k])
    ensures forall u :: InFlight(v, e, u) <==> Carries(v.workers[k], u)
    ensures forall d :: d != e ==> (Held(v, d) <==> Held(w, d)) && (Owed(v, d) <==> Owed(w, d))
    ensures forall d, u :: d != e ==> (InFlight(v, d, u) <==> InFlight(w, d, u))
  {
    assert forall l :: Holds(v, l, e) && l != k ==> Holds(w, l, e);
    HolderDecides(v, k, e);
    forall d | d != e
      ensures (Held(v, d) <==> Held(w, d)) && (Owed(v, d) <==> Owed(w, d))
      ensures forall u :: InFlight(v, d, u) <==> InFlight(w, d, u)
    {
      OthersUnmoved(w, k, e, v, d);
    }
  }

  /** Poller `k` holds row `e`, takes the step with effect `f`, and the world becomes `v`. */
  ghost predicate Moves(w: World, k: Id, e: Id, s: Step, f: Effect, v: World) {
    && Inv(w) && Holds(w, k, e) && e in w.rows
    && LiveEffect(w.workers[k], w.rows[e], w.clock, w.users, s) == Some(f)
    && v == Apply(w, k, e, f)
  }

  lemma MoveIsLocal(w: World, k: Id, e: Id, s: Step, f: Effect, v: World)
    requires Moves(w, k, e, s, f, v)
    ensures Local(w, k, e, v) && v.workers[k] == f.worker && v.rows[e] == f.row
    ensures forall l :: Holds(w, l, e) ==> l == k
    ensures forall d :: d != e ==> !Holds(w, k, d)
    ensures w.workers[k].Live? && LiveOk(w.workers[k], w.rows[e], w.enrolled[e], w.clock)
    ensures RowOk(w.rows[e], w.enrolled[e])
  {
    EffectOk(w.workers[k], w.rows[e], w.enrolled[e], w.clock, w.users, s, f);
  }

  lemma MoveLedgerAt(w: World, k: Id, e: Id, s: Step, f: Effect, v: World, d: Id, u: Id)
    requires Moves(w, k, e, s, f, v) && LedgerAt(w, d, u)
    ensures LedgerAt(v, d, u)
  {
    MoveIsLocal(w, k, e, s, f, v);
    HoldersAfter(w, k, e, v);
    assert v.mailed[(d, u)] == w.mailed[(d, u)] + One(d == e && f.mailed == Some(u));
    assert v.lost[(d, u)] == w.lost[(d, u)] + One(d == e && f.lost == Some(u));
    if d == e {
      EffectBalancesMail(w.workers[k], w.rows[e], w.enrolled[e], w.clock, w.users, s, f, u);
      HolderDecides(w, k, e);
    }
  }

  lemma MoveCountsAt(w: World, k: Id, e: Id, s: Step, f: Effect, v: World, d: Id)
    requires Moves(w, k, e, s, f, v) && CallsAt(w, d) && ClaimsAt(w, d)
    ensures CallsAt(v, d) && ClaimsAt(v, d)
  {
    MoveIsLocal(w, k, e, s, f, v);
    HoldersAfter(w, k, e, v);
    assert v.calls[d] == w.calls[d] + One(d == e && f.called);
    assert v.crashes[d] == w.crashes[d] + One(d == e && f.died);
    if d == e {
      EffectBalancesCalls(w.workers[k], w.rows[e], w.enrolled[e], w.clock, w.users, s, f);
      HolderDecides(w, k, e);
    }
  }

  /** A step never changes who is listed, and forgets only mail to a listed client. */
  lemma EffectLosesListed(x: Worker, r: Row, known: set<Id>, clock: int, users: set<Id>, s: Step, f: Effect)
    requires x.Live? && LiveOk(x, r, known, clock)
    requires LiveEffect(x, r, clock, users, s) == Some(f)
    ensures f.row.clientUserIds == r.clientUserIds
    ensures f.lost.Some? ==> f.lost.value in r.clientUserIds
  {
  }

  lemma MoveKeepsLostListed(w: World, k: Id, e: Id, s: Step, f: Effect, v: World)
    requires Moves(w, k, e, s, f, v) && LostListed(w)
    ensures LostListed(v)
  {
    MoveIsLocal(w, k, e, s, f, v);
    EffectLosesListed(w.workers[k], w.rows[e], w.enrolled[e], w.clock, w.users, s, f);
    RowsStayListed(w, e, f, v);
  }

  lemma RowsStayListed(w: World, e: Id, f: Effect, v: World)
    requires LostListed(w) && e in w.rows && v.rows == w.rows[e := f.row] && v.lost == w.lost + Tag(e, f.lost)
    requires f.row.clientUserIds == w.rows[e].clientUserIds
    requires f.lost.Some? ==> f.lost.value in w.rows[e].clientUserIds
    ensures LostListed(v)
  {
    forall d: Id, u: Id | v.lost[(d, u)] > 0
      ensures d in v.rows && u in v.rows[d].clientUserIds
    {
      assert v.lost[(d, u)] == w.lost[(d, u)] + One(d == e && f.lost == Some(u));
    }
  }

  lemma MoveKeepsAccounts(w: World, k: Id, e: Id, s: Step, f: Effect, v: World)
    requires Moves(w, k, e, s, f, v) && Ledger(w) && CallsOk(w) && ClaimsCounted(w)
    ensures Ledger(v) && CallsOk(v) && ClaimsCounted(v)
  {
    forall d: Id, u: Id ensures LedgerAt(v, d, u) {
      MoveLedgerAt(w, k, e, s, f, v, d, u);
    }
    forall d ensures CallsAt(v, d) && ClaimsAt(v, d) {
      MoveCountsAt(w, k, e, s, f, v, d);
    }
    forall i | 0 <= i < |v.claims| ensures ClaimFound(v, i) {
      assert ClaimFound(w, i);
    }
  }

  lemma GapStep(a: nat, b: nat)
    ensures Gap(a, b + 1) == Gap(a, b) + 2000 * (b + 1)
  {
  }

  /** A failed attempt pushes the row far enough away from every earlier claim. */
  lemma EffectPaces(x: Worker, r: Row, known: set<Id>, clock: int, users: set<Id>, s: Step, f: Effect, c: Claim)
    requires x.Live? && LiveOk(x, r, known, clock)
    requires LiveEffect(x, r, clock, users, s) == Some(f)
    requires After(c, r.attempts, x.now)
    ensures f.row.status == Pending ==> After(c, f.row.attempts, f.row.nextRetryAt)
    ensures f.worker.Live? ==> After(c, f.row.attempts, f.worker.now)
  {
    GapStep(c.attempts, r.attempts);
  }

  lemma MoveKeepsPaced(w: World, k: Id, e: Id, s: Step, f: Effect, v: World)
    requires Moves(w, k, e, s, f, v) && Paced(w)
    ensures Paced(v)
  {
    MoveIsLocal(w, k, e, s, f, v);
    forall c | c in w.claims && c.entry == e
      ensures v.rows[e].status == Pending ==> After(c, v.rows[e].attempts, v.rows[e].nextRetryAt)
      ensures v.workers[k].Live? ==> After(c, v.rows[e].attempts, v.workers[k].now)
    {
      EffectPaces(w.workers[k], w.rows[e], w.enrolled[e], w.clock, w.users, s, f, c);
    }
    LocalKeepsPaced(w, k, e, v);
  }

  lemma LocalKeepsPaced(w: World, k: Id, e: Id, v: World)
    requires Paced(w) && Local(w, k, e, v) && v.claims == w.claims
    requires forall l :: Holds(w, l, e) ==> l == k
    requires forall c :: c in w.claims && c.entry == e && v.rows[e].status == Pending ==>
      After(c, v.rows[e].attempts, v.rows[e].nextRetryAt)
    requires forall c :: c in w.claims && c.entry == e && v.workers[k].Live? ==>
      After(c, v.rows[e].attempts, v.workers[k].now)
    ensures Paced(v)
  {
    forall c, l | c in v.claims && Holds(v, l, c.entry)
      ensures After(c, v.rows[c.entry].attempts, v.workers[l].now)
    {
      assert l != k ==> Holds(w, l, c.entry);
    }
  }

  /** Poller `k` turns its clock reading `now` into a claim on row `e`. */
  ghost predicate Takes(w: World, k: Id, e: Id, now: int, v: World) {
    && Inv(w) && At(w, k) == Sampled(e, now) && Claimable(w, e, now)
    && (forall l :: !Holds(w, l, e)) && v == TakeLease(w, k, e, now)
  }

  lemma TakeIsLocal(w: World, k: Id, e: Id, now: int, v: World)
    requires Takes(w, k, e, now, v)
    ensures Local(w, k, e, v) && v.workers[k] == Live(e, now, Claimed) && !Held(w, e)
    ensures forall d :: !Holds(w, k, d)
  {
  }

  lemma TakeAccountsAt(w: World, k: Id, e: Id, now: int, v: World, d: Id)
    requires Takes(w, k, e, now, v) && CallsAt(w, d) && ClaimsAt(w, d)
    ensures CallsAt(v, d) && ClaimsAt(v, d)
    ensures forall u: Id :: LedgerAt(w, d, u) ==> LedgerAt(v, d, u)
  {
    TakeIsLocal(w, k, e, now, v);
    HolderDecides(w, k, e);
    HoldersAfter(w, k, e, v);
    EarlierPrefix(w.claims, Claim(e, w.rows[e].attempts, now), |w.claims|, d);
  }

  lemma TakeFound(w: World, k: Id, e: Id, now: int, v: World, i: nat)
    requires Takes(w, k, e, now, v) && ClaimsCounted(w) && i <= |w.claims|
    ensures ClaimFound(v, i)
  {
    var c := Claim(e, w.rows[e].attempts, now);
    TakeIsLocal(w, k, e, now, v);
    EarlierPrefix(w.claims, c, i, v.claims[i].entry);
    if i == |w.claims| {
      assert ClaimsAt(w, e);
    } else {
      assert v.claims[i] == w.claims[i] && ClaimFound(w, i);
    }
  }

  lemma TakeKeepsHistory(w: World, k: Id, e: Id, now: int, v: World)
    requires Takes(w, k, e, now, v) && History(w)
    ensures History(v)
  {
    forall d: Id ensures CallsAt(v, d) && ClaimsAt(v, d) {
      TakeAccountsAt(w, k, e, now, v, d);
    }
    forall d: Id, u: Id ensures LedgerAt(v, d, u) {
      assert LedgerAt(w, d, u);
      TakeAccountsAt(w, k, e, now, v, d);
    }
    forall i | 0 <= i < |v.claims| ensures ClaimFound(v, i) {
      TakeFound(w, k, e, now, v, i);
    }
    TakeKeepsPaced(w, k, e, now, v);
  }

  lemma {:induction false} EarlierPrefix(claims: seq<Claim>, c: Claim, n: nat, e: Id)
    requires n <= |claims|
    ensures Earlier(claims + [c], n, e) == Earlier(claims, n, e)
  {
    if n > 0 {
      EarlierPrefix(claims, c, n - 1, e);
    }
  }

  lemma TakeHolders(w: World, k: Id, e: Id, now: int, v: World, l: Id, d: Id)
    requires Takes(w, k, e, now, v) && Holds(v, l, d)
    ensures if l == k then d == e else d != e && Holds(w, l, d) && v.workers[l] == w.workers[l]
  {
    if l != k {
      assert Holds(w, l, d);
    }
  }

  /** The claim comes no earlier than the row's waiting time allows, whatever claim came before. */
  lemma TakeComesAfter(w: World, k: Id, e: Id, now: int, v: World, c: Claim)
    requires Takes(w, k, e, now, v) && Paced(w) && c in w.claims && c.entry == e
    ensures After(c, w.rows[e].attempts, now) && After(c, v.rows[e].attempts, v.rows[e].nextRetryAt)
  {
  }

  lemma TakePairs(w: World, k: Id, e: Id, now: int, v: World, i: nat, j: nat)
    requires Takes(w, k, e, now, v) && Paced(w)
    requires i < j < |v.claims| && v.claims[i].entry == v.claims[j].entry
    ensures After(v.claims[i], v.claims[j].attempts, v.claims[j].time)
  {
    assert v.claims[i] == w.claims[i] && w.claims[i] in w.claims;
    if j == |w.claims| {
      TakeComesAfter(w, k, e, now, v, w.claims[i]);
    } else {
      assert v.claims[j] == w.claims[j];
    }
  }

  lemma TakeClaimAt(w: World, k: Id, e: Id, now: int, v: World, c: Claim)
    requires Takes(w, k, e, now, v) && Paced(w) && c in v.claims
    ensures c.entry in v.rows
    ensures v.rows[c.entry].status == Pending ==> After(c, v.rows[c.entry].attempts, v.rows[c.entry].nextRetryAt)
    ensures forall l :: Holds(v, l, c.entry) ==> After(c, v.rows[c.entry].attempts, v.workers[l].now)
  {
    if c in w.claims && c.entry == e {
      TakeComesAfter(w, k, e, now, v, c);
    }
    forall l | Holds(v, l, c.entry)
      ensures After(c, v.rows[c.entry].attempts, v.workers[l].now)
    {
      TakeHolders(w, k, e, now, v, l, c.entry);
    }
  }

  lemma TakeKeepsPaced(w: World, k: Id, e: Id, now: int, v: World)
    requires Takes(w, k, e, now, v) && Paced(w)
    ensures Paced(v)
  {
    forall i, j | 0 <= i < j < |v.claims| && v.claims[i].entry == v.claims[j].entry
      ensures After(v.claims[i], v.claims[j].attempts, v.claims[j].time)
    {
      TakePairs(w, k, e, now, v, i, j);
    }
    forall c | c in v.claims
      ensures c.entry in v.rows
      ensures v.rows[c.entry].status == Pending ==> After(c, v.rows[c.entry].attempts, v.rows[c.entry].nextRetryAt)
      ensures forall l :: Holds(v, l, c.entry) ==> After(c, v.rows[c.entry].attempts, v.workers[l].now)
    {
      TakeClaimAt(w, k, e, now, v, c);
    }
  }

  /** Nothing an account depends on has changed. */
  ghost predicate Still(w: World, v: World) {
    && (forall k, e :: Holds(v, k, e) <==> Holds(w, k, e))
    && (forall k, e :: Holds(w, k, e) && Holds(v, k, e) ==> v.workers[k] == w.workers[k])
    && (forall e :: e in w.rows ==> e in v.rows && v.rows[e] == w.rows[e])
    && (forall e :: e in v.rows && e !in w.rows ==> v.rows[e].sentUserIds == [] && v.rows[e].attempts == 0)
    && v.mailed == w.mailed && v.lost == w.lost && v.calls == w.calls && v.crashes == w.crashes && v.claims == w.claims
  }

  lemma StillAt(w: World, v: World, d: Id)
    requires Still(w, v) && CallsAt(w, d) && ClaimsAt(w, d)
    ensures CallsAt(v, d) && ClaimsAt(v, d)
    ensures forall u: Id :: LedgerAt(w, d, u) ==> LedgerAt(v, d, u)
  {
    assert Held(v, d) <==> Held(w, d);
    assert Owed(v, d) <==> Owed(w, d);
    assert forall u: Id :: InFlight(v, d, u) <==> InFlight(w, d, u);
  }

  lemma StillKeepsHistory(w: World, v: World)
    requires Inv(w) && History(w) && Still(w, v)
    ensures History(v)
  {
    forall d: Id ensures CallsAt(v, d) && ClaimsAt(v, d) {
      StillAt(w, v, d);
    }
    forall d: Id, u: Id ensures LedgerAt(v, d, u) {
      assert LedgerAt(w, d, u);
      StillAt(w, v, d);
    }
    forall i | 0 <= i < |v.claims| ensures ClaimFound(v, i) {
      assert ClaimFound(w, i);
    }
  }

  /** Steps of the environment and of pollers without a claim leave the accounts alone. */
  lemma OtherStepIsStill(w: World, s: Step, v: World)
    requires Next(w, s) == Some(v)
    requires s.Tick? || s.Register? || s.Enqueue? || s.Sample? || !At(w, s.w).Live?
    requires s.TryClaim? && At(w, s.w).Sampled? ==> !Claimable(w, At(w, s.w).entry, At(w, s.w).now)
    ensures Still(w, v)
  {
    assert forall k, e :: Holds(v, k, e) <==> Holds(w, k, e);
  }

  lemma NextKeepsHistory(w: World, s: Step, v: World)
    requires Inv(w) && History(w) && Apart(w, s) && Next(w, s) == Some(v)
    ensures History(v)
  {
    if !s.Tick? && !s.Register? && !s.Enqueue? && !s.Sample? && At(w, s.w).Live? {
      var x := At(w, s.w);
      var f := LiveEffect(x, w.rows[x.entry], w.clock, w.users, s).value;
      MoveKeepsAccounts(w, s.w, x.entry, s, f, v);
      MoveKeepsLostListed(w, s.w, x.entry, s, f, v);
      MoveKeepsPaced(w, s.w, x.entry, s, f, v);
    } else if s.TryClaim? && Claimable(w, At(w, s.w).entry, At(w, s.w).now) {
      assert forall l :: !Holds(w, l, At(w, s.w).entry);
      TakeKeepsHistory(w, s.w, At(w, s.w).entry, At(w, s.w).now, v);
    } else {
      OtherStepIsStill(w, s, v);
      StillKeepsHistory(w, v);
    }
  }

  lemma {:induction false} RunKeeps(w: World, run: seq<Step>, v: World)
    requires Initial(w) && ApartRun(w, run) && Execute(w, run) == Some(v)
    ensures Inv(v) && History(v)
  {
    if run == [] {
      assert forall k, e :: !Holds(w, k, e);
    } else {
      var before := Execute(w, run[..|run| - 1]).value;
      RunKeeps(w, run[..|run| - 1], before);
      NextKeepsInv(before, run[|run| - 1], v);
      NextKeepsHistory(before, run[|run| - 1], v);
    }
  }
}
