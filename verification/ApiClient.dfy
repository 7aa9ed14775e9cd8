/**
 One browser tab and the server: `apiFetch` with its shared refresh promise on
 one side, the token version of the tab's user on the other. Every message and
 every resumed continuation is one step, so a list of steps is one schedule of
 any number of `apiFetch` calls.
 */
module ApiClient {
  import opened Prelude

  datatype Path = LoginPath | RefreshPath | OtherPath
  datatype Status = Good | Unauthorized | OtherError
  datatype Result = Value | Failure(status: Status) | SessionExpired

  datatype CallState =
    | Asking(retry: bool, seen: nat)        // request under way with the access cookie of version `seen`
    | Replied(retry: bool, status: Status)  // answered, continuation not yet run
    | Waiting(refresh: Id)                  // awaiting the shared promise
    | Finished(result: Result)

  /** The last two record the refresh whose promise the call waited for and the latest answer to its own request. */
  datatype Call = Call(
    path: Path, state: CallState, sends: nat, saw401: bool, awaited: Option<Id>, answer: Option<Status>)

  datatype Refresh =
    | Sent(ver: nat)                        // request under way with the refresh cookie of version `ver`
    | Answered(ok: bool, ver: nat)          // server has answered; `ver` is the version of the new cookies
    | Landed(ok: bool)                      // cookies stored, `finally` not yet run

  datatype World = World(
    version: nat,                           // the user's tokenVersion on the server
    cookie: nat,                            // version of the browser's cookies
    refreshPromise: Option<Id>, refreshes: map<Id, Refresh>, settled: map<Id, bool>, calls: map<Id, Call>,
    rotations: nat, rejections: nat, failures: nat, starters: seq<Id>)  // history

  datatype Step =
    | Start(c: Id, path: Path)
    | Reply(c: Id, status: Status)
    | Receive(c: Id)                        // continuation after `fetch`; a refresh it starts is named after it
    | Rotate(r: Id)                         // server handles the refresh request
    | Fail(r: Id)                           // refresh request fails before it reaches the version check
    | Land(r: Id)
    | Settle(r: Id)
    | Resume(c: Id)                         // continuation after `await refreshPromise`

  /** A protected path is served only for the current version. */
  predicate MayReply(w: World, call: Call, status: Status) {
    call.state.Asking? && (status == Good && call.path == OtherPath ==> call.state.seen == w.version)
  }

  predicate StartsRefresh(call: Call) {
    call.state.Replied? && call.state.status == Unauthorized && call.state.retry && call.path == OtherPath
  }

  function ResultOf(status: Status): Result {
    if status == Good then Value else Failure(status)
  }

  function WaitFor(call: Call, r: Id): Call {
    call.(state := Waiting(r), awaited := Some(r))
  }

  function Next(w: World, s: Step): Option<World> {
    match s
    case Start(c, path) =>
      if c in w.calls then None
      else Some(w.(calls := w.calls[c := Call(path, Asking(true, w.cookie), 1, false, None, None)]))
    case Reply(c, status) =>
      if c !in w.calls || !MayReply(w, w.calls[c], status) then None
      else Some(w.(calls := w.calls[c := w.calls[c].(
        state := Replied(w.calls[c].state.retry, status),
        saw401 := w.calls[c].saw401 || status == Unauthorized, answer := Some(status))]))
    case Receive(c) =>
      if c !in w.calls || !w.calls[c].state.Replied? then None
      else if !StartsRefresh(w.calls[c]) then
        Some(w.(calls := w.calls[c := w.calls[c].(state := Finished(ResultOf(w.calls[c].state.status)))]))
      else if w.refreshPromise.Some? then
        Some(w.(calls := w.calls[c := WaitFor(w.calls[c], w.refreshPromise.value)]))
      else Some(w.(calls := w.calls[c := WaitFor(w.calls[c], c)],
                   refreshPromise := Some(c), refreshes := w.refreshes[c := Sent(w.cookie)],
                   starters := w.starters + [c]))
    case Rotate(r) =>
      if r !in w.refreshes || !w.refreshes[r].Sent? then None
      else if w.refreshes[r].ver == w.version then
        Some(w.(version := w.version + 1, rotations := w.rotations + 1,
                refreshes := w.refreshes[r := Answered(true, w.version + 1)]))
      else Some(w.(rejections := w.rejections + 1, refreshes := w.refreshes[r := Answered(false, 0)]))
    case Fail(r) =>
      if r !in w.refreshes || !w.refreshes[r].Sent? then None
      else Some(w.(failures := w.failures + 1, refreshes := w.refreshes[r := Answered(false, 0)]))
    case Land(r) =>
      if r !in w.refreshes || !w.refreshes[r].Answered? then None
      else Some(w.(cookie := if w.refreshes[r].ok then w.refreshes[r].ver else w.cookie,
                   refreshes := w.refreshes[r := Landed(w.refreshes[r].ok)]))
    case Settle(r) =>
      if r !in w.refreshes || !w.refreshes[r].Landed? then None
      else Some(w.(refreshPromise := None, settled := w.settled[r := w.refreshes[r].ok],
                   refreshes := w.refreshes - {r}))
    case Resume(c) =>
      if c !in w.calls || !w.calls[c].state.Waiting? || w.calls[c].state.refresh !in w.settled then None
      else if w.settled[w.calls[c].state.refresh] then
        Some(w.(calls := w.calls[c := w.calls[c].(state := Asking(false, w.cookie), sends := w.calls[c].sends + 1)]))
      else Some(w.(calls := w.calls[c := w.calls[c].(state := Finished(SessionExpired))]))
  }

  ghost function Execute(w: World, run: seq<Step>): Option<World> {
    if run == [] then Some(w)
    else
      var before := Execute(w, run[..|run| - 1]);
      if before.None? then None else Next(before.value, run[|run| - 1])
  }

  /** A fresh tab holding a valid session: its cookies carry the server's version. */
  ghost predicate Initial(w: World) {
    && w.cookie == w.version
    && w.refreshPromise == None && w.refreshes == map[] && w.settled == map[] && w.calls == map[]
    && w.rotations == 0 && w.rejections == 0 && w.failures == 0 && w.starters == []
  }

  /** What the refresh under way knows about both sides. */
  ghost predicate InStep(w: World, f: Refresh) {
    match f
    case Sent(ver) => ver == w.version == w.cookie
    case Answered(ok, ver) => if ok then ver == w.version == w.cookie + 1 else w.version == w.cookie
    case Landed(ok) => w.version == w.cookie
  }

  ghost predicate SingleFlight(w: World) {
    && (w.refreshPromise.None? ==> w.refreshes == map[] && w.cookie == w.version)
    && (w.refreshPromise.Some? ==>
          var r := w.refreshPromise.value;
          w.refreshes.Keys == {r} && r !in w.settled && InStep(w, w.refreshes[r]))
    && w.rejections == 0
  }

  /** Each refresh is named after the call that started it, and a call starts at most one. */
  ghost predicate Started(w: World) {
    && NoDup(w.starters)
    && (forall c :: c in w.settled || w.refreshPromise == Some(c) ==> c in w.starters)
    && (forall c :: c in w.starters ==> StarterOk(w, c))
  }

  /** The refresh the call waited for has settled, this way. */
  predicate AwaitedSettled(w: World, call: Call, ok: bool) {
    call.awaited.Some? && call.awaited.value in w.settled && w.settled[call.awaited.value] == ok
  }

  predicate SentOnce(call: Call) {
    call.sends == 1 && call.awaited == None
  }

  predicate SentAgain(w: World, call: Call) {
    call.sends == 2 && call.saw401 && AwaitedSettled(w, call, true)
  }

  ghost predicate CallOk(w: World, call: Call) {
    match call.state
    case Asking(retry, _) => if retry then SentOnce(call) else SentAgain(w, call)
    case Replied(retry, status) =>
      && (if retry then SentOnce(call) else SentAgain(w, call)) && (status == Unauthorized ==> call.saw401)
      && call.answer == Some(status)
    case Waiting(r) =>
      && call.sends == 1 && call.saw401 && call.answer == Some(Unauthorized) && call.path == OtherPath
      && call.awaited == Some(r) && (r in w.settled || w.refreshPromise == Some(r))
    case Finished(result) =>
      if result == SessionExpired then
        && call.sends == 1 && call.saw401 && call.answer == Some(Unauthorized) && call.path == OtherPath
        && AwaitedSettled(w, call, false)
      else SentOrAgain(w, call) && EndsAsAnswered(call, result)
  }

  predicate SentOrAgain(w: World, call: Call) {
    SentOnce(call) || SentAgain(w, call)
  }

  /** A good answer gives its value, any other answer an error of that status, and a first 401 is not the end. */
  predicate EndsAsAnswered(call: Call, result: Result) {
    && (result == Value <==> call.answer == Some(Good))
    && (forall s :: result == Failure(s) <==> s != Good && call.answer == Some(s))
    && (call.sends == 1 && call.path == OtherPath ==> call.answer != Some(Unauthorized))
  }

  /** The refreshes started so far: rotated, failed, or not yet handled by the server. */
  function Unhandled(w: World): nat {
    var r := w.refreshPromise;
    if r.Some? && r.value in w.refreshes && w.refreshes[r.value].Sent? then 1 else 0
  }

  ghost predicate Counted(w: World) {
    |w.starters| == w.rotations + w.failures + Unhandled(w)
  }

  /** The call has not yet acted on its first answer. */
  predicate Untried(call: Call) {
    (call.state.Asking? || call.state.Replied?) && call.state.retry
  }

  ghost predicate Inv(w: World) {
    SingleFlight(w) && Started(w) && Counted(w) && forall c :: c in w.calls ==> CallOk(w, w.calls[c])
  }

  lemma KeepsSingleFlight(w: World, s: Step, v: World)
    requires SingleFlight(w) && Started(w) && Next(w, s) == Some(v)
    ensures SingleFlight(v) && v.version - v.rotations == w.version - w.rotations
  {
    if s.Receive? && StartsRefresh(w.calls[s.c]) {
      assert s.c !in w.starters;
    }
  }

  ghost predicate StarterOk(w: World, c: Id) {
    c in w.calls && w.calls[c].saw401 && !Untried(w.calls[c])
  }

  lemma StarterStays(w: World, s: Step, v: World, c: Id)
    requires StarterOk(w, c) && Next(w, s) == Some(v)
    ensures StarterOk(v, c)
  {
  }

  /** The call that starts a refresh has not started one before. */
  lemma NewStarter(w: World, c: Id, v: World)
    requires SingleFlight(w) && Started(w) && c in w.calls && StartsRefresh(w.calls[c]) && CallOk(w, w.calls[c])
    requires w.refreshPromise.None? && Next(w, Receive(c)) == Some(v)
    ensures c !in w.starters && v.starters == w.starters + [c] && StarterOk(v, c)
    ensures v.settled == w.settled && v.refreshPromise == Some(c)
  {
    assert c in w.starters ==> !Untried(w.calls[c]);
  }

  lemma OldStarters(w: World, s: Step, v: World)
    requires SingleFlight(w) && Started(w) && Next(w, s) == Some(v)
    requires !(s.Receive? && StartsRefresh(w.calls[s.c]) && w.refreshPromise.None?)
    ensures v.starters == w.starters
    ensures forall c :: c in v.settled || v.refreshPromise == Some(c) ==> c in v.starters
  {
  }

  lemma KeepsStarted(w: World, s: Step, v: World)
    requires SingleFlight(w) && Started(w) && Next(w, s) == Some(v)
    requires forall c :: c in w.calls ==> CallOk(w, w.calls[c])
    ensures Started(v)
  {
    if s.Receive? && StartsRefresh(w.calls[s.c]) && w.refreshPromise.None? {
      NewStarter(w, s.c, v);
    } else {
      OldStarters(w, s, v);
    }
    forall c | c in w.starters
      ensures StarterOk(v, c)
    {
      StarterStays(w, s, v, c);
    }
  }

  /** A step of the call itself. */
  predicate Of(s: Step, c: Id) {
    (s.Start? || s.Reply? || s.Receive? || s.Resume?) && s.c == c
  }

  lemma OwnStepKeepsCall(w: World, s: Step, v: World, c: Id)
    requires Next(w, s) == Some(v) && c in v.calls && Of(s, c)
    requires c in w.calls ==> CallOk(w, w.calls[c])
    ensures CallOk(v, v.calls[c])
  {
    assert v.settled == w.settled;
  }

  lemma OtherStepKeepsCall(w: World, s: Step, v: World, c: Id)
    requires SingleFlight(w) && Next(w, s) == Some(v) && c in v.calls && !Of(s, c)
    requires c in w.calls ==> CallOk(w, w.calls[c])
    ensures CallOk(v, v.calls[c])
  {
    SettledStays(w, s, v);
    assert c in w.calls && v.calls[c] == w.calls[c];
  }

  lemma KeepsCall(w: World, s: Step, v: World, c: Id)
    requires SingleFlight(w) && Next(w, s) == Some(v) && c in v.calls
    requires c in w.calls ==> CallOk(w, w.calls[c])
    ensures CallOk(v, v.calls[c])
  {
    if Of(s, c) {
      OwnStepKeepsCall(w, s, v, c);
    } else {
      OtherStepKeepsCall(w, s, v, c);
    }
  }

  lemma KeepsCalls(w: World, s: Step, v: World)
    requires SingleFlight(w) && (forall c :: c in w.calls ==> CallOk(w, w.calls[c])) && Next(w, s) == Some(v)
    ensures forall c :: c in v.calls ==> CallOk(v, v.calls[c])
  {
    forall c | c in v.calls
      ensures CallOk(v, v.calls[c])
    {
      KeepsCall(w, s, v, c);
    }
  }

  lemma KeepsCounted(w: World, s: Step, v: World)
    requires SingleFlight(w) && Counted(w) && Next(w, s) == Some(v)
    ensures Counted(v)
  {
  }

  lemma NextKeepsInv(w: World, s: Step, v: World)
    requires Inv(w) && Next(w, s) == Some(v)
    ensures Inv(v) && v.version - v.rotations == w.version - w.rotations
  {
    KeepsSingleFlight(w, s, v);
    KeepsStarted(w, s, v);
    KeepsCalls(w, s, v);
    KeepsCounted(w, s, v);
  }

  lemma {:induction false} RunKeepsInv(w: World, run: seq<Step>, v: World)
    requires Initial(w) && Execute(w, run) == Some(v)
    ensures Inv(v) && v.version == w.version + v.rotations
  {
    if run != [] {
      var before := Execute(w, run[..|run| - 1]).value;
      RunKeepsInv(w, run[..|run| - 1], before);
      NextKeepsInv(before, run[|run| - 1], v);
    }
  }

  ghost predicate Reached(w: World, run: seq<Step>, v: World) {
    Initial(w) && Execute(w, run) == Some(v)
  }

  /** At most one refresh is under way, it presents the server's version, and none was ever rejected. */
  lemma RefreshIsSingleFlight(w: World, run: seq<Step>, v: World)
    requires Reached(w, run, v)
    ensures |v.refreshes| <= 1 && v.rejections == 0
    ensures forall r :: r in v.refreshes && v.refreshes[r].Sent? ==> v.refreshes[r].ver == v.version
    ensures v.refreshPromise.None? <==> v.refreshes == map[]
    ensures v.refreshes == map[] ==> v.cookie == v.version
  {
    RunKeepsInv(w, run, v);
    assert |v.refreshes| == |v.refreshes.Keys|;
  }

  /** No call sends its own request more than twice. */
  lemma AtMostTwoSends(w: World, run: seq<Step>, v: World, c: Id)
    requires Reached(w, run, v) && c in v.calls
    ensures 1 <= v.calls[c].sends <= 2
    ensures v.calls[c].sends == 2 ==> v.calls[c].saw401 && AwaitedSettled(v, v.calls[c], true)
    ensures v.calls[c].state == Finished(SessionExpired) ==>
      v.calls[c].sends == 1 && AwaitedSettled(v, v.calls[c], false)
  {
    RunKeepsInv(w, run, v);
  }

  /** The answer on record is the one that came, and success on an ordinary path needs the current version. */
  lemma ReplyIsRecorded(w: World, c: Id, status: Status, v: World)
    requires Next(w, Reply(c, status)) == Some(v)
    ensures c in w.calls && w.calls[c].state.Asking? && c in v.calls
    ensures v.calls[c].answer == Some(status) && v.calls[c].state == Replied(w.calls[c].state.retry, status)
    ensures v.calls[c].sends == w.calls[c].sends && v.calls[c].path == w.calls[c].path
    ensures v.calls[c].saw401 <==> w.calls[c].saw401 || status == Unauthorized
    ensures status == Good && w.calls[c].path == OtherPath ==> w.calls[c].state.seen == w.version
  {
  }

  /**
   How a call ends. It returns the value exactly of a good answer; it fails with
   a status exactly when that was the last answer, it was not good, and no
   refresh it awaited failed; and a 401 to the first send of an ordinary path
   ends it only through a failed refresh.
   */
  lemma EndsByItsAnswer(w: World, run: seq<Step>, v: World, c: Id)
    requires Reached(w, run, v) && c in v.calls && v.calls[c].state.Finished?
    ensures var call, result := v.calls[c], v.calls[c].state.result;
      && (result == Value <==> call.answer == Some(Good))
      && (forall s :: result == Failure(s) <==>
            s != Good && call.answer == Some(s) && !AwaitedSettled(v, call, false))
      && (result == SessionExpired <==> AwaitedSettled(v, call, false))
      && (call.path == OtherPath && call.sends == 1 && call.answer == Some(Unauthorized) ==> result == SessionExpired)
  {
    RunKeepsInv(w, run, v);
    assert CallOk(v, v.calls[c]);
  }

  /** The version grows by one per rotation, and there are no more of them than calls that saw a 401. */
  lemma GrowthIsPaidFor(w: World, run: seq<Step>, v: World)
    requires Reached(w, run, v)
    ensures v.version == w.version + v.rotations
    ensures v.rotations + v.failures + Unhandled(v) == |v.starters|
    ensures v.rotations <= |set c: Id | c in v.calls && v.calls[c].saw401|
  {
    RunKeepsInv(w, run, v);
    var saw := set c: Id | c in v.calls && v.calls[c].saw401;
    NoDupSize(v.starters, saw);
    assert |v.starters| == v.rotations + v.failures + Unhandled(v);
  }

  /** The call has been sent a second time, with the cookies of version `seen`. */
  predicate IsRetried(call: Call, seen: nat) {
    match call.state
    case Asking(retry, ver) => !retry && ver == seen
    case Replied(retry, _) => !retry
    case Waiting(_) => false
    case Finished(_) => true
  }

  lemma RetriedStays(w: World, s: Step, v: World, c: Id, seen: nat)
    requires c in w.calls && IsRetried(w.calls[c], seen) && Next(w, s) == Some(v)
    ensures c in v.calls && IsRetried(v.calls[c], seen) && v.calls[c].path == w.calls[c].path
  {
  }

  /** Only a rotation moves the version, and every rotation does. */
  lemma VersionStep(w: World, s: Step, v: World)
    requires SingleFlight(w) && Next(w, s) == Some(v)
    ensures v.version == w.version + if s.Rotate? then 1 else 0
    ensures s.Rotate? ==> s.r in v.refreshes && v.refreshes[s.r] == Answered(true, v.version)
  {
  }

  lemma ResumeStep(w: World, c: Id, v: World)
    requires Next(w, Resume(c)) == Some(v)
    ensures c in w.calls && c in v.calls && IsRetried(v.calls[c], w.cookie) && v.calls[c].path == w.calls[c].path
  {
  }

  lemma {:induction false} RetriedSince(w: World, run: seq<Step>, n: nat, v: World, c: Id)
    requires Execute(w, run) == Some(v) && n < |run| && run[n] == Resume(c)
    ensures Execute(w, run[..n]).Some?
    ensures var mid := Execute(w, run[..n]).value;
      c in mid.calls && c in v.calls && IsRetried(v.calls[c], mid.cookie) && v.calls[c].path == mid.calls[c].path
  {
    var m := |run| - 1;
    var before := Execute(w, run[..m]).value;
    if n < m {
      assert run[..m][..n] == run[..n];
      RetriedSince(w, run[..m], n, before, c);
      RetriedStays(before, run[m], v, c, Execute(w, run[..n]).value.cookie);
    } else {
      ResumeStep(before, c, v);
    }
  }

  ghost predicate NoRotation(run: seq<Step>, n: nat) {
    forall j :: n <= j < |run| ==> !run[j].Rotate?
  }

  lemma NoRotationInFront(run: seq<Step>, n: nat)
    requires n < |run|
    ensures NoRotation(run, n) <==> NoRotation(run[..|run| - 1], n) && !run[|run| - 1].Rotate?
  {
    var front := run[..|run| - 1];
    assert forall j :: n <= j < |front| ==> front[j] == run[j];
  }

  lemma LastVersion(w: World, run: seq<Step>, v: World)
    requires Reached(w, run, v) && run != []
    ensures v.version == Execute(w, run[..|run| - 1]).value.version + if run[|run| - 1].Rotate? then 1 else 0
  {
    var before := Execute(w, run[..|run| - 1]).value;
    RunKeepsInv(w, run[..|run| - 1], before);
    VersionStep(before, run[|run| - 1], v);
  }

  lemma {:induction false} VersionSince(w: World, run: seq<Step>, n: nat, v: World)
    requires Reached(w, run, v) && n <= |run|
    ensures Execute(w, run[..n]).Some?
    ensures var mid := Execute(w, run[..n]).value;
      mid.version <= v.version && (v.version == mid.version <==> NoRotation(run, n))
  {
    if n < |run| {
      var front := run[..|run| - 1];
      var before := Execute(w, front).value;
      assert front[..n] == run[..n];
      VersionSince(w, front, n, before);
      LastVersion(w, run, v);
      NoRotationInFront(run, n);
    } else {
      assert run[..n] == run;
    }
  }

  /** The call is on its first send, with the cookies of version `seen` as long as it is unanswered. */
  predicate IsFirst(call: Call, seen: nat) {
    (call.state.Asking? && call.state.retry && call.state.seen == seen) || !call.state.Asking? || !call.state.retry
  }

  lemma FirstStays(w: World, s: Step, v: World, c: Id, seen: nat)
    requires c in w.calls && IsFirst(w.calls[c], seen) && Next(w, s) == Some(v)
    ensures c in v.calls && IsFirst(v.calls[c], seen) && v.calls[c].path == w.calls[c].path
  {
  }

  lemma StartStep(w: World, c: Id, path: Path, v: World)
    requires Next(w, Start(c, path)) == Some(v)
    ensures c !in w.calls && c in v.calls && v.calls[c].path == path && IsFirst(v.calls[c], w.cookie)
    ensures !v.calls[c].saw401 && v.calls[c].answer == None && v.calls[c].sends == 1
  {
  }

  lemma {:induction false} FirstSince(w: World, run: seq<Step>, n: nat, v: World, c: Id, path: Path)
    requires Execute(w, run) == Some(v) && n < |run| && run[n] == Start(c, path)
    ensures Execute(w, run[..n]).Some?
    ensures c in v.calls && IsFirst(v.calls[c], Execute(w, run[..n]).value.cookie) && v.calls[c].path == path
  {
    var m := |run| - 1;
    var before := Execute(w, run[..m]).value;
    if n < m {
      assert run[..m][..n] == run[..n];
      FirstSince(w, run[..m], n, before, c, path);
      FirstStays(before, run[m], v, c, Execute(w, run[..n]).value.cookie);
    } else {
      StartStep(before, c, path, v);
    }
  }

  /**
   When the first send is served. While it is unanswered, the server can answer
   it with success exactly when no refresh had gone through on the server, its
   cookies still under way, as the call was made, and none has gone through since.
   */
  lemma FirstServedIff(w: World, run: seq<Step>, n: nat, v: World, c: Id)
    requires Reached(w, run, v) && n < |run| && run[n] == Start(c, OtherPath)
    requires c in v.calls && v.calls[c].state.Asking? && v.calls[c].state.retry
    ensures Execute(w, run[..n]).Some?
    ensures var mid := Execute(w, run[..n]).value;
      MayReply(v, v.calls[c], Good) <==>
        && (forall r :: r in mid.refreshes && mid.refreshes[r].Answered? ==> !mid.refreshes[r].ok)
        && NoRotation(run, n)
  {
    FirstSince(w, run, n, v, c, OtherPath);
    VersionSince(w, run, n, v);
    var mid := Execute(w, run[..n]).value;
    RunKeepsInv(w, run[..n], mid);
    CookieBehind(mid);
  }

  /** The refresh went through exactly when the server rotated for it, and failed exactly when it was lost. */
  ghost predicate Went(run: seq<Step>, r: Id, ok: bool) {
    (ok <==> Rotate(r) in run) && (!ok <==> Fail(r) in run)
  }

  /** Outcome of the refresh that call `r` started, if any. */
  ghost predicate OutcomeAt(run: seq<Step>, w: World, r: Id) {
    if r in w.refreshes then
      match w.refreshes[r]
      case Sent(_) => Rotate(r) !in run && Fail(r) !in run
      case Answered(ok, _) => Went(run, r, ok)
      case Landed(ok) => Went(run, r, ok)
    else if r in w.settled then Went(run, r, w.settled[r])
    else Rotate(r) !in run && Fail(r) !in run
  }

  lemma OutcomeStep(run: seq<Step>, w: World, s: Step, v: World, r: Id)
    requires Inv(w) && Next(w, s) == Some(v) && OutcomeAt(run, w, r)
    ensures OutcomeAt(run + [s], v, r)
  {
    if s == Receive(r) && StartsRefresh(w.calls[r]) && w.refreshPromise.None? {
      NewStarter(w, r, v);
    }
    assert Rotate(r) in run + [s] <==> Rotate(r) in run || s == Rotate(r);
    assert Fail(r) in run + [s] <==> Fail(r) in run || s == Fail(r);
  }

  lemma {:induction false} Outcomes(w: World, run: seq<Step>, v: World, r: Id)
    requires Reached(w, run, v)
    ensures OutcomeAt(run, v, r)
  {
    if run != [] {
      var front, s := run[..|run| - 1], run[|run| - 1];
      var before := Execute(w, front).value;
      RunKeepsInv(w, front, before);
      Outcomes(w, front, before, r);
      OutcomeStep(front, before, s, v, r);
      assert run == front + [s];
    }
  }

  /**
   Whoever waits for the shared promise learns the truth: it settles with
   success exactly when the server rotated for that refresh, and otherwise the
   refresh was lost. So a call is sent again only after a rotation, and a
   session expires only through a lost refresh.
   */
  lemma PromiseTellsTheTruth(w: World, run: seq<Step>, v: World, r: Id, c: Id)
    requires Reached(w, run, v)
    ensures r in v.settled ==> (v.settled[r] <==> Rotate(r) in run) && (!v.settled[r] <==> Fail(r) in run)
    ensures c in v.calls && v.calls[c].sends == 2 ==>
      v.calls[c].awaited.Some? && Rotate(v.calls[c].awaited.value) in run
    ensures c in v.calls && v.calls[c].state == Finished(SessionExpired) ==>
      v.calls[c].awaited.Some? && Fail(v.calls[c].awaited.value) in run
  {
    Outcomes(w, run, v, r);
    RunKeepsInv(w, run, v);
    if r in v.settled {
      assert r !in v.refreshes;
    }
    if c in v.calls && v.calls[c].awaited.Some? {
      Outcomes(w, run, v, v.calls[c].awaited.value);
      assert CallOk(v, v.calls[c]);
    }
  }

  /**
   When a retry is served. The call was sent again at step `n` and has not been
   answered yet; the server can answer it with success exactly when no other
   refresh had gone through on the server, its cookies still under way, as the
   retry was sent, and none has gone through since.
   */
  lemma RetryServedIff(w: World, run: seq<Step>, n: nat, v: World, c: Id)
    requires Reached(w, run, v) && n < |run| && run[n] == Resume(c)
    requires c in v.calls && v.calls[c].state.Asking? && v.calls[c].path == OtherPath
    ensures Execute(w, run[..n]).Some?
    ensures var mid := Execute(w, run[..n]).value;
      MayReply(v, v.calls[c], Good) <==>
        && (forall r :: r in mid.refreshes && mid.refreshes[r].Answered? ==> !mid.refreshes[r].ok)
        && NoRotation(run, n)
  {
    RetriedSince(w, run, n, v, c);
    VersionSince(w, run, n, v);
    var mid := Execute(w, run[..n]).value;
    RunKeepsInv(w, run[..n], mid);
    CookieBehind(mid);
  }

  lemma CookieBehind(w: World)
    requires SingleFlight(w)
    ensures w.cookie <= w.version
    ensures w.cookie == w.version <==> forall r :: r in w.refreshes && w.refreshes[r].Answered? ==> !w.refreshes[r].ok
  {
    if w.refreshPromise.Some? {
      assert w.refreshPromise.value in w.refreshes;
    }
  }

  lemma Extend(w: World, run: seq<Step>, v: World, s: Step)
    requires Execute(w, run) == Some(v)
    ensures Execute(w, run + [s]) == Next(v, s)
  {
    assert (run + [s])[..|run|] == run;
  }

  /** `apiFetch` as written: one call's control flow, with everything else free to happen at each `await`. */
  class ApiClient {
    var world: World
    ghost const start: World
    ghost var run: seq<Step>

    ghost predicate Valid()
      reads this
    {
      Reached(start, run, world)
    }

    constructor (w: World)
      requires Initial(w)
      ensures Valid() && world == w && run == []
    {
      world, start, run := w, w, [];
    }

    method Do(s: Step)
      requires Valid() && Next(world, s).Some?
      modifies this
      ensures Valid() && run == old(run) + [s] && Some(world) == Next(old(world), s)
    {
      Extend(start, run, world, s);
      world := Next(world, s).value;
      run := run + [s];
    }

    /** Other calls of the tab, the network and the server go on; call `c` only gets its answer. */
    method Await(c: Id)
      requires Valid() && c in world.calls
      modifies this
      ensures Valid() && old(run) <= run
      ensures c in world.calls && OnlyAnswered(old(world.calls[c]), world.calls[c])
      ensures SettledStay(old(world), world)
    {
      var budget: nat := *;
      while budget > 0
        invariant Valid() && old(run) <= run
        invariant c in world.calls && OnlyAnswered(old(world.calls[c]), world.calls[c])
        invariant SettledStay(old(world), world)
      {
        var s: Step := *;
        if Next(world, s).Some? && s != Receive(c) && s != Resume(c) {
          RunKeepsInv(start, run, world);
          OthersOnlyAnswer(world, s, c);
          Do(s);
        }
        budget := budget - 1;
      }
    }

    /** One step of somebody else. */
    method Other(s: Step, c: Id)
      requires Valid() && c in world.calls && Next(world, s).Some? && s != Receive(c) && s != Resume(c)
      modifies this
      ensures Valid() && run == old(run) + [s] && Some(world) == Next(old(world), s)
      ensures c in world.calls && OnlyAnswered(old(world.calls[c]), world.calls[c]) && SettledStay(old(world), world)
    {
      RunKeepsInv(start, run, world);
      OthersOnlyAnswer(world, s, c);
      Do(s);
    }

    /** `await fetch(...)`: whatever else happens, in the end there is an answer. */
    method AwaitReply(c: Id) returns (status: Status)
      requires Valid() && c in world.calls && world.calls[c].state.Asking?
      modifies this
      ensures Valid() && old(run) <= run && c in world.calls
      ensures world.calls[c].state == Replied(old(world.calls[c]).state.retry, status)
      ensures world.calls[c].path == old(world.calls[c]).path && world.calls[c].sends == old(world.calls[c]).sends
      ensures SettledStay(old(world), world)
    {
      Await(c);
      if world.calls[c].state.Asking? {
        status := *;
        if !MayReply(world, world.calls[c], status) {
          status := Unauthorized;
        }
        Other(Reply(c, status), c);
      }
      status := world.calls[c].state.status;
    }

    /** The next thing that happens to refresh `r`. */
    method Push(r: Id, c: Id)
      requires Valid() && c in world.calls && world.calls[c].state.Waiting? && r in world.refreshes
      modifies this
      ensures Valid() && old(run) <= run && c in world.calls && world.calls[c] == old(world.calls[c])
      ensures r in world.settled || (r in world.refreshes && ToGo(world.refreshes[r]) < ToGo(old(world.refreshes[r])))
      ensures SettledStay(old(world), world)
    {
      match world.refreshes[r]
      case Sent(_) =>
        var lost: bool := *;
        Other(if lost then Fail(r) else Rotate(r), c);
      case Answered(_, _) => Other(Land(r), c);
      case Landed(_) => Other(Settle(r), c);
    }

    /** `await refreshPromise`: the refresh is handled or fails, its answer lands, and the promise settles. */
    method AwaitRefresh(c: Id) returns (ok: bool)
      requires Valid() && c in world.calls && world.calls[c].state.Waiting?
      modifies this
      ensures Valid() && old(run) <= run && c in world.calls && world.calls[c] == old(world.calls[c])
      ensures var r := world.calls[c].state.refresh; r in world.settled && world.settled[r] == ok
      ensures SettledStay(old(world), world)
    {
      Await(c);
      var r := world.calls[c].state.refresh;
      WaitsForShared(start, run, world, c);
      while r !in world.settled
        invariant Valid() && old(run) <= run && c in world.calls && world.calls[c] == old(world.calls[c])
        invariant (r in world.settled || r in world.refreshes) && SettledStay(old(world), world)
        decreases if r in world.settled then 0 else ToGo(world.refreshes[r])
      {
        Push(r, c);
        WaitsForShared(start, run, world, c);
      }
      ok := world.settled[r];
    }

    /** Sends once, and a second time only after a refresh that went through; a failed refresh ends the session. */
    method ApiFetch(c: Id, path: Path) returns (result: Result)
      requires Valid() && c !in world.calls
      modifies this
      ensures Valid() && old(run) + [Start(c, path)] <= run && c in world.calls
      ensures world.calls[c].path == path && world.calls[c].state == Finished(result)
      ensures 1 <= world.calls[c].sends <= 2
      ensures world.calls[c].sends == 2 ==> path == OtherPath && AwaitedSettled(world, world.calls[c], true)
      ensures result == SessionExpired <==> world.calls[c].sends == 1 && AwaitedSettled(world, world.calls[c], false)
      ensures result == SessionExpired ==> path == OtherPath && world.calls[c].answer == Some(Unauthorized)
      ensures result == Value <==> world.calls[c].answer == Some(Good)
      ensures forall s :: result == Failure(s) <==>
        s != Good && world.calls[c].answer == Some(s) && !AwaitedSettled(world, world.calls[c], false)
      ensures path == OtherPath && world.calls[c].sends == 1 && world.calls[c].answer == Some(Unauthorized) ==>
        result == SessionExpired
    {
      Do(Start(c, path));
      result := AfterSend(c, path, true);
      RunKeepsInv(start, run, world);
      assert CallOk(world, world.calls[c]);
      EndsByItsAnswer(start, run, world, c);
    }

    /** `apiFetch` from the point where its request is under way. */
    method AfterSend(c: Id, path: Path, retry: bool) returns (result: Result)
      requires Valid() && c in world.calls && world.calls[c].path == path
      requires world.calls[c].state.Asking? && world.calls[c].state.retry == retry
      modifies this
      ensures Valid() && old(run) <= run && c in world.calls
      ensures world.calls[c].path == path && world.calls[c].state == Finished(result)
      ensures world.calls[c].sends == old(world.calls[c].sends) || world.calls[c].sends == old(world.calls[c].sends) + 1
      ensures world.calls[c].sends > old(world.calls[c].sends) ==> retry && path == OtherPath
      ensures result == SessionExpired ==> retry && path == OtherPath
      decreases retry
    {
      var status := AwaitReply(c);

      if status == Unauthorized && retry && path != LoginPath && path != RefreshPath {
        Do(Receive(c));
        var ok := AwaitRefresh(c);
        Do(Resume(c));
        if !ok {
          return SessionExpired;
        }
        result := AfterSend(c, path, false);
      } else {
        Do(Receive(c));
        return ResultOf(status);
      }
    }
  }

  /** A waiting call waits for a promise that has settled or for the refresh under way. */
  lemma WaitsForShared(start: World, run: seq<Step>, w: World, c: Id)
    requires Reached(start, run, w) && c in w.calls && w.calls[c].state.Waiting?
    ensures w.calls[c].state.refresh in w.settled || w.calls[c].state.refresh in w.refreshes
  {
    RunKeepsInv(start, run, w);
    assert CallOk(w, w.calls[c]);
  }

  /** Steps until the promise of the refresh settles. */
  function ToGo(f: Refresh): nat {
    match f
    case Sent(_) => 3
    case Answered(_, _) => 2
    case Landed(_) => 1
  }

  predicate SettledStay(w: World, v: World) {
    forall r :: r in w.settled ==> r in v.settled && v.settled[r] == w.settled[r]
  }

  predicate OnlyAnswered(before: Call, after: Call) {
    || after == before
    || (before.state.Asking? && after.state.Replied? && after.state.retry == before.state.retry
        && after == before.(state := after.state, saw401 := after.saw401, answer := after.answer))
  }

  lemma SettledStays(w: World, s: Step, v: World)
    requires SingleFlight(w) && Next(w, s) == Some(v)
    ensures SettledStay(w, v)
  {
  }

  lemma OthersOnlyAnswer(w: World, s: Step, c: Id)
    requires Inv(w) && c in w.calls && Next(w, s).Some? && s != Receive(c) && s != Resume(c)
    ensures var v := Next(w, s).value;
            && c in v.calls && OnlyAnswered(w.calls[c], v.calls[c])
            && SettledStay(w, v)
  {
    SettledStays(w, s, Next(w, s).value);
  }

  lemma Go(w: World, run: seq<Step>, v: World, s: Step, v': World) returns (run': seq<Step>)
    requires Execute(w, run) == Some(v) && Next(v, s) == Some(v')
    ensures run' == run + [s] && Execute(w, run') == Some(v')
  {
    run' := run + [s];
    Extend(w, run, v, s);
  }

  /** Calls 1 and 2 of a tab, and nothing else. */
  function Two(a: Call, b: Call): map<Id, Call> {
    map[1 := a, 2 := b]
  }

  lemma TwoUpdate(a: Call, b: Call, x: Call)
    ensures Two(a, b)[1 := x] == Two(x, b) && Two(a, b)[2 := x] == Two(a, x)
  {
  }

  lemma OneUpdate(r: Id, x: Refresh, y: Refresh)
    ensures map[r := x][r := y] == map[r := y] && map[r := x] - {r} == map[]
  {
  }

  /** Both calls are sent and both are answered with 401. */
  lemma TwoUnauthorized() returns (w: World, run: seq<Step>, v: World)
    ensures Initial(w) && Execute(w, run) == Some(v)
    ensures var c := Call(OtherPath, Replied(true, Unauthorized), 1, true, None, Some(Unauthorized));
            v == World(0, 0, None, map[], map[], Two(c, c), 0, 0, 0, [])
  {
    w := World(0, 0, None, map[], map[], map[], 0, 0, 0, []);
    var a := Call(OtherPath, Asking(true, 0), 1, false, None, None);
    var c := Call(OtherPath, Replied(true, Unauthorized), 1, true, None, Some(Unauthorized));
    run := Go(w, [], w, Start(1, OtherPath), w.(calls := map[1 := a]));
    run := Go(w, run, w.(calls := map[1 := a]), Start(2, OtherPath), w.(calls := Two(a, a)));
    TwoUpdate(a, a, c);
    run := Go(w, run, w.(calls := Two(a, a)), Reply(1, Unauthorized), w.(calls := Two(c, a)));
    TwoUpdate(c, a, c);
    run := Go(w, run, w.(calls := Two(c, a)), Reply(2, Unauthorized), w.(calls := Two(c, c)));
    v := w.(calls := Two(c, c));
  }

  lemma RotateOne(v: World, r: Id)
    requires v.refreshes == map[r := Sent(v.version)]
    ensures Next(v, Rotate(r)) == Some(v.(version := v.version + 1, rotations := v.rotations + 1,
                                          refreshes := map[r := Answered(true, v.version + 1)]))
  {
    OneUpdate(r, Sent(v.version), Answered(true, v.version + 1));
  }

  lemma LandOne(v: World, r: Id, n: nat)
    requires v.refreshes == map[r := Answered(true, n)]
    ensures Next(v, Land(r)) == Some(v.(cookie := n, refreshes := map[r := Landed(true)]))
  {
    OneUpdate(r, Answered(true, n), Landed(true));
  }

  lemma SettleOne(v: World, r: Id)
    requires v.refreshes == map[r := Landed(true)]
    ensures Next(v, Settle(r)) == Some(v.(refreshPromise := None, refreshes := map[], settled := v.settled[r := true]))
  {
    OneUpdate(r, Landed(true), Landed(true));
  }

  /** A started refresh goes through without a fault. */
  lemma RefreshRuns(w: World, run: seq<Step>, v: World, r: Id) returns (run': seq<Step>, v': World)
    requires Execute(w, run) == Some(v) && v.refreshes == map[r := Sent(v.version)] && v.refreshPromise == Some(r)
    ensures v' == v.(version := v.version + 1, cookie := v.version + 1, rotations := v.rotations + 1,
                     refreshPromise := None, refreshes := map[], settled := v.settled[r := true])
    ensures Execute(w, run') == Some(v')
  {
    RotateOne(v, r);
    var v1 := Next(v, Rotate(r)).value;
    run' := Go(w, run, v, Rotate(r), v1);
    LandOne(v1, r, v.version + 1);
    var v2 := Next(v1, Land(r)).value;
    run' := Go(w, run', v1, Land(r), v2);
    SettleOne(v2, r);
    v' := Next(v2, Settle(r)).value;
    run' := Go(w, run', v2, Settle(r), v');
  }

  /**
   Single flight does not make every retry succeed. Two calls see a 401 for the
   same stale cookie; the second one learns of it only after the first one's
   refresh is over and so starts another, which overtakes the first one's retry.
   The session is good and nothing failed, yet the first call ends with a 401.
   */
  lemma RetryCanBeOvertaken() returns (w: World, run: seq<Step>, v: World)
    ensures Reached(w, run, v) && v.failures == 0 && v.rejections == 0 && v.cookie == v.version
    ensures 1 in v.calls && v.calls[1].state == Finished(Failure(Unauthorized))
  {
    w, run, v := TwoUnauthorized();
    var c := Call(OtherPath, Replied(true, Unauthorized), 1, true, None, Some(Unauthorized));
    var a1 := WaitFor(c, 1);
    TwoUpdate(c, c, a1);
    var v1 := v.(calls := Two(a1, c), refreshPromise := Some(1), refreshes := map[1 := Sent(0)], starters := [1]);
    assert [] + [1] == [1] && v.refreshes[1 := Sent(0)] == v1.refreshes;
    run := Go(w, run, v, Receive(1), v1);
    run, v := RefreshRuns(w, run, v1, 1);

    var a2 := a1.(state := Asking(false, 1), sends := 2);
    TwoUpdate(a1, c, a2);
    var v2 := v.(calls := Two(a2, c));
    run := Go(w, run, v, Resume(1), v2);
    var b1 := WaitFor(c, 2);
    TwoUpdate(a2, c, b1);
    var v3 := v2.(calls := Two(a2, b1), refreshPromise := Some(2), refreshes := map[2 := Sent(1)], starters := [1, 2]);
    assert [1] + [2] == [1, 2] && v2.refreshes[2 := Sent(1)] == v3.refreshes;
    run := Go(w, run, v2, Receive(2), v3);
    run, v := RefreshRuns(w, run, v3, 2);
    run, v := RetryTurnedAway(w, run, v, a2, b1);
  }

  /** The overtaken retry is answered with 401 and gives up. */
  lemma RetryTurnedAway(w: World, run: seq<Step>, v: World, a: Call, b: Call) returns (run': seq<Step>, v': World)
    requires Execute(w, run) == Some(v) && v.calls == Two(a, b)
    requires a == Call(OtherPath, Asking(false, 1), 2, true, Some(1), Some(Unauthorized))
    ensures Execute(w, run') == Some(v')
    ensures v' == v.(calls := Two(a.(state := Finished(Failure(Unauthorized))), b))
  {
    var a1, a2 := a.(state := Replied(false, Unauthorized)), a.(state := Finished(Failure(Unauthorized)));
    TwoUpdate(a, b, a1);
    run' := Go(w, run, v, Reply(1, Unauthorized), v.(calls := Two(a1, b)));
    TwoUpdate(a1, b, a2);
    v' := v.(calls := Two(a2, b));
    run' := Go(w, run', v.(calls := Two(a1, b)), Receive(1), v');
  }
}
