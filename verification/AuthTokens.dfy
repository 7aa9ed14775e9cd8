/**
 Access and refresh tokens: each carries the user's `tokenVersion` at signing
 time, and whatever ends a session only bumps that number. Signing, and the
 lookups that come before it, are steps of their own, so a list of steps is one
 interleaving of logins, refreshes, logouts and password resets.
 */
module AuthTokens {
  import opened Prelude

  datatype TokenType = AccessToken | RefreshToken
  datatype Token = Token(sub: Id, typ: TokenType, ver: nat)
  /** A login or refresh that has settled on a version and is about to sign it. */
  datatype Signing = Signing(sub: Id, ver: nat)

  datatype ResetRow = ResetRow(userId: Id, expiresAt: int)

  const RESET_TOKEN_TTL_MS := 60 * 60 * 1000

  datatype Server = Server(
    versions: map<Id, nat>,           // tokenVersion of every user
    resetRows: map<Id, ResetRow>,     // password_reset_tokens by token hash
    signing: map<Id, Signing>,        // requests between lookup and signing
    resetting: map<Id, Id>,           // reset requests between lookup and transaction: request -> user
    issued: set<Token>, hashes: set<Id>, rotations: seq<Signing>)   // history

  datatype Step =
    | Register(u: Id)
    | LoginLookUp(c: Id, u: Id)       // password checked, version read
    | Sign(c: Id)
    | Refresh(c: Id, token: Token)    // the guarded `updateMany`
    | Logout(u: Id)
    | ForgotDelete(u: Id)
    | ForgotCreate(u: Id, hash: Id, expiresAt: int)
    | ResetLookUp(c: Id, hash: Id, now: int)
    | ResetCommit(c: Id)

  /** The update `where: { id: sub, tokenVersion: ver }` finds its row. */
  predicate CanRotate(s: Server, token: Token) {
    token.typ == RefreshToken && token.sub in s.versions && s.versions[token.sub] == token.ver
  }

  /** `JwtStrategy.validate`, for a token whose signature is good. */
  predicate Validates(s: Server, token: Token) {
    token.typ == AccessToken && token.sub in s.versions && s.versions[token.sub] == token.ver
  }

  /** The row is there and `expiresAt < now` does not hold. */
  predicate MayReset(s: Server, hash: Id, now: int) {
    hash in s.resetRows && now <= s.resetRows[hash].expiresAt
  }

  function WithoutRowsOf(rows: map<Id, ResetRow>, u: Id): map<Id, ResetRow> {
    map h | h in rows && rows[h].userId != u :: rows[h]
  }

  function Bump(s: Server, u: Id): Server
    requires u in s.versions
  {
    s.(versions := s.versions[u := s.versions[u] + 1])
  }

  function Next(s: Server, step: Step): Option<Server> {
    match step
    case Register(u) =>
      if u in s.versions then None else Some(s.(versions := s.versions[u := 0]))
    case LoginLookUp(c, u) =>
      if c in s.signing || u !in s.versions then None
      else Some(s.(signing := s.signing[c := Signing(u, s.versions[u])]))
    case Sign(c) =>
      if c !in s.signing then None
      else
        var g := s.signing[c];
        Some(s.(signing := s.signing - {c},
                issued := s.issued + {Token(g.sub, AccessToken, g.ver), Token(g.sub, RefreshToken, g.ver)}))
    case Refresh(c, token) =>
      if c in s.signing || token !in s.issued then None
      else if CanRotate(s, token) then
        Some(Bump(s, token.sub).(signing := s.signing[c := Signing(token.sub, token.ver + 1)],
                                 rotations := s.rotations + [Signing(token.sub, token.ver)]))
      else Some(s)
    case Logout(u) =>
      if u !in s.versions then None else Some(Bump(s, u))
    case ForgotDelete(u) =>
      Some(s.(resetRows := WithoutRowsOf(s.resetRows, u)))
    case ForgotCreate(u, hash, expiresAt) =>
      if u !in s.versions || hash in s.hashes then None
      else Some(s.(resetRows := s.resetRows[hash := ResetRow(u, expiresAt)], hashes := s.hashes + {hash}))
    case ResetLookUp(c, hash, now) =>
      if c in s.resetting || !MayReset(s, hash, now) then None
      else Some(s.(resetting := s.resetting[c := s.resetRows[hash].userId]))
    case ResetCommit(c) =>
      if c !in s.resetting || s.resetting[c] !in s.versions then None
      else
        var u := s.resetting[c];
        Some(Bump(s, u).(resetRows := WithoutRowsOf(s.resetRows, u),
                         resetting := s.resetting - {c}))
  }

  ghost function Execute(s: Server, run: seq<Step>): Option<Server> {
    if run == [] then Some(s)
    else
      var before := Execute(s, run[..|run| - 1]);
      if before.None? then None else Next(before.value, run[|run| - 1])
  }

  ghost predicate Initial(s: Server) {
    && s.resetRows == map[] && s.signing == map[] && s.resetting == map[]
    && s.issued == {} && s.hashes == {} && s.rotations == []
  }

  ghost predicate Reached(s: Server, run: seq<Step>, v: Server) {
    Initial(s) && Execute(s, run) == Some(v)
  }

  ghost predicate NotAhead(s: Server) {
    && (forall t :: t in s.issued ==> t.sub in s.versions && t.ver <= s.versions[t.sub])
    && (forall c :: c in s.signing ==>
          s.signing[c].sub in s.versions && s.signing[c].ver <= s.versions[s.signing[c].sub])
  }

  ghost predicate RotatedOnce(s: Server) {
    && (forall g :: g in s.rotations ==> g.sub in s.versions && g.ver < s.versions[g.sub])
    && (forall g :: g in s.rotations ==> Token(g.sub, RefreshToken, g.ver) in s.issued)
    && NoDup(s.rotations)
  }

  /** Reset rows belong to users. */
  ghost predicate Owned(s: Server) {
    && (forall h :: h in s.resetRows ==> s.resetRows[h].userId in s.versions)
    && (forall c :: c in s.resetting ==> s.resetting[c] in s.versions)
  }

  ghost predicate Inv(s: Server) {
    NotAhead(s) && RotatedOnce(s) && Owned(s) && s.resetRows.Keys <= s.hashes
  }

  lemma StepGrows(s: Server, step: Step, v: Server)
    requires Next(s, step) == Some(v)
    ensures forall u :: u in s.versions ==> u in v.versions && s.versions[u] <= v.versions[u]
    ensures s.issued <= v.issued && s.hashes <= v.hashes
    ensures s.resetRows.Keys <= s.hashes ==> v.resetRows.Keys <= v.hashes
    ensures forall h :: h in v.resetRows && h !in s.resetRows ==> h !in s.hashes
  {
  }

  lemma KeepsNotAhead(s: Server, step: Step, v: Server)
    requires NotAhead(s) && Next(s, step) == Some(v)
    ensures NotAhead(v)
  {
    StepGrows(s, step, v);
  }

  lemma KeepsRotatedOnce(s: Server, step: Step, v: Server)
    requires RotatedOnce(s) && Next(s, step) == Some(v)
    ensures RotatedOnce(v)
  {
    if step.Refresh? && CanRotate(s, step.token) {
      assert Signing(step.token.sub, step.token.ver) !in s.rotations;
    } else {
      StepGrows(s, step, v);
      assert v.rotations == s.rotations;
    }
  }

  lemma KeepsOwned(s: Server, step: Step, v: Server)
    requires Owned(s) && Next(s, step) == Some(v)
    ensures Owned(v)
  {
  }

  lemma NextKeepsInv(s: Server, step: Step, v: Server)
    requires Inv(s) && Next(s, step) == Some(v)
    ensures Inv(v)
  {
    StepGrows(s, step, v);
    KeepsNotAhead(s, step, v);
    KeepsRotatedOnce(s, step, v);
    KeepsOwned(s, step, v);
  }

  lemma {:induction false} RunKeepsInv(s: Server, run: seq<Step>, v: Server)
    requires Reached(s, run, v)
    ensures Inv(v)
  {
    if run != [] {
      var before := Execute(s, run[..|run| - 1]).value;
      RunKeepsInv(s, run[..|run| - 1], before);
      NextKeepsInv(before, run[|run| - 1], v);
    }
  }

  /** A user's token version never goes down, at whatever two points of a run it is read. */
  lemma {:induction false} VersionsOnlyGrow(s: Server, run: seq<Step>, n: nat, v: Server)
    requires Reached(s, run, v) && n <= |run|
    ensures Execute(s, run[..n]).Some?
    ensures var mid := Execute(s, run[..n]).value;
            && (forall u :: u in mid.versions ==> u in v.versions && mid.versions[u] <= v.versions[u])
            && mid.hashes <= v.hashes
  {
    if n < |run| {
      var front := run[..|run| - 1];
      var before := Execute(s, front).value;
      assert front[..n] == run[..n];
      VersionsOnlyGrow(s, front, n, before);
      StepGrows(before, run[|run| - 1], v);
    } else {
      assert run[..n] == run;
    }
  }

  /** No token is ahead of its user's version, whether issued or still being signed. */
  lemma TokensAreNotAhead(s: Server, run: seq<Step>, v: Server)
    requires Reached(s, run, v)
    ensures forall t :: t in v.issued ==> t.sub in v.versions && t.ver <= v.versions[t.sub]
    ensures forall c :: c in v.signing ==>
      v.signing[c].sub in v.versions && v.signing[c].ver <= v.versions[v.signing[c].sub]
  {
    RunKeepsInv(s, run, v);
  }

  /** A refresh token works once: no user has two successful refreshes for the same version. */
  lemma OneRefreshPerVersion(s: Server, run: seq<Step>, v: Server, token: Token)
    requires Reached(s, run, v)
    ensures NoDup(v.rotations)
    ensures forall g :: g in v.rotations ==> Token(g.sub, RefreshToken, g.ver) in v.issued
    ensures Signing(token.sub, token.ver) in v.rotations ==> !CanRotate(v, token) && !Validates(v, token)
  {
    RunKeepsInv(s, run, v);
  }

  /**
   A logout or password reset at step `n` is final: every token issued before
   it, and every token a login or refresh had under way at that moment, is
   rejected by `validate` and by `refresh` at every later point of the run.
   */
  lemma RevokedForever(s: Server, run: seq<Step>, n: nat, v: Server, token: Token)
    requires Reached(s, run, v) && n < |run|
    ensures Execute(s, run[..n]).Some?
    ensures var mid := Execute(s, run[..n]).value;
            (run[n] == Logout(token.sub)
             || (run[n].ResetCommit? && run[n].c in mid.resetting && mid.resetting[run[n].c] == token.sub))
            && (token in mid.issued || exists c :: c in mid.signing && mid.signing[c] == Signing(token.sub, token.ver))
            ==> !Validates(v, token) && !CanRotate(v, token)
  {
    VersionsOnlyGrow(s, run, n, v);
    VersionsOnlyGrow(s, run, n + 1, v);
    var mid := Execute(s, run[..n]).value;
    var after := Execute(s, run[..n + 1]).value;
    assert run[..n + 1][..n] == run[..n];
    RunKeepsInv(s, run[..n], mid);
    VersionStep(mid, run[n], after, token.sub);
  }

  /** The step moves the user's version: a logout, a committed reset, or a refresh that goes through. */
  predicate Moves(s: Server, step: Step, u: Id) {
    match step
    case Logout(x) => x == u
    case ResetCommit(c) => c in s.resetting && s.resetting[c] == u
    case Refresh(_, t) => t.sub == u && t.typ == RefreshToken && u in s.versions && s.versions[u] == t.ver
    case _ => false
  }

  /** Each of these adds exactly one, nothing else touches a version, and a new user's is 0. */
  lemma VersionStep(s: Server, step: Step, v: Server, u: Id)
    requires Next(s, step) == Some(v)
    ensures u in v.versions <==> u in s.versions || step == Register(u)
    ensures u in s.versions ==> v.versions[u] == s.versions[u] + if Moves(s, step, u) then 1 else 0
    ensures step == Register(u) ==> u !in s.versions && v.versions[u] == 0
  {
  }

  /** From step `n` on, nothing moved the user's version. */
  ghost predicate Undisturbed(s: Server, run: seq<Step>, n: nat, u: Id) {
    forall j :: n <= j < |run| ==> !MovesAt(s, run, j, u)
  }

  ghost predicate MovesAt(s: Server, run: seq<Step>, j: nat, u: Id)
    requires j < |run|
  {
    Execute(s, run[..j]).Some? && Moves(Execute(s, run[..j]).value, run[j], u)
  }

  lemma UndisturbedFront(s: Server, run: seq<Step>, n: nat, u: Id)
    requires n < |run|
    ensures Undisturbed(s, run, n, u) <==>
      Undisturbed(s, run[..|run| - 1], n, u) && !MovesAt(s, run, |run| - 1, u)
  {
    var front := run[..|run| - 1];
    forall j | n <= j < |front|
      ensures MovesAt(s, front, j, u) == MovesAt(s, run, j, u)
    {
      assert front[..j] == run[..j];
    }
  }

  lemma {:induction false} VersionSince(s: Server, run: seq<Step>, n: nat, v: Server, u: Id)
    requires Reached(s, run, v) && n <= |run|
    ensures Execute(s, run[..n]).Some?
    ensures var mid := Execute(s, run[..n]).value;
      u in mid.versions ==>
        u in v.versions && mid.versions[u] <= v.versions[u]
        && (v.versions[u] == mid.versions[u] <==> Undisturbed(s, run, n, u))
  {
    if n < |run| {
      var front := run[..|run| - 1];
      var before := Execute(s, front).value;
      assert front[..n] == run[..n];
      VersionSince(s, front, n, before, u);
      UndisturbedFront(s, run, n, u);
      if u in Execute(s, run[..n]).value.versions {
        VersionStep(before, run[|run| - 1], v, u);
      }
    } else {
      assert run[..n] == run;
    }
  }

  /** A token of the version stored at step `n` is accepted later exactly when nothing moved that version since. */
  lemma UsableUntilMoved(s: Server, run: seq<Step>, n: nat, v: Server, u: Id, ver: nat)
    requires Reached(s, run, v) && n <= |run|
    ensures Execute(s, run[..n]).Some?
    ensures var mid := Execute(s, run[..n]).value;
      u in mid.versions && mid.versions[u] == ver ==>
        && (Validates(v, Token(u, AccessToken, ver)) <==> Undisturbed(s, run, n, u))
        && (CanRotate(v, Token(u, RefreshToken, ver)) <==> Undisturbed(s, run, n, u))
  {
    VersionSince(s, run, n, v, u);
  }

  /** A login, and a refresh that goes through, settle on the version that is then stored. */
  lemma SettlesOnStored(s: Server, step: Step, v: Server)
    requires Next(s, step) == Some(v)
    ensures step.LoginLookUp? ==>
      step.c in v.signing && step.u in v.versions && v.signing[step.c] == Signing(step.u, v.versions[step.u])
    ensures step.Refresh? && Moves(s, step, step.token.sub) ==>
        && step.c in v.signing && v.signing[step.c] == Signing(step.token.sub, step.token.ver + 1)
        && v.versions[step.token.sub] == step.token.ver + 1 && step.token in s.issued
    ensures v.rotations == s.rotations +
      if step.Refresh? && Moves(s, step, step.token.sub) then [Signing(step.token.sub, step.token.ver)] else []
  {
  }

  /** Of two refreshes with one token, or with two tokens of the same version, only the first can go through. */
  lemma SecondRefreshFails(s: Server, run: seq<Step>, i: nat, j: nat, v: Server)
    requires Reached(s, run, v) && i < j < |run| && run[i].Refresh? && run[j].Refresh?
    requires run[i].token.sub == run[j].token.sub && run[i].token.ver == run[j].token.ver
    requires MovesAt(s, run, i, run[i].token.sub)
    ensures !MovesAt(s, run, j, run[j].token.sub)
  {
    VersionsOnlyGrow(s, run, j, v);
    VersionsOnlyGrow(s, run, i + 1, v);
    assert run[..j][..i + 1] == run[..i + 1] && run[..i + 1][..i] == run[..i];
    var mid, after := Execute(s, run[..i]).value, Execute(s, run[..i + 1]).value;
    VersionStep(mid, run[i], after, run[i].token.sub);
    VersionsOnlyGrow(s, run[..j], i + 1, Execute(s, run[..j]).value);
  }

  /** A reset starts from a stored row that has not expired, acts for that row's user, and commits once. */
  lemma ResetStep(s: Server, step: Step, v: Server)
    requires Next(s, step) == Some(v)
    ensures step.ResetLookUp? ==>
      && step.hash in s.resetRows && step.now <= s.resetRows[step.hash].expiresAt
      && v.resetting == s.resetting[step.c := s.resetRows[step.hash].userId] && step.c !in s.resetting
    ensures step.ResetCommit? ==> step.c in s.resetting && v.resetting == s.resetting - {step.c}
    ensures !step.ResetLookUp? && !step.ResetCommit? ==> v.resetting == s.resetting
  {
  }

  /** Which reset rows a step leaves: asking for a reset and completing one drop the user's rows and nobody else's. */
  lemma ResetRowsAfter(s: Server, step: Step, v: Server, h: Id)
    requires Next(s, step) == Some(v) && h in s.resetRows
    ensures h in v.resetRows <==>
      && step != ForgotDelete(s.resetRows[h].userId)
      && !(step.ResetCommit? && step.c in s.resetting && s.resetting[step.c] == s.resetRows[h].userId)
    ensures h in v.resetRows && h in s.hashes ==> v.resetRows[h] == s.resetRows[h]
  {
  }

  /** Between two bumps the pair signed for the current version is good, and only that version is. */
  lemma AcceptedIffCurrent(s: Server, run: seq<Step>, v: Server, c: Id)
    requires Reached(s, run, v) && c in v.signing
    ensures Next(v, Sign(c)).Some? && v.signing[c].sub in v.versions
    ensures var g, after := v.signing[c], Next(v, Sign(c)).value;
            && Token(g.sub, AccessToken, g.ver) in after.issued && Token(g.sub, RefreshToken, g.ver) in after.issued
            && (Validates(after, Token(g.sub, AccessToken, g.ver)) <==> g.ver == v.versions[g.sub])
            && (CanRotate(after, Token(g.sub, RefreshToken, g.ver)) <==> g.ver == v.versions[g.sub])
  {
    RunKeepsInv(s, run, v);
  }

  lemma {:induction false} ClearedStaysCleared(s: Server, run: seq<Step>, n: nat, v: Server, h: Id)
    requires Reached(s, run, v) && n <= |run|
    ensures Execute(s, run[..n]).Some?
    ensures var mid := Execute(s, run[..n]).value; h in mid.hashes && h !in mid.resetRows ==> h !in v.resetRows
  {
    VersionsOnlyGrow(s, run, n, v);
    if n < |run| {
      var front := run[..|run| - 1];
      var before := Execute(s, front).value;
      assert front[..n] == run[..n];
      ClearedStaysCleared(s, front, n, before, h);
      VersionsOnlyGrow(s, front, n, before);
      StepGrows(before, run[|run| - 1], v);
    } else {
      assert run[..n] == run;
    }
  }

  /** A committed password reset uses up every reset token of the user: none of them is ever found again. */
  lemma ResetTokensAreUsedUp(s: Server, run: seq<Step>, n: nat, v: Server, h: Id)
    requires Reached(s, run, v) && n < |run|
    ensures Execute(s, run[..n]).Some?
    ensures var mid := Execute(s, run[..n]).value;
            (run[n].ResetCommit? && run[n].c in mid.resetting && h in mid.resetRows
             && mid.resetRows[h].userId == mid.resetting[run[n].c]) ==> h !in v.resetRows
  {
    VersionsOnlyGrow(s, run, n, v);
    VersionsOnlyGrow(s, run, n + 1, v);
    assert run[..n + 1][..n] == run[..n];
    RunKeepsInv(s, run[..n], Execute(s, run[..n]).value);
    ClearedStaysCleared(s, run, n + 1, v, h);
  }

  lemma Extend(s: Server, run: seq<Step>, v: Server, step: Step)
    requires Execute(s, run) == Some(v)
    ensures Execute(s, run + [step]) == Next(v, step)
  {
    assert (run + [step])[..|run|] == run;
  }

  /** What a decoded token may lack. */
  datatype Payload = Payload(sub: Option<Id>, typ: Option<TokenType>, ver: Option<nat>)

  /** `randomBytes`: a hash not seen before. */
  method FreshHash(used: set<Id>) returns (x: Id)
    ensures x !in used
  {
    var left := used;
    x := 0;
    while left != {}
      invariant left <= used
      invariant forall y :: y in used && y !in left ==> y < x
      decreases left
    {
      var y: Id :| y in left;
      left := left - {y};
      x := if y >= x then y + 1 else x;
    }
  }

  /** `AuthTokenService` and `JwtStrategy` over the shared tables; other requests run at each `await`. */
  class AuthTokenService {
    var server: Server
    ghost const start: Server
    ghost var run: seq<Step>

    ghost predicate Valid()
      reads this
    {
      Reached(start, run, server)
    }

    constructor (s: Server)
      requires Initial(s)
      ensures Valid() && server == s
    {
      server, start, run := s, s, [];
    }

    method Do(step: Step)
      requires Valid() && Next(server, step).Some?
      modifies this
      ensures Valid() && run == old(run) + [step] && Some(server) == Next(old(server), step)
    {
      Extend(start, run, server, step);
      server := Next(server, step).value;
      run := run + [step];
    }

    /** Other requests proceed; request `c` keeps what it is about to sign. */
    method Await(c: Id)
      requires Valid() && c in server.signing
      modifies this
      ensures Valid() && old(run) <= run && c in server.signing && server.signing[c] == old(server.signing[c])
    {
      var budget: nat := *;
      while budget > 0
        invariant Valid() && old(run) <= run && c in server.signing && server.signing[c] == old(server.signing[c])
      {
        var step: Step := *;
        if Next(server, step).Some? && step != Sign(c) {
          Do(step);
        }
        budget := budget - 1;
      }
    }

    /** None stands for `UnauthorizedException`; `expired` is what verifying the token says of its age. */
    method RefreshTokens(c: Id, refreshToken: Token, expired: bool) returns (pair: Option<(Token, Token)>)
      requires Valid() && c !in server.signing
      modifies this
      ensures Valid() && old(run) <= run
      ensures pair.Some? <==>
        && refreshToken in old(server).issued && !expired && refreshToken.typ == RefreshToken
        && refreshToken.sub in old(server).versions && old(server).versions[refreshToken.sub] == refreshToken.ver
      ensures pair.Some? ==>
        && (Validates(server, pair.value.0) <==> Undisturbed(start, run, |old(run)| + 1, refreshToken.sub))
        && (CanRotate(server, pair.value.1) <==> Undisturbed(start, run, |old(run)| + 1, refreshToken.sub))
      ensures pair.Some? ==>
        && pair.value.0 == Token(refreshToken.sub, AccessToken, refreshToken.ver + 1)
        && pair.value.1 == Token(refreshToken.sub, RefreshToken, refreshToken.ver + 1)
        && pair.value.0 in server.issued && pair.value.1 in server.issued
      ensures pair.None? ==> server == old(server)
      ensures refreshToken in server.issued && !expired ==> !CanRotate(server, refreshToken)
    {
      if refreshToken !in server.issued || expired { return None; }
      if refreshToken.typ != RefreshToken { return None; }
      var updated := CanRotate(server, refreshToken);
      Do(Refresh(c, refreshToken));
      if !updated { return None; }
      ghost var n := |run|;
      ghost var rotated := run;
      Await(c);
      var signed := SignTokens(c);
      assert run[..n] == rotated;
      VersionsOnlyGrow(start, run, n, server);
      UsableUntilMoved(start, run, n, server, refreshToken.sub, refreshToken.ver + 1);
      return Some(signed);
    }

    /** `AuthService.login`, once the password has been checked. */
    method Login(c: Id, userId: Id) returns (pair: (Token, Token))
      requires Valid() && c !in server.signing && userId in server.versions
      modifies this
      ensures Valid() && old(run) + [LoginLookUp(c, userId)] <= run
      ensures pair.0 == Token(userId, AccessToken, old(server).versions[userId])
      ensures pair.1 == Token(userId, RefreshToken, old(server).versions[userId])
      ensures pair.0 in server.issued && pair.1 in server.issued
      ensures Validates(server, pair.0) <==> Undisturbed(start, run, |old(run)| + 1, userId)
      ensures CanRotate(server, pair.1) <==> Undisturbed(start, run, |old(run)| + 1, userId)
    {
      Do(LoginLookUp(c, userId));
      ghost var n := |run|;
      ghost var found := run;
      Await(c);
      pair := SignTokens(c);
      assert run[..n] == found;
      UsableUntilMoved(start, run, n, server, userId, pair.0.ver);
    }

    method SignTokens(c: Id) returns (pair: (Token, Token))
      requires Valid() && c in server.signing
      modifies this
      ensures Valid() && run == old(run) + [Sign(c)]
      ensures var g := old(server.signing[c]);
              pair == (Token(g.sub, AccessToken, g.ver), Token(g.sub, RefreshToken, g.ver))
      ensures server.issued == old(server.issued) + {pair.0, pair.1} && server.versions == old(server.versions)
    {
      var g := server.signing[c];
      Do(Sign(c));
      return (Token(g.sub, AccessToken, g.ver), Token(g.sub, RefreshToken, g.ver));
    }

    method RevokeUserTokens(userId: Id)
      requires Valid() && userId in server.versions
      modifies this
      ensures Valid() && run == old(run) + [Logout(userId)]
      ensures server == old(server).(versions := old(server).versions[userId := old(server).versions[userId] + 1])
    {
      Do(Logout(userId));
    }

    /** Other requests proceed; reset request `c` keeps the row it has found. */
    method AwaitReset(c: Id)
      requires Valid() && c in server.resetting
      modifies this
      ensures Valid() && old(run) <= run && c in server.resetting && server.resetting[c] == old(server.resetting[c])
    {
      var budget: nat := *;
      while budget > 0
        invariant Valid() && old(run) <= run && c in server.resetting && server.resetting[c] == old(server.resetting[c])
      {
        var step: Step := *;
        if Next(server, step).Some? && step != ResetCommit(c) {
          Do(step);
        }
        budget := budget - 1;
      }
    }

    /** Anything may happen. */
    method AwaitAny()
      requires Valid()
      modifies this
      ensures Valid() && old(run) <= run
    {
      var budget: nat := *;
      while budget > 0
        invariant Valid() && old(run) <= run
      {
        var step: Step := *;
        if Next(server, step).Some? {
          Do(step);
        }
        budget := budget - 1;
      }
    }

    /** Drops the user's earlier reset rows, then stores a new one under the hash of a fresh random token. */
    method ForgotPassword(userId: Option<Id>, now: int) returns (hash: Option<Id>)
      requires Valid() && (userId.Some? ==> userId.value in server.versions)
      modifies this
      ensures Valid() && old(run) <= run && hash.Some? == userId.Some?
      ensures userId.None? ==> server == old(server)
      ensures hash.Some? ==>
        && old(run) + [ForgotDelete(userId.value)] <= run
        && run[|run| - 1] == ForgotCreate(userId.value, hash.value, now + 3_600_000)
        && hash.value !in old(server).hashes && hash.value in server.resetRows
        && server.resetRows[hash.value] == ResetRow(userId.value, now + 3_600_000)
    {
      if userId.None? { return None; }
      Do(ForgotDelete(userId.value));
      ghost var n := |run|;
      ghost var deleted := run;
      AwaitAny();
      assert run[..n] == deleted;
      VersionsOnlyGrow(start, run, n, server);
      var tokenHash := FreshHash(server.hashes);
      Do(ForgotCreate(userId.value, tokenHash, now + RESET_TOKEN_TTL_MS));
      return Some(tokenHash);
    }

    /** Ends every session of the row's user, for good, and uses up all reset rows of that user. */
    method ResetPassword(c: Id, tokenHash: Id, now: int) returns (ok: bool)
      requires Valid() && c !in server.resetting
      modifies this
      ensures Valid() && old(run) <= run
      ensures ok <==> MayReset(old(server), tokenHash, now)
      ensures !ok ==> server == old(server)
      ensures ok ==> forall h :: h in server.resetRows ==>
        server.resetRows[h].userId != old(server).resetRows[tokenHash].userId
      ensures ok ==> forall t :: t in old(server).issued && t.sub == old(server).resetRows[tokenHash].userId ==>
        !Validates(server, t) && !CanRotate(server, t)
    {
      if tokenHash !in server.resetRows || server.resetRows[tokenHash].expiresAt < now { return false; }
      ghost var n := |run|;
      ghost var before, mid := run, server;
      Do(ResetLookUp(c, tokenHash, now));
      AwaitReset(c);
      assert run[..n] == before;
      VersionsOnlyGrow(start, run, n, server);
      RunKeepsInv(start, before, mid);
      Do(ResetCommit(c));
      return true;
    }

    /** `JwtStrategy.validate`: None stands for `UnauthorizedException`. */
    method Validate(payload: Payload) returns (userId: Option<Id>)
      ensures userId.Some? <==>
        payload.sub.Some? && payload.typ != Some(RefreshToken) && payload.ver.Some?
        && payload.sub.value in server.versions && server.versions[payload.sub.value] == payload.ver.value
      ensures userId.Some? ==> userId == payload.sub
      ensures payload.sub.Some? && payload.typ.Some? && payload.ver.Some? ==>
        (userId.Some? <==> Validates(server, Token(payload.sub.value, payload.typ.value, payload.ver.value)))
    {
      if payload.sub.None? { return None; }
      if payload.typ.Some? && payload.typ.value != AccessToken { return None; }
      if payload.sub.value !in server.versions { return None; }
      if payload.ver.None? || payload.ver.value != server.versions[payload.sub.value] { return None; }
      return payload.sub;
    }
  }
}
