/** Workspace members and invites: who may grant which role, and what each step leaves behind. */
module Membership {
  import opened Prelude
  import opened TaskTransition

  /** Emails are kept lower-cased, so they are compared as identifiers; invites are kept by token hash. */
  datatype WorkspaceInvite = WorkspaceInvite(
    ws: Id, email: Id, role: WorkspaceRole, expiresAt: int, accepted: Option<Id>)

  const INVITE_TOKEN_TTL_MS := 7 * 24 * 60 * 60 * 1000

  datatype Store = Store(
    users: map<Id, Id>,                        // user -> email
    workspaces: set<Id>,
    members: map<(Id, Id), WorkspaceRole>,     // (workspace, user) -> role
    invites: map<Id, WorkspaceInvite>)                  // token hash -> invite

  datatype Step =
    | Register(u: Id, email: Id)
    | CreateWorkspace(ws: Id, creator: Id)
    | InviteMember(ws: Id, actor: Id, email: Id, role: WorkspaceRole, hash: Id, expiresAt: int)
    | UpdateRole(ws: Id, actor: Id, target: Id, role: WorkspaceRole)
    | RemoveMember(ws: Id, actor: Id, target: Id)
    | AcceptInvite(hash: Id, u: Id)            // the transaction both accept operations commit

  predicate HasRole(s: Store, ws: Id, u: Id, role: WorkspaceRole) {
    (ws, u) in s.members && s.members[(ws, u)] == role
  }

  function Admins(s: Store, ws: Id): set<Id> {
    set k | k in s.members && k.0 == ws && s.members[k] == Admin :: k.1
  }

  predicate IsAgency(s: Store, ws: Id, u: Id) {
    (ws, u) in s.members && s.members[(ws, u)] in AGENCY_ROLES
  }

  /** `assertNotLastAdmin` */
  predicate NotLastAdmin(s: Store, ws: Id) {
    |Admins(s, ws)| > 1
  }

  /** Admins and managers invite; only admins invite admins. */
  predicate MayInvite(s: Store, ws: Id, actor: Id, role: WorkspaceRole) {
    IsAgency(s, ws, actor) && (role == Admin ==> HasRole(s, ws, actor, Admin))
  }

  function SetRole(s: Store, ws: Id, u: Id, role: WorkspaceRole): Store {
    s.(members := s.members[(ws, u) := role])
  }

  ghost predicate EmailTaken(s: Store, email: Id) {
    exists u :: u in s.users && s.users[u] == email
  }

  predicate IsInviteOf(i: WorkspaceInvite, ws: Id, email: Id) {
    i.ws == ws && i.email == email
  }

  /** `deleteMany` of the pending invites of (ws, email). */
  function DropPending(invites: map<Id, WorkspaceInvite>, ws: Id, email: Id): map<Id, WorkspaceInvite> {
    map h | h in invites && !(IsInviteOf(invites[h], ws, email) && invites[h].accepted.None?) :: invites[h]
  }

  /** The unique index on (workspace, email) admits a new invite. */
  predicate NoInvite(invites: map<Id, WorkspaceInvite>, ws: Id, email: Id) {
    forall h :: h in invites ==> !IsInviteOf(invites[h], ws, email)
  }

  /** Pending invites go first; the new one follows unless a unique index refuses it. */
  function CreateEmailInvite(s: Store, ws: Id, email: Id, role: WorkspaceRole, hash: Id, expiresAt: int): Store {
    var left := DropPending(s.invites, ws, email);
    if hash in left || !NoInvite(left, ws, email) then s.(invites := left)
    else s.(invites := left[hash := WorkspaceInvite(ws, email, role, expiresAt, None)])
  }

  /** The upsert and the `acceptedAt` update, in one transaction. */
  function CommitAccept(s: Store, hash: Id, u: Id): Store
    requires hash in s.invites
  {
    var i := s.invites[hash];
    SetRole(s, i.ws, u, i.role).(invites := s.invites[hash := i.(accepted := Some(u))])
  }

  /** The invite is unused, not past its time, and addressed to the account. */
  predicate MayAccept(s: Store, hash: Id, u: Id, now: int) {
    && hash in s.invites && s.invites[hash].accepted.None? && now <= s.invites[hash].expiresAt
    && u in s.users && s.users[u] == s.invites[hash].email
  }

  /** None: the request is turned down and nothing changes. */
  ghost function Next(s: Store, step: Step): Option<Store> {
    match step
    case Register(u, email) =>
      if u in s.users || EmailTaken(s, email) then None else Some(s.(users := s.users[u := email]))
    case CreateWorkspace(ws, creator) =>
      if ws in s.workspaces || creator !in s.users then None
      else Some(SetRole(s, ws, creator, Admin).(workspaces := s.workspaces + {ws}))
    case InviteMember(ws, actor, email, role, hash, expiresAt) =>
      if ws !in s.workspaces || !MayInvite(s, ws, actor, role) then None
      else if !EmailTaken(s, email) then Some(CreateEmailInvite(s, ws, email, role, hash, expiresAt))
      else
        var target: Id :| target in s.users && s.users[target] == email;
        if target == actor || (ws, target) in s.members then None else Some(SetRole(s, ws, target, role))
    case UpdateRole(ws, actor, target, role) =>
      if ws !in s.workspaces || !HasRole(s, ws, actor, Admin) || (ws, target) !in s.members then None
      else if HasRole(s, ws, target, Admin) && role != Admin && !NotLastAdmin(s, ws) then None
      else Some(SetRole(s, ws, target, role))
    case RemoveMember(ws, actor, target) =>
      if ws !in s.workspaces || !HasRole(s, ws, actor, Admin) || (ws, target) !in s.members then None
      else if HasRole(s, ws, target, Admin) && !NotLastAdmin(s, ws) then None
      else Some(s.(members := s.members - {(ws, target)}))
    case AcceptInvite(hash, u) =>
      if hash !in s.invites || u !in s.users || s.users[u] != s.invites[hash].email then None
      else Some(CommitAccept(s, hash, u))
  }

  /** What the unique indexes and foreign keys of the tables enforce. */
  ghost predicate Inv(s: Store) {
    && (forall u, v :: u in s.users && v in s.users && s.users[u] == s.users[v] ==> u == v)
    && (forall k :: k in s.members ==> k.0 in s.workspaces && k.1 in s.users)
    && (forall h :: h in s.invites ==> s.invites[h].ws in s.workspaces)
    && OneInvitePerEmail(s.invites)
  }

  ghost predicate OneInvitePerEmail(invites: map<Id, WorkspaceInvite>) {
    forall h, g :: h in invites && g in invites && IsInviteOf(invites[h], invites[g].ws, invites[g].email) ==> h == g
  }

  lemma EmailInviteKeepsInv(s: Store, ws: Id, email: Id, role: WorkspaceRole, hash: Id, expiresAt: int)
    requires Inv(s) && ws in s.workspaces
    ensures Inv(CreateEmailInvite(s, ws, email, role, hash, expiresAt))
  {
  }

  lemma CommitKeepsInv(s: Store, hash: Id, u: Id)
    requires Inv(s) && hash in s.invites && u in s.users
    ensures Inv(CommitAccept(s, hash, u))
  {
  }

  lemma NextKeepsInv(s: Store, step: Step, v: Store)
    requires Inv(s) && Next(s, step) == Some(v)
    ensures Inv(v)
  {
    if step.InviteMember? && !EmailTaken(s, step.email) {
      EmailInviteKeepsInv(s, step.ws, step.email, step.role, step.hash, step.expiresAt);
    } else if step.AcceptInvite? {
      CommitKeepsInv(s, step.hash, step.u);
    }
  }

  /** A run from an empty database, with the store before and after every step. */
  ghost predicate IsRun(states: seq<Store>, steps: seq<Step>) {
    && |states| == |steps| + 1
    && states[0] == Store(map[], {}, map[], map[])
    && forall i :: 0 <= i < |steps| ==> Next(states[i], steps[i]) == Some(states[i + 1])
  }

  lemma {:induction false} RunKeepsInv(states: seq<Store>, steps: seq<Step>, k: nat)
    requires IsRun(states, steps) && k <= |steps|
    ensures Inv(states[k])
  {
    if k > 0 {
      RunKeepsInv(states, steps, k - 1);
      NextKeepsInv(states[k - 1], steps[k - 1], states[k]);
    }
  }

  // The last administrator

  ghost predicate HasAdmin(s: Store, ws: Id) {
    exists u :: HasRole(s, ws, u, Admin)
  }

  /** The step accepts, for the workspace's only administrator, an invite to a lesser role. */
  ghost predicate DemotesLast(s: Store, step: Step, ws: Id) {
    && step.AcceptInvite? && step.hash in s.invites
    && s.invites[step.hash].ws == ws && s.invites[step.hash].role != Admin
    && forall u :: HasRole(s, ws, u, Admin) ==> u == step.u
  }

  lemma AdminsAre(s: Store, ws: Id, u: Id)
    ensures u in Admins(s, ws) <==> HasRole(s, ws, u, Admin)
  {
    if HasRole(s, ws, u, Admin) {
      assert (ws, u) in s.members;
    }
  }

  /** Counting more than one administrator is having two different ones. */
  lemma NotLastAdminMeansTwo(s: Store, ws: Id)
    ensures NotLastAdmin(s, ws) <==> exists u, v :: u != v && HasRole(s, ws, u, Admin) && HasRole(s, ws, v, Admin)
  {
    if NotLastAdmin(s, ws) {
      var u := AnotherAdmin(s, ws, 0);
      var v := AnotherAdmin(s, ws, u);
    } else if u: Id, v: Id :| u != v && HasRole(s, ws, u, Admin) && HasRole(s, ws, v, Admin) {
      TwoAdmins(s, ws, u, v);
    }
  }

  lemma AnotherAdmin(s: Store, ws: Id, u: Id) returns (other: Id)
    requires NotLastAdmin(s, ws)
    ensures other != u && HasRole(s, ws, other, Admin)
  {
    if Admins(s, ws) <= {u} {
      SubsetSize(Admins(s, ws), {u});
    }
    other :| other in Admins(s, ws) && other != u;
    AdminsAre(s, ws, other);
  }

  /** A workspace that has an administrator loses the last one in exactly one way. */
  lemma LastAdminGoesOnlyByAccepting(s: Store, step: Step, v: Store, ws: Id)
    requires Next(s, step) == Some(v) && ws in s.workspaces && HasAdmin(s, ws)
    ensures HasAdmin(v, ws) <==> !DemotesLast(s, step, ws)
  {
    var u :| HasRole(s, ws, u, Admin);
    if step.AcceptInvite? {
      AcceptKeepsAnother(s, step, v, ws, u);
    } else if (step.UpdateRole? || step.RemoveMember?) && step.ws == ws && step.target == u && NotLastAdmin(s, ws) {
      var other := AnotherAdmin(s, ws, u);
      assert HasRole(v, ws, other, Admin);
    } else {
      assert HasRole(v, ws, u, Admin);
    }
  }

  lemma AcceptKeepsAnother(s: Store, step: Step, v: Store, ws: Id, u: Id)
    requires step.AcceptInvite? && Next(s, step) == Some(v) && HasRole(s, ws, u, Admin)
    ensures HasAdmin(v, ws) <==> !DemotesLast(s, step, ws)
  {
    var i := s.invites[step.hash];
    if i.ws != ws || u != step.u {
      assert HasRole(v, ws, u, Admin);
    } else if i.role == Admin {
      assert HasRole(v, ws, step.u, Admin);
    } else if other: Id :| HasRole(s, ws, other, Admin) && other != step.u {
      assert HasRole(v, ws, other, Admin);
    } else {
      assert forall x :: HasRole(v, ws, x, Admin) ==> x != step.u && HasRole(s, ws, x, Admin);
    }
  }

  lemma CreatedWithAdmin(s: Store, step: Step, v: Store, ws: Id)
    requires Next(s, step) == Some(v) && ws in v.workspaces && ws !in s.workspaces
    ensures HasAdmin(v, ws)
  {
    assert HasRole(v, ws, step.creator, Admin);
  }

  /** The steps up to `k` demote no last administrator. */
  ghost predicate NoDemotion(states: seq<Store>, steps: seq<Step>, k: nat)
    requires |states| == |steps| + 1 && k <= |steps|
  {
    forall i, ws :: 0 <= i < k && ws in states[i].workspaces ==> !DemotesLast(states[i], steps[i], ws)
  }

  ghost predicate Administered(s: Store) {
    forall ws :: ws in s.workspaces ==> HasAdmin(s, ws)
  }

  lemma StepAdministered(s: Store, step: Step, v: Store)
    requires Next(s, step) == Some(v) && Administered(s)
    ensures Administered(v) <==> forall ws :: ws in s.workspaces ==> !DemotesLast(s, step, ws)
  {
    forall ws | ws in v.workspaces
      ensures HasAdmin(v, ws) <==> !(ws in s.workspaces && DemotesLast(s, step, ws))
    {
      if ws in s.workspaces {
        LastAdminGoesOnlyByAccepting(s, step, v, ws);
      } else {
        CreatedWithAdmin(s, step, v, ws);
      }
    }
    assert s.workspaces <= v.workspaces;
  }

  /** Every workspace has an administrator throughout a run exactly when no accepted invite takes the last one away. */
  lemma {:induction false} AdministeredThroughout(states: seq<Store>, steps: seq<Step>, k: nat)
    requires IsRun(states, steps) && k <= |steps|
    ensures (forall i :: 0 <= i <= k ==> Administered(states[i])) <==> NoDemotion(states, steps, k)
  {
    if k > 0 {
      AdministeredThroughout(states, steps, k - 1);
      if Administered(states[k - 1]) {
        StepAdministered(states[k - 1], steps[k - 1], states[k]);
      }
    }
  }

  function Stored(s: Store, hash: Id, i: WorkspaceInvite): Store {
    s.(invites := s.invites[hash := i])
  }

  /** A new address gets its invite stored. */
  lemma InviteStores(s: Store, ws: Id, actor: Id, email: Id, role: WorkspaceRole, hash: Id, expiresAt: int)
    requires ws in s.workspaces && HasRole(s, ws, actor, Admin)
    requires !EmailTaken(s, email) && hash !in s.invites && NoInvite(s.invites, ws, email)
    ensures Next(s, InviteMember(ws, actor, email, role, hash, expiresAt)) ==
      Some(Stored(s, hash, WorkspaceInvite(ws, email, role, expiresAt, None)))
  {
    assert DropPending(s.invites, ws, email) == s.invites;
  }

  /** A known address becomes a member at once. */
  lemma InviteAdds(s: Store, ws: Id, actor: Id, u: Id, role: WorkspaceRole, hash: Id, expiresAt: int)
    requires Inv(s) && ws in s.workspaces && HasRole(s, ws, actor, Admin)
    requires u in s.users && u != actor && (ws, u) !in s.members
    ensures Next(s, InviteMember(ws, actor, s.users[u], role, hash, expiresAt)) == Some(SetRole(s, ws, u, role))
  {
  }

  lemma TwoAdmins(s: Store, ws: Id, u: Id, v: Id)
    requires u != v && HasRole(s, ws, u, Admin) && HasRole(s, ws, v, Admin)
    ensures NotLastAdmin(s, ws)
  {
    AdminsAre(s, ws, u);
    AdminsAre(s, ws, v);
    SubsetSize({u, v}, Admins(s, ws));
  }

  /** Consecutive steps, from any store. */
  ghost predicate Chain(states: seq<Store>, steps: seq<Step>) {
    |states| == |steps| + 1 && forall i :: 0 <= i < |steps| ==> Next(states[i], steps[i]) == Some(states[i + 1])
  }

  ghost predicate OnlyAdmin(s: Store, ws: Id, u: Id) {
    ws in s.workspaces && HasRole(s, ws, u, Admin) && forall v :: HasRole(s, ws, v, Admin) ==> v == u
  }

  /** The service accepts every invite accepted in the run, at time `now`. */
  ghost predicate AllAccepted(states: seq<Store>, steps: seq<Step>, now: int)
    requires |states| == |steps| + 1
  {
    forall i :: 0 <= i < |steps| && steps[i].AcceptInvite? ==> MayAccept(states[i], steps[i].hash, steps[i].u, now)
  }

  /** User 2, invited to workspace 5 as a client, is added there as Admin, removes its creator and accepts. */
  lemma AcceptsOldInvite(s: Store, now: int) returns (states: seq<Store>, steps: seq<Step>)
    requires Inv(s) && OnlyAdmin(s, 5, 1)
    requires 2 in s.users && s.users[2] == 12 && (5, 2) !in s.members
    requires 21 in s.invites && s.invites[21] == WorkspaceInvite(5, 12, ClientView, now + INVITE_TOKEN_TTL_MS, None)
    ensures Chain(states, steps) && states[0] == s && !HasAdmin(states[|steps|], 5) && AllAccepted(states, steps, now)
    ensures 5 in states[|steps|].workspaces
  {
    var i := SetRole(s, 5, 2, Admin);
    InviteAdds(s, 5, 1, 2, Admin, 23, now + INVITE_TOKEN_TTL_MS);
    var j := i.(members := i.members - {(5, 1)});
    TwoAdmins(i, 5, 1, 2);
    var k := CommitAccept(j, 21, 2);
    assert forall u :: HasRole(k, 5, u, Admin) ==> HasRole(s, 5, u, Admin) && u != 1;
    steps := [InviteMember(5, 1, 12, Admin, 23, now + INVITE_TOKEN_TTL_MS), RemoveMember(5, 2, 1), AcceptInvite(21, 2)];
    states := [s, i, j, k];
  }

  lemma CreatesWorkspaces() returns (states: seq<Store>, steps: seq<Step>)
    ensures IsRun(states, steps) && forall i :: 0 <= i < |steps| ==> !steps[i].AcceptInvite?
    ensures var s := states[|steps|];
      OnlyAdmin(s, 5, 1) && OnlyAdmin(s, 6, 1) && s.users == map[1 := 11] && s.invites == map[]
  {
    var e := Store(map[], {}, map[], map[]);
    var a := e.(users := e.users[1 := 11]);
    var b := SetRole(a, 5, 1, Admin).(workspaces := a.workspaces + {5});
    var c := SetRole(b, 6, 1, Admin).(workspaces := b.workspaces + {6});
    steps := [Register(1, 11), CreateWorkspace(5, 1), CreateWorkspace(6, 1)];
    states := [e, a, b, c];
  }

  /** User 2 is invited to workspaces 5 and 6 and registers through the invite to 6. */
  lemma RegistersThroughOther(s: Store, now: int) returns (states: seq<Store>, steps: seq<Step>)
    requires Inv(s) && OnlyAdmin(s, 5, 1) && OnlyAdmin(s, 6, 1) && s.users == map[1 := 11] && s.invites == map[]
    ensures Chain(states, steps) && states[0] == s && AllAccepted(states, steps, now)
    ensures var v := states[|steps|];
      && OnlyAdmin(v, 5, 1) && 2 in v.users && v.users[2] == 12
      && (5, 2) !in v.members && 21 in v.invites
      && v.invites[21] == WorkspaceInvite(5, 12, ClientView, now + INVITE_TOKEN_TTL_MS, None)
  {
    var d := Stored(s, 21, WorkspaceInvite(5, 12, ClientView, now + INVITE_TOKEN_TTL_MS, None));
    InviteStores(s, 5, 1, 12, ClientView, 21, now + INVITE_TOKEN_TTL_MS);
    var f := Stored(d, 22, WorkspaceInvite(6, 12, ClientView, now + INVITE_TOKEN_TTL_MS, None));
    InviteStores(d, 6, 1, 12, ClientView, 22, now + INVITE_TOKEN_TTL_MS);
    var g := f.(users := f.users[2 := 12]);
    var h := CommitAccept(g, 22, 2);
    steps := [InviteMember(5, 1, 12, ClientView, 21, now + INVITE_TOKEN_TTL_MS),
              InviteMember(6, 1, 12, ClientView, 22, now + INVITE_TOKEN_TTL_MS),
              Register(2, 12), AcceptInvite(22, 2)];
    states := [s, d, f, g, h];
  }

  lemma Join(states: seq<Store>, steps: seq<Step>, states': seq<Store>, steps': seq<Step>, now: int)
    requires IsRun(states, steps) && Chain(states', steps') && states'[0] == states[|steps|]
    ensures IsRun(states + states'[1..], steps + steps')
    ensures AllAccepted(states, steps, now) && AllAccepted(states', steps', now) ==>
      AllAccepted(states + states'[1..], steps + steps', now)
  {
    var all, moves := states + states'[1..], steps + steps';
    assert forall i :: |steps| <= i < |moves| ==> moves[i] == steps'[i - |steps|] && all[i] == states'[i - |steps|];
    forall i | 0 <= i < |moves|
      ensures Next(all[i], moves[i]) == Some(all[i + 1])
    {
      if i >= |steps| {
        assert Next(states'[i - |steps|], steps'[i - |steps|]) == Some(states'[i - |steps| + 1]);
      }
    }
  }

  /** Together these make a run after which nobody administers workspace 5. */
  lemma LastAdminCanBeLost(now: int) returns (states: seq<Store>, steps: seq<Step>)
    ensures IsRun(states, steps) && AllAccepted(states, steps, now)
    ensures 5 in states[|steps|].workspaces && !HasAdmin(states[|steps|], 5)
  {
    states, steps := CreatesWorkspaces();
    RunKeepsInv(states, steps, |steps|);
    var states1, steps1 := RegistersThroughOther(states[|steps|], now);
    Join(states, steps, states1, steps1, now);
    states, steps := states + states1[1..], steps + steps1;
    RunKeepsInv(states, steps, |steps|);
    var states2, steps2 := AcceptsOldInvite(states[|steps|], now);
    Join(states, steps, states2, steps2, now);
    states, steps := states + states2[1..], steps + steps2;
  }

  // Where administrators come from

  /** Step `j` grants Admin in `ws` to whoever holds `email`, and its actor traces back in turn. */
  ghost predicate InvitesAdmin(states: seq<Store>, steps: seq<Step>, j: nat, ws: Id, email: Id)
    requires IsRun(states, steps) && j < |steps|
    decreases j, 1
  {
    && steps[j].InviteMember? && steps[j].ws == ws && steps[j].email == email && steps[j].role == Admin
    && HasRole(states[j], ws, steps[j].actor, Admin)
    && Traces(states, steps, j, ws, steps[j].actor)
  }

  ghost predicate PromotesToAdmin(states: seq<Store>, steps: seq<Step>, j: nat, ws: Id, u: Id)
    requires IsRun(states, steps) && j < |steps|
    decreases j, 1
  {
    && steps[j].UpdateRole? && steps[j].ws == ws && steps[j].target == u && steps[j].role == Admin
    && HasRole(states[j], ws, steps[j].actor, Admin)
    && Traces(states, steps, j, ws, steps[j].actor)
  }

  /** Some step before `k` invited `email` to be Admin of `ws`. */
  ghost predicate InvitedBefore(states: seq<Store>, steps: seq<Step>, k: nat, ws: Id, email: Id)
    requires IsRun(states, steps) && k <= |steps|
    decreases k, 0
  {
    exists j: nat :: j < k && InvitesAdmin(states, steps, j, ws, email)
  }

  /**
   Before step `k` user `u` created `ws`, or was made its Admin by, or through an
   invite to their email from, someone who was Admin at that moment and whose
   own right traces back the same way.
   */
  ghost predicate Traces(states: seq<Store>, steps: seq<Step>, k: nat, ws: Id, u: Id)
    requires IsRun(states, steps) && k <= |steps|
    decreases k, 0
  {
    || (exists j: nat :: j < k && steps[j] == CreateWorkspace(ws, u))
    || (exists j: nat :: j < k && PromotesToAdmin(states, steps, j, ws, u))
    || (u in states[k].users && exists j: nat :: j < k && InvitesAdmin(states, steps, j, ws, states[k].users[u]))
  }

  lemma UsersStay(s: Store, step: Step, v: Store, u: Id)
    requires Next(s, step) == Some(v) && u in s.users
    ensures u in v.users && v.users[u] == s.users[u]
  {
  }

  lemma TracesStays(states: seq<Store>, steps: seq<Step>, k: nat, ws: Id, u: Id)
    requires IsRun(states, steps) && k < |steps| && Traces(states, steps, k, ws, u)
    ensures Traces(states, steps, k + 1, ws, u)
  {
    if u in states[k].users {
      UsersStay(states[k], steps[k], states[k + 1], u);
    }
  }

  lemma InvitedStays(states: seq<Store>, steps: seq<Step>, k: nat, ws: Id, email: Id)
    requires IsRun(states, steps) && k < |steps| && InvitedBefore(states, steps, k, ws, email)
    ensures InvitedBefore(states, steps, k + 1, ws, email)
  {
  }

  /** Whoever holds the invited email traces through the invite. */
  lemma InvitedTraces(states: seq<Store>, steps: seq<Step>, k: nat, ws: Id, u: Id)
    requires IsRun(states, steps) && k <= |steps| && u in states[k].users
    requires InvitedBefore(states, steps, k, ws, states[k].users[u])
    ensures Traces(states, steps, k, ws, u)
  {
  }

  /** Every administrator traces back to the workspace's creator. */
  lemma {:induction false} AdminTraces(states: seq<Store>, steps: seq<Step>, k: nat, ws: Id, u: Id)
    requires IsRun(states, steps) && k <= |steps| && HasRole(states[k], ws, u, Admin)
    ensures Traces(states, steps, k, ws, u)
    decreases k
  {
    var s, step := states[k - 1], steps[k - 1];
    if HasRole(s, ws, u, Admin) {
      AdminTraces(states, steps, k - 1, ws, u);
      TracesStays(states, steps, k - 1, ws, u);
    } else if step.UpdateRole? {
      AdminTraces(states, steps, k - 1, ws, step.actor);
      assert PromotesToAdmin(states, steps, k - 1, ws, u);
    } else if step.InviteMember? {
      AdminTraces(states, steps, k - 1, ws, step.actor);
      assert InvitesAdmin(states, steps, k - 1, ws, states[k].users[u]);
    } else if step.AcceptInvite? {
      AdminInviteTraces(states, steps, k - 1, step.hash);
      InvitedStays(states, steps, k - 1, ws, states[k].users[u]);
      InvitedTraces(states, steps, k, ws, u);
    } else {
      assert step == CreateWorkspace(ws, u);
    }
  }

  /** Every invite to be Admin, pending or accepted, was sent by such an administrator. */
  lemma {:induction false} AdminInviteTraces(states: seq<Store>, steps: seq<Step>, k: nat, hash: Id)
    requires IsRun(states, steps) && k <= |steps| && hash in states[k].invites && states[k].invites[hash].role == Admin
    ensures InvitedBefore(states, steps, k, states[k].invites[hash].ws, states[k].invites[hash].email)
    decreases k
  {
    var s, step, i := states[k - 1], steps[k - 1], states[k].invites[hash];
    if step.InviteMember? && hash == step.hash
       && i == WorkspaceInvite(step.ws, step.email, step.role, step.expiresAt, None) {
      AdminTraces(states, steps, k - 1, step.ws, step.actor);
      assert InvitesAdmin(states, steps, k - 1, i.ws, i.email);
    } else {
      AdminInviteTraces(states, steps, k - 1, hash);
      InvitedStays(states, steps, k - 1, i.ws, i.email);
    }
  }

  // Where every other role comes from

  /** Admins may invite anybody, managers anybody but admins, and no one else may invite. */
  lemma MayInviteIff(s: Store, ws: Id, actor: Id, role: WorkspaceRole)
    ensures MayInvite(s, ws, actor, role) <==>
      HasRole(s, ws, actor, Admin) || (HasRole(s, ws, actor, Manager) && role != Admin)
  {
  }

  /** Step `j` invites the address with that role, by someone who was entitled to at that moment. */
  ghost predicate InvitesAs(states: seq<Store>, steps: seq<Step>, j: nat, ws: Id, email: Id, role: WorkspaceRole)
    requires |states| == |steps| + 1 && j < |steps|
  {
    && steps[j].InviteMember? && steps[j].ws == ws && steps[j].email == email && steps[j].role == role
    && (HasRole(states[j], ws, steps[j].actor, Admin)
        || (HasRole(states[j], ws, steps[j].actor, Manager) && role != Admin))
  }

  /** Step `j` gives the member that role, by someone who was Admin at that moment. */
  ghost predicate ChangesTo(states: seq<Store>, steps: seq<Step>, j: nat, ws: Id, u: Id, role: WorkspaceRole)
    requires |states| == |steps| + 1 && j < |steps|
  {
    && steps[j].UpdateRole? && steps[j].ws == ws && steps[j].target == u && steps[j].role == role
    && HasRole(states[j], ws, steps[j].actor, Admin)
  }

  ghost predicate InvitedAs(states: seq<Store>, steps: seq<Step>, k: nat, ws: Id, email: Id, role: WorkspaceRole)
    requires |states| == |steps| + 1 && k <= |steps|
  {
    exists j: nat :: j < k && InvitesAs(states, steps, j, ws, email, role)
  }

  /** Before step `k` the user created the workspace, was given the role by an Admin, or was invited with it. */
  ghost predicate GrantedRole(states: seq<Store>, steps: seq<Step>, k: nat, ws: Id, u: Id, role: WorkspaceRole)
    requires |states| == |steps| + 1 && k <= |steps|
  {
    || (role == Admin && exists j: nat :: j < k && steps[j] == CreateWorkspace(ws, u))
    || (exists j: nat :: j < k && ChangesTo(states, steps, j, ws, u, role))
    || (u in states[k].users && InvitedAs(states, steps, k, ws, states[k].users[u], role))
  }

  /** Every invite was sent by someone entitled to send it. */
  lemma {:induction false} InviteWasSent(states: seq<Store>, steps: seq<Step>, k: nat, hash: Id)
    requires IsRun(states, steps) && k <= |steps| && hash in states[k].invites
    ensures var i := states[k].invites[hash]; InvitedAs(states, steps, k, i.ws, i.email, i.role)
  {
    var s, step, i := states[k - 1], steps[k - 1], states[k].invites[hash];
    if step.InviteMember? && hash == step.hash
       && i == WorkspaceInvite(step.ws, step.email, step.role, step.expiresAt, None) {
      assert InvitesAs(states, steps, k - 1, i.ws, i.email, i.role);
    } else {
      InviteWasSent(states, steps, k - 1, hash);
    }
  }

  /** Every membership, whatever its role, was granted by someone entitled to grant it. */
  lemma {:induction false} RoleWasGranted(states: seq<Store>, steps: seq<Step>, k: nat, ws: Id, u: Id)
    requires IsRun(states, steps) && k <= |steps| && (ws, u) in states[k].members
    ensures GrantedRole(states, steps, k, ws, u, states[k].members[(ws, u)])
  {
    var s, step, role := states[k - 1], steps[k - 1], states[k].members[(ws, u)];
    if HasRole(s, ws, u, role) {
      RoleWasGranted(states, steps, k - 1, ws, u);
      if u in s.users {
        UsersStay(s, step, states[k], u);
      }
    } else if step.UpdateRole? {
      assert ChangesTo(states, steps, k - 1, ws, u, role);
    } else if step.InviteMember? {
      assert InvitesAs(states, steps, k - 1, ws, states[k].users[u], role);
    } else if step.AcceptInvite? {
      InviteWasSent(states, steps, k - 1, step.hash);
    } else {
      assert step == CreateWorkspace(ws, u);
    }
  }
}
