/** The member and invite services over the shared tables. */
module WorkspaceMembersService {
  import opened Prelude
  import opened TaskTransition
  import opened Membership

  datatype Error = NotFound | Forbidden | BadRequest | Conflict | UniqueViolation
  datatype Result<T> = Ok(value: T) | Err(error: Error)
  datatype InviteResult = Added(user: Id) | Pending(hash: Id)

  /** The pending, unexpired invites of `email`. */
  function PendingFor(invites: map<Id, WorkspaceInvite>, email: Id, now: int): set<Id> {
    set h | h in invites && invites[h].email == email && invites[h].accepted.None? && invites[h].expiresAt > now
  }

  ghost function InvitedTo(s: Store, hs: set<Id>): set<Id>
    requires hs <= s.invites.Keys
  {
    set h | h in hs :: s.invites[h].ws
  }

  /**
   `v` is `s` after user `u` has accepted exactly the invites `hs`: every
   invited workspace has the role of its own invite, every other membership and
   every other invite is as before.
   */
  ghost predicate Accepted(s: Store, v: Store, hs: set<Id>, u: Id)
    requires hs <= s.invites.Keys
  {
    && v.users == s.users && v.workspaces == s.workspaces && v.invites.Keys == s.invites.Keys
    && (forall h :: h in hs ==> HasRole(v, s.invites[h].ws, u, s.invites[h].role))
    && (forall h :: h in hs ==> v.invites[h] == s.invites[h].(accepted := Some(u)))
    && (forall h :: h in s.invites && h !in hs ==> v.invites[h] == s.invites[h])
    && (forall ws, x :: SameMember(s, v, ws, x) || (x == u && ws in InvitedTo(s, hs)))
  }

  ghost predicate SameMember(s: Store, v: Store, ws: Id, x: Id) {
    && ((ws, x) in v.members <==> (ws, x) in s.members)
    && ((ws, x) in s.members ==> v.members[(ws, x)] == s.members[(ws, x)])
  }

  /** Accepting one more invite of the same address disturbs none of those accepted so far. */
  lemma AcceptOneMore(s: Store, v: Store, hs: set<Id>, h: Id, u: Id, email: Id)
    requires OneInvitePerEmail(s.invites) && hs <= s.invites.Keys && h in s.invites && h !in hs
    requires forall g :: g in hs + {h} ==> s.invites[g].email == email
    requires Accepted(s, v, hs, u)
    ensures Accepted(s, CommitAccept(v, h, u), hs + {h}, u)
  {
    var w, i := CommitAccept(v, h, u), s.invites[h];
    assert v.invites[h] == i;
    forall g | g in hs + {h}
      ensures HasRole(w, s.invites[g].ws, u, s.invites[g].role)
    {
      assert IsInviteOf(s.invites[g], i.ws, i.email) ==> g == h;
      assert g in hs ==> HasRole(v, s.invites[g].ws, u, s.invites[g].role);
    }
    assert InvitedTo(s, hs + {h}) == InvitedTo(s, hs) + {i.ws};
    forall ws: Id, x: Id
      ensures SameMember(s, w, ws, x) || (x == u && ws in InvitedTo(s, hs + {h}))
    {
      assert SameMember(s, v, ws, x) || (x == u && ws in InvitedTo(s, hs));
    }
  }

  /** An invited workspace keeps an administrator exactly when its invite is one or someone else is. */
  lemma AcceptedKeepsAdmin(s: Store, v: Store, hs: set<Id>, u: Id, h: Id)
    requires hs <= s.invites.Keys && Accepted(s, v, hs, u) && h in hs
    ensures HasAdmin(v, s.invites[h].ws) <==>
      s.invites[h].role == Admin || exists x :: x != u && HasRole(s, s.invites[h].ws, x, Admin)
  {
    var ws := s.invites[h].ws;
    assert HasRole(v, ws, u, s.invites[h].role);
    forall x: Id | x != u
      ensures HasRole(v, ws, x, Admin) <==> HasRole(s, ws, x, Admin)
    {
      assert SameMember(s, v, ws, x);
    }
  }

  /** One transaction after the other. */
  ghost function AcceptAll(s: Store, list: seq<Id>, u: Id): (v: Store)
    requires forall h :: h in list ==> h in s.invites
    ensures v.invites.Keys == s.invites.Keys
  {
    if list == [] then s else CommitAccept(AcceptAll(s, list[..|list| - 1], u), list[|list| - 1], u)
  }

  lemma {:induction false} AcceptAllAccepts(s: Store, list: seq<Id>, u: Id, email: Id)
    requires OneInvitePerEmail(s.invites) && NoDup(list)
    requires forall h :: h in list ==> h in s.invites && s.invites[h].email == email
    ensures Accepted(s, AcceptAll(s, list, u), Elems(list), u)
  {
    if list != [] {
      var front, last := list[..|list| - 1], list[|list| - 1];
      AcceptAllAccepts(s, front, u, email);
      assert Elems(list) == Elems(front) + {last};
      AcceptOneMore(s, AcceptAll(s, front, u), Elems(front), last, u, email);
    }
  }

  /** Exactly the pending invites of the address are stamped, and none is left. */
  lemma PendingAreTaken(s: Store, v: Store, u: Id, email: Id, now: int)
    requires Accepted(s, v, PendingFor(s.invites, email, now), u)
    ensures PendingFor(v.invites, email, now) == {}
    ensures forall h :: h in s.invites && h in v.invites ==>
      (v.invites[h].accepted ==
       if s.invites[h].email == email && s.invites[h].accepted.None? && s.invites[h].expiresAt > now then Some(u)
       else s.invites[h].accepted)
  {
  }

  lemma {:induction false} NoDupCounts(list: seq<Id>)
    requires NoDup(list)
    ensures |Elems(list)| == |list|
  {
    if list == [] {
      assert Elems(list) == {};
    } else {
      NoDupCounts(list[..|list| - 1]);
      assert Elems(list) == Elems(list[..|list| - 1]) + {list[|list| - 1]};
    }
  }

  lemma LastAdminIsOnlyAdmin(s: Store, ws: Id, u: Id)
    requires ws in s.workspaces && HasRole(s, ws, u, Admin)
    ensures NotLastAdmin(s, ws) <==> !OnlyAdmin(s, ws, u)
  {
    NotLastAdminMeansTwo(s, ws);
  }

  lemma PendingAccepted(s: Store, list: seq<Id>, u: Id, email: Id, now: int)
    requires OneInvitePerEmail(s.invites) && NoDup(list) && Elems(list) == PendingFor(s.invites, email, now)
    requires forall h :: h in list ==> h in s.invites && s.invites[h].email == email
    ensures Accepted(s, AcceptAll(s, list, u), PendingFor(s.invites, email, now), u)
    ensures |list| == |PendingFor(s.invites, email, now)|
  {
    NoDupCounts(list);
    AcceptAllAccepts(s, list, u, email);
  }

  /** `i` as it would be if it were a pending invite of the address. */
  function PendingInvite(ws: Id, email: Id, i: WorkspaceInvite): WorkspaceInvite {
    WorkspaceInvite(ws, email, i.role, i.expiresAt, None)
  }

  class WorkspaceMembersService {
    var store: Store

    ghost predicate Valid()
      reads this
    {
      Inv(store)
    }

    constructor (s: Store)
      requires Inv(s)
      ensures Valid() && store == s
    {
      store := s;
    }

    /** `WorkspacesService.create`, for a fresh workspace id; `slugTaken` is what the unique slug index answers. */
    method Create(userId: Id, workspaceId: Id, slugTaken: bool) returns (result: Result<Id>)
      requires Valid() && userId in store.users && workspaceId !in store.workspaces
      modifies this
      ensures Valid() && result == if slugTaken then Err(Conflict) else Ok(workspaceId)
      ensures slugTaken ==> store == old(store)
      ensures !slugTaken ==> Some(store) == Next(old(store), CreateWorkspace(workspaceId, userId))
    {
      if slugTaken { return Err(Conflict); }
      ghost var step := CreateWorkspace(workspaceId, userId);
      NextKeepsInv(store, step, Next(store, step).value);
      store := store.(workspaces := store.workspaces + {workspaceId},
                      members := store.members[(workspaceId, userId) := Admin]);
      return Ok(workspaceId);
    }

    /** `findUnique({ where: { email } })` */
    method FindByEmail(email: Id) returns (user: Option<Id>)
      ensures user.Some? ==> user.value in store.users && store.users[user.value] == email
      ensures user.None? ==> !EmailTaken(store, email)
    {
      var left := store.users.Keys;
      while left != {}
        invariant left <= store.users.Keys
        invariant forall u :: u in store.users && store.users[u] == email ==> u in left
        decreases left
      {
        var u: Id :| u in left;
        if store.users[u] == email { return Some(u); }
        left := left - {u};
      }
      return None;
    }

    /** A token whose hash is taken, and an accepted invite of the same address, both violate a unique index. */
    method CreateEmailInvite(workspaceId: Id, email: Id, role: WorkspaceRole, tokenHash: Id, now: int)
      returns (result: Result<InviteResult>)
      modifies this
      ensures store ==
        Membership.CreateEmailInvite(old(store), workspaceId, email, role, tokenHash, now + INVITE_TOKEN_TTL_MS)
      ensures result == Ok(Pending(tokenHash)) || result == Err(UniqueViolation)
      ensures result.Ok? <==> (forall h :: h in old(store).invites ==>
        || old(store).invites[h] == PendingInvite(workspaceId, email, old(store).invites[h])
        || (h != tokenHash && !IsInviteOf(old(store).invites[h], workspaceId, email)))
      ensures result.Ok? ==>
        && tokenHash in store.invites
        && store.invites[tokenHash] == WorkspaceInvite(workspaceId, email, role, now + 604_800_000, None)
      ensures forall h :: h in old(store).invites && (h != tokenHash || result.Err?) ==>
        (h in store.invites <==> old(store).invites[h] != PendingInvite(workspaceId, email, old(store).invites[h]))
      ensures forall h :: h in store.invites && (h != tokenHash || result.Err?) ==>
        h in old(store).invites && store.invites[h] == old(store).invites[h]
      ensures store == old(store).(invites := store.invites)
    {
      var expiresAt := now + INVITE_TOKEN_TTL_MS;
      ghost var before := store.invites;
      store := store.(invites := DropPending(store.invites, workspaceId, email));
      assert forall h :: h in before && h !in store.invites ==>
        before[h] == PendingInvite(workspaceId, email, before[h]);
      if tokenHash in store.invites || !NoInvite(store.invites, workspaceId, email) {
        return Err(UniqueViolation);
      }
      var invite := WorkspaceInvite(workspaceId, email, role, expiresAt, None);
      store := store.(invites := store.invites[tokenHash := invite]);
      return Ok(Pending(tokenHash));
    }

    method Invite(workspaceId: Id, userId: Id, email: Id, role: WorkspaceRole, tokenHash: Id, now: int)
      returns (result: Result<InviteResult>)
      requires Valid()
      modifies this
      ensures Valid()
      ensures var step := InviteMember(workspaceId, userId, email, role, tokenHash, now + INVITE_TOKEN_TTL_MS);
        store == Next(old(store), step).GetOr(old(store))
      ensures result == Err(NotFound) <==> workspaceId !in old(store).workspaces
      ensures result == Err(Forbidden) <==>
        && workspaceId in old(store).workspaces
        && !HasRole(old(store), workspaceId, userId, Admin)
        && !(HasRole(old(store), workspaceId, userId, Manager) && role != Admin)
      ensures result == Err(BadRequest) <==>
        && workspaceId in old(store).workspaces && MayInvite(old(store), workspaceId, userId, role)
        && old(store).users[userId] == email
      ensures result == Err(Conflict) <==>
        && workspaceId in old(store).workspaces && MayInvite(old(store), workspaceId, userId, role)
        && exists u :: u != userId && u in old(store).users && old(store).users[u] == email
             && (workspaceId, u) in old(store).members
      ensures result.Ok? && result.value.Added? ==>
        store == old(store).(members := old(store).members[(workspaceId, result.value.user) := role])
      ensures result.Ok? && result.value.Added? ==> store.users[result.value.user] == email
      ensures result.Ok? && result.value.Added? ==> (workspaceId, result.value.user) !in old(store).members
      ensures result.Ok? && result.value.Pending? ==> !EmailTaken(old(store), email) && tokenHash in store.invites
    {
      if workspaceId !in store.workspaces { return Err(NotFound); }
      if !IsAgency(store, workspaceId, userId) { return Err(Forbidden); }
      if role == Admin && !HasRole(store, workspaceId, userId, Admin) { return Err(Forbidden); }
      ghost var step := InviteMember(workspaceId, userId, email, role, tokenHash, now + INVITE_TOKEN_TTL_MS);
      var targetUser := FindByEmail(email);
      if targetUser.None? {
        NextKeepsInv(store, step, Next(store, step).value);
        result := CreateEmailInvite(workspaceId, email, role, tokenHash, now);
        return;
      }
      if targetUser.value == userId { return Err(BadRequest); }
      if (workspaceId, targetUser.value) in store.members { return Err(Conflict); }
      NextKeepsInv(store, step, Next(store, step).value);
      store := store.(members := store.members[(workspaceId, targetUser.value) := role]);
      return Ok(Added(targetUser.value));
    }

    method AssertNotLastAdmin(workspaceId: Id) returns (ok: bool)
      ensures ok <==> NotLastAdmin(store, workspaceId)
      ensures ok <==>
        exists u, v :: u != v && HasRole(store, workspaceId, u, Admin) && HasRole(store, workspaceId, v, Admin)
    {
      var adminCount := |Admins(store, workspaceId)|;
      NotLastAdminMeansTwo(store, workspaceId);
      return !(adminCount <= 1);
    }

    method UpdateRole(workspaceId: Id, userId: Id, memberUserId: Id, role: WorkspaceRole)
      returns (result: Result<WorkspaceRole>)
      requires Valid()
      modifies this
      ensures Valid()
      ensures store ==
        Next(old(store), Membership.UpdateRole(workspaceId, userId, memberUserId, role)).GetOr(old(store))
      ensures result.Ok? <==> Next(old(store), Membership.UpdateRole(workspaceId, userId, memberUserId, role)).Some?
      ensures result == Err(NotFound) <==>
        || workspaceId !in old(store).workspaces
        || (HasRole(old(store), workspaceId, userId, Admin) && (workspaceId, memberUserId) !in old(store).members)
      ensures result == Err(Forbidden) <==>
        workspaceId in old(store).workspaces && !HasRole(old(store), workspaceId, userId, Admin)
      ensures result == Err(BadRequest) <==>
        && workspaceId in old(store).workspaces && HasRole(old(store), workspaceId, userId, Admin) && role != Admin
        && OnlyAdmin(old(store), workspaceId, memberUserId)
      ensures result.Ok? ==>
        && result == Ok(role)
        && store == old(store).(members := old(store).members[(workspaceId, memberUserId) := role])
      ensures result.Err? ==> store == old(store) && result.error != Conflict && result.error != UniqueViolation
    {
      if workspaceId !in store.workspaces { return Err(NotFound); }
      if !HasRole(store, workspaceId, userId, Admin) { return Err(Forbidden); }
      if (workspaceId, memberUserId) !in store.members { return Err(NotFound); }
      if store.members[(workspaceId, memberUserId)] == Admin && role != Admin {
        var ok := AssertNotLastAdmin(workspaceId);
        LastAdminIsOnlyAdmin(store, workspaceId, memberUserId);
        if !ok { return Err(BadRequest); }
      }
      ghost var step := Membership.UpdateRole(workspaceId, userId, memberUserId, role);
      NextKeepsInv(store, step, Next(store, step).value);
      store := store.(members := store.members[(workspaceId, memberUserId) := role]);
      return Ok(role);
    }

    method Remove(workspaceId: Id, userId: Id, memberUserId: Id) returns (result: Result<()>)
      requires Valid()
      modifies this
      ensures Valid()
      ensures store == Next(old(store), RemoveMember(workspaceId, userId, memberUserId)).GetOr(old(store))
      ensures result.Ok? <==> Next(old(store), RemoveMember(workspaceId, userId, memberUserId)).Some?
      ensures result == Err(NotFound) <==>
        || workspaceId !in old(store).workspaces
        || (HasRole(old(store), workspaceId, userId, Admin) && (workspaceId, memberUserId) !in old(store).members)
      ensures result == Err(Forbidden) <==>
        workspaceId in old(store).workspaces && !HasRole(old(store), workspaceId, userId, Admin)
      ensures result == Err(BadRequest) <==>
        && workspaceId in old(store).workspaces && HasRole(old(store), workspaceId, userId, Admin)
        && OnlyAdmin(old(store), workspaceId, memberUserId)
      ensures result.Ok? ==> store == old(store).(members := old(store).members - {(workspaceId, memberUserId)})
      ensures result.Err? ==> store == old(store) && result.error != Conflict && result.error != UniqueViolation
    {
      if workspaceId !in store.workspaces { return Err(NotFound); }
      if !HasRole(store, workspaceId, userId, Admin) { return Err(Forbidden); }
      if (workspaceId, memberUserId) !in store.members { return Err(NotFound); }
      if store.members[(workspaceId, memberUserId)] == Admin {
        var ok := AssertNotLastAdmin(workspaceId);
        LastAdminIsOnlyAdmin(store, workspaceId, memberUserId);
        if !ok { return Err(BadRequest); }
      }
      ghost var step := RemoveMember(workspaceId, userId, memberUserId);
      NextKeepsInv(store, step, Next(store, step).value);
      store := store.(members := store.members - {(workspaceId, memberUserId)});
      return Ok(());
    }

    /** One transaction: upsert the membership, stamp the invite. */
    method Commit(hash: Id, userId: Id)
      requires Valid() && hash in store.invites && userId in store.users
      modifies this
      ensures Valid() && store == CommitAccept(old(store), hash, userId)
    {
      var invite := store.invites[hash];
      CommitKeepsInv(store, hash, userId);
      store := store.(members := store.members[(invite.ws, userId) := invite.role]);
      store := store.(invites := store.invites[hash := invite.(accepted := Some(userId))]);
    }

    /** `expiresAt < now` is refused, so an invite is still good at the very moment it expires. */
    method AcceptInviteToken(tokenHash: Id, userId: Id, now: int) returns (result: Result<WorkspaceRole>)
      requires Valid()
      modifies this
      ensures Valid()
      ensures result.Ok? <==> MayAccept(old(store), tokenHash, userId, now)
      ensures result.Ok? ==> Some(store) == Next(old(store), AcceptInvite(tokenHash, userId))
      ensures result.Ok? ==> result == Ok(old(store).invites[tokenHash].role)
      ensures result.Err? ==> store == old(store)
    {
      if tokenHash !in store.invites { return Err(BadRequest); }
      if store.invites[tokenHash].accepted.Some? || store.invites[tokenHash].expiresAt < now {
        return Err(BadRequest);
      }
      if userId !in store.users { return Err(NotFound); }
      if store.users[userId] != store.invites[tokenHash].email { return Err(BadRequest); }
      var role := store.invites[tokenHash].role;
      Commit(tokenHash, userId);
      return Ok(role);
    }

    /** `findMany`, in whatever order the database lists the rows. */
    method FindPending(email: Id, now: int) returns (list: seq<Id>)
      ensures NoDup(list) && Elems(list) == PendingFor(store.invites, email, now)
      ensures forall h :: h in list ==> h in store.invites && store.invites[h].email == email
    {
      var left := PendingFor(store.invites, email, now);
      list := [];
      while left != {}
        invariant NoDup(list) && Elems(list) !! left && Elems(list) + left == PendingFor(store.invites, email, now)
        decreases left
      {
        var h: Id :| h in left;
        assert Elems(list + [h]) == Elems(list) + {h};
        list, left := list + [h], left - {h};
      }
      assert forall h :: h in list ==> h in Elems(list);
    }

    /** Accepts exactly the pending, unexpired invites of the address, and counts them. */
    method AcceptPendingInvitesForEmail(userId: Id, email: Id, now: int) returns (accepted: nat)
      requires Valid() && userId in store.users
      modifies this
      ensures Valid()
      ensures accepted == |PendingFor(old(store).invites, email, now)|
      ensures Accepted(old(store), store, PendingFor(old(store).invites, email, now), userId)
      ensures PendingFor(store.invites, email, now) == {}
      ensures store.invites.Keys == old(store).invites.Keys
      ensures forall h :: h in old(store).invites && h in store.invites ==>
        (store.invites[h].accepted ==
         if old(store).invites[h].email == email && old(store).invites[h].accepted.None?
            && old(store).invites[h].expiresAt > now then Some(userId)
         else old(store).invites[h].accepted)
    {
      ghost var before := store;
      var pendingInvites := FindPending(email, now);
      accepted := 0;
      for i := 0 to |pendingInvites|
        invariant Valid() && store.users == before.users && accepted == i
        invariant forall h :: h in pendingInvites ==> h in before.invites
        invariant store == AcceptAll(before, pendingInvites[..i], userId)
      {
        assert pendingInvites[..i + 1][..i] == pendingInvites[..i];
        Commit(pendingInvites[i], userId);
        accepted := accepted + 1;
      }
      assert pendingInvites[..|pendingInvites|] == pendingInvites;
      PendingAccepted(before, pendingInvites, userId, email, now);
      PendingAreTaken(before, store, userId, email, now);
    }
  }
}
