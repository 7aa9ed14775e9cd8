/** What `transition` answers and writes, told by statuses, roles and membership rows alone. */
module TaskAnswers {
  import opened Prelude
  import opened TaskTransition
  import opened TaskStore
  import opened TaskRuns
  import opened TaskTheorems

  predicate IsChangeRequest(q: Request) {
    q.loaded.status == ClientApproval && q.dto.to == Production
  }

  /** The loaded status may move to the wanted one by this role, and a change request has something to say. */
  predicate PassesChecks(q: Request) {
    && InMatrix(q.role, q.loaded.status, q.dto.to)
    && (IsChangeRequest(q) ==> q.dto.comment.Some? && !IsBlank(q.dto.comment.value))
  }

  ghost predicate IsClient(db: Tables, q: Request, u: Id) {
    WorkspaceMember(q.loaded.workspaceId, u, ClientView) in db.workspaceMembers
  }

  ghost predicate IsProjectClient(db: Tables, q: Request, u: Id) {
    IsClient(db, q, u) && ProjectMember(q.loaded.projectId, u) in db.projectMembers
  }

  /** There is somebody to hand off to: only clients are selected, or the project has a client. */
  ghost predicate CanHandOff(db: Tables, q: Request) {
    if q.dto.clientUserIds != [] then forall u :: u in q.dto.clientUserIds ==> IsClient(db, q, u)
    else exists u :: IsProjectClient(db, q, u)
  }

  lemma RecipientsIff(db: Tables, q: Request)
    ensures Recipients(db, q).Some? <==> CanHandOff(db, q)
    ensures Recipients(db, q).Some? ==> forall u :: u in Recipients(db, q).value <==>
      if q.dto.clientUserIds != [] then u in q.dto.clientUserIds else IsProjectClient(db, q, u)
  {
    ClientIdsAre(db.workspaceMembers, q.loaded.workspaceId);
    var clients := ClientIds(db.workspaceMembers, q.loaded.workspaceId);
    MembersAmongAre(db.projectMembers, q.loaded.projectId, clients);
    if q.dto.clientUserIds == [] {
      var ids := ListProjectClientUserIds(db, q.loaded.projectId, q.loaded.workspaceId);
      assert forall u :: u in ids <==> IsProjectClient(db, q, u);
      assert ids != [] ==> ids[0] in ids;
    }
  }

  lemma ChecksAre(q: Request)
    requires q.loaded.status != q.dto.to
    ensures var check := AssertTransitionWithPayload(q.role, q.loaded.status, q.dto.to, q.dto.comment);
      && (check.Allowed? <==> PassesChecks(q))
      && (check.NotAllowed? <==> !InMatrix(q.role, q.loaded.status, q.dto.to))
  {
    RulesAreTheMatrix(q.role, q.loaded.status, q.dto.to);
  }

  /** The guarded update finds the task in the status the request loaded. */
  predicate FindsTask(db: Tables, q: Request) {
    q.taskId in db.tasks && db.tasks[q.taskId].status == q.loaded.status
  }

  /** A request moves the task exactly when the checks pass, the task is as loaded, and a hand-off reaches somebody. */
  lemma MovedIff(db: Tables, q: Request)
    ensures Decide(db, q).1.Moved? <==>
      PassesChecks(q) && FindsTask(db, q) && (q.dto.to == ClientHandoff ==> CanHandOff(db, q))
  {
    RecipientsIff(db, q);
    if q.loaded.status != q.dto.to {
      ChecksAre(q);
    }
  }

  /** When it does not, it says why. */
  lemma RefusalIs(db: Tables, q: Request)
    ensures Decide(db, q).1 == Forbidden <==>
      q.loaded.status != q.dto.to && !InMatrix(q.role, q.loaded.status, q.dto.to)
    ensures Decide(db, q).1 == BadRequest <==>
      && InMatrix(q.role, q.loaded.status, q.dto.to)
      && (!PassesChecks(q) || (FindsTask(db, q) && q.dto.to == ClientHandoff && !CanHandOff(db, q)))
    ensures Decide(db, q).1 == NotFound <==>
      q.taskId !in db.tasks && (PassesChecks(q) || q.loaded.status == q.dto.to)
    ensures Decide(db, q).1 == Conflict <==>
      && PassesChecks(q) && q.taskId in db.tasks
      && db.tasks[q.taskId].status != q.loaded.status && db.tasks[q.taskId].status != q.dto.to
    ensures Decide(db, q).1.NoOp? <==>
      && q.taskId in db.tasks
      && (q.loaded.status == q.dto.to
          || (PassesChecks(q) && !FindsTask(db, q) && db.tasks[q.taskId].status == q.dto.to))
    ensures Decide(db, q).1.NoOp? ==> Decide(db, q).1 == NoOp(db.tasks[q.taskId].status)
  {
    RecipientsIff(db, q);
    if q.loaded.status != q.dto.to {
      ChecksAre(q);
    }
  }

  /** The comment as it is stored: trimmed, if there is one. */
  function StoredComment(q: Request): Option<string> {
    if q.dto.comment.Some? then Some(Trim(q.dto.comment.value)) else None
  }

  /** What a committed move writes, table by table. */
  lemma MoveWrites(db: Tables, q: Request)
    requires Decide(db, q).1.Moved?
    ensures var after, n := Decide(db, q).0, |db.events|;
      && q.taskId in db.tasks && after.tasks == db.tasks[q.taskId := db.tasks[q.taskId].(status := q.dto.to)]
      && |after.events| == n + 1 && db.events <= after.events
      && TellsMove(after.events[n], q)
      && after.workspaceMembers == db.workspaceMembers
  {
    MovedMeans(db, q);
  }

  /** The event names the task, the actor, the move and the comment, and is of the kind the move calls for. */
  predicate TellsMove(e: TaskEvent, q: Request) {
    && e.taskId == q.taskId && e.actorId == q.userId
    && e.fromStatus == q.loaded.status && e.toStatus == q.dto.to && e.comment == StoredComment(q)
    && EventOk(e)
  }

  /** Acknowledgement, approval and comment rows of a committed move, by the move alone. */
  lemma MoveWritesBeside(db: Tables, q: Request)
    requires Decide(db, q).1.Moved?
    ensures var after, n, from, to := Decide(db, q).0, |db.events|, q.loaded.status, q.dto.to;
      && after.acks == db.acks + (if from == ClientHandoff && to == ClientApproval
                                  then [Ack(q.taskId, n, q.userId)] else [])
      && after.approvals == db.approvals + (
           if from == ClientApproval && to == PendingClosure
           then [Approval(q.taskId, n, q.userId, Approved, StoredComment(q))]
           else if from == ClientApproval && to == Production
           then [Approval(q.taskId, n, q.userId, ChangesRequested, StoredComment(q))] else [])
      && (IsChangeRequest(q) ==> StoredComment(q).Some?)
      && after.comments == db.comments + (if IsChangeRequest(q)
                                          then [Comment(q.taskId, q.userId, StoredComment(q).value)] else [])
  {
    MovedMeans(db, q);
    BesideCommit(db, q, CommentText(q), if q.dto.to == ClientHandoff then Recipients(db, q).value else []);
  }

  lemma BesideCommit(db: Tables, q: Request, text: Option<string>, ids: seq<Id>)
    requires q.taskId in db.tasks
    requires IsChangeRequest(q) ==> text.Some? && text.value != ""
    ensures var after := Commit(db, q, ResolveTransition(q.loaded.status, q.dto.to), text, ids);
      var n, from, to := |db.events|, q.loaded.status, q.dto.to;
      && after.acks == db.acks + (if from == ClientHandoff && to == ClientApproval
                                  then [Ack(q.taskId, n, q.userId)] else [])
      && after.approvals == db.approvals + (
           if from == ClientApproval && to == PendingClosure then [Approval(q.taskId, n, q.userId, Approved, text)]
           else if from == ClientApproval && to == Production
           then [Approval(q.taskId, n, q.userId, ChangesRequested, text)] else [])
      && after.comments == db.comments + (if IsChangeRequest(q) then [Comment(q.taskId, q.userId, text.value)] else [])
  {
    assert db.acks + [] == db.acks && db.approvals + [] == db.approvals && db.comments + [] == db.comments;
  }

  /** The hand-off mail goes to exactly the selected clients, or to exactly the project's when none is selected. */
  lemma MailGoesTo(db: Tables, q: Request)
    requires Decide(db, q).1.Moved?
    ensures var mail := Decide(db, q).1.mail;
      && (mail.Some? <==> q.dto.to == ClientHandoff)
      && (mail.Some? ==> forall u :: u in mail.value <==>
            if q.dto.clientUserIds != [] then u in q.dto.clientUserIds else IsProjectClient(db, q, u))
      && (mail.Some? ==> forall u :: u in mail.value ==> IsClient(db, q, u))
  {
    RecipientsIff(db, q);
    CommitNotifies(db, q);
    MovedIff(db, q);
  }

  // Where the roles in the journal come from

  lemma {:induction false} RoleOfIs(members: seq<WorkspaceMember>, workspaceId: Id, userId: Id)
    requires UniqueMembers(members, [])
    ensures RoleOf(members, workspaceId, userId).None? <==> !IsMember(members, workspaceId, userId)
    ensures forall r :: RoleOf(members, workspaceId, userId) == Some(r) <==>
      WorkspaceMember(workspaceId, userId, r) in members
  {
    if members != [] {
      RoleOfIs(members[1..], workspaceId, userId);
      assert members == [members[0]] + members[1..];
      forall m | m in members[1..]
        ensures m.workspaceId != members[0].workspaceId || m.userId != members[0].userId
      {
        var i :| 0 <= i < |members| - 1 && members[1..][i] == m;
        assert members[i + 1] == m;
      }
    }
  }

  /** At some point of the run the user was a member of the workspace with that role. */
  ghost predicate HeldRole(w: World, run: seq<Step>, workspaceId: Id, userId: Id, role: WorkspaceRole) {
    exists n :: 0 <= n <= |run| && HadRole(w, run, n, workspaceId, userId, role)
  }

  ghost predicate HadRole(w: World, run: seq<Step>, n: nat, workspaceId: Id, userId: Id, role: WorkspaceRole)
    requires n <= |run|
  {
    && Execute(w, run[..n]).Some?
    && WorkspaceMember(workspaceId, userId, role) in Execute(w, run[..n]).value.db.workspaceMembers
  }

  lemma HeldRoleStays(w: World, run: seq<Step>, workspaceId: Id, userId: Id, role: WorkspaceRole)
    requires run != [] && HeldRole(w, run[..|run| - 1], workspaceId, userId, role)
    ensures HeldRole(w, run, workspaceId, userId, role)
  {
    var front := run[..|run| - 1];
    var n :| 0 <= n <= |front| && HadRole(w, front, n, workspaceId, userId, role);
    assert front[..n] == run[..n];
    assert HadRole(w, run, n, workspaceId, userId, role);
  }

  ghost predicate RequestRoles(w: World, run: seq<Step>, v: World) {
    forall r :: r in v.requests ==>
      HeldRole(w, run, v.requests[r].loaded.workspaceId, v.requests[r].userId, v.requests[r].role)
  }

  /** Every request in flight decides with a role its actor held in the task's workspace when it was read. */
  lemma {:induction false} RolesWereHeld(w: World, run: seq<Step>, v: World)
    requires Reached(w, run, v)
    ensures RequestRoles(w, run, v)
  {
    if run != [] {
      var front, s := run[..|run| - 1], run[|run| - 1];
      var before := Execute(w, front).value;
      RolesWereHeld(w, front, before);
      forall r | r in v.requests
        ensures HeldRole(w, run, v.requests[r].loaded.workspaceId, v.requests[r].userId, v.requests[r].role)
      {
        RoleWasHeld(w, run, before, v, r);
      }
    }
  }

  lemma NewRequestReadsRole(w: World, s: Step, v: World, r: Id)
    requires TablesOk(w.db) && Next(w, s) == Some(v) && r in v.requests
    requires !(r in w.requests && w.requests[r] == v.requests[r])
    ensures var q := v.requests[r];
      WorkspaceMember(q.loaded.workspaceId, q.userId, q.role) in w.db.workspaceMembers
  {
    var q := v.requests[r];
    RoleOfIs(w.db.workspaceMembers, q.loaded.workspaceId, q.userId);
  }

  lemma RoleWasHeld(w: World, run: seq<Step>, before: World, v: World, r: Id)
    requires Reached(w, run, v) && run != [] && Execute(w, run[..|run| - 1]) == Some(before)
    requires RequestRoles(w, run[..|run| - 1], before) && r in v.requests
    ensures HeldRole(w, run, v.requests[r].loaded.workspaceId, v.requests[r].userId, v.requests[r].role)
  {
    var q := v.requests[r];
    if r in before.requests && before.requests[r] == q {
      HeldRoleStays(w, run, q.loaded.workspaceId, q.userId, q.role);
    } else {
      RunKeepsInv(w, run[..|run| - 1], before);
      NewRequestReadsRole(before, run[|run| - 1], v, r);
      assert HadRole(w, run, |run| - 1, q.loaded.workspaceId, q.userId, q.role);
    }
  }

  // Where requests come from

  /** Step `n` reads task `taskId` for request `r`, finding it as `loaded`. */
  ghost predicate ReadsTask(w: World, run: seq<Step>, n: nat, r: Id, taskId: Id, loaded: Task, userId: Id, dto: Dto)
    requires n < |run|
  {
    && run[n] == LoadTask(r, taskId, userId, dto) && Execute(w, run[..n]).Some?
    && taskId in Execute(w, run[..n]).value.db.tasks
    && Execute(w, run[..n]).value.db.tasks[taskId] == loaded
  }

  ghost predicate WasRead(w: World, run: seq<Step>, r: Id, taskId: Id, loaded: Task, userId: Id, dto: Dto) {
    exists n: nat :: n < |run| && ReadsTask(w, run, n, r, taskId, loaded, userId, dto)
  }

  lemma WasReadStays(w: World, run: seq<Step>, r: Id, taskId: Id, loaded: Task, userId: Id, dto: Dto)
    requires run != [] && WasRead(w, run[..|run| - 1], r, taskId, loaded, userId, dto)
    ensures WasRead(w, run, r, taskId, loaded, userId, dto)
  {
    var front := run[..|run| - 1];
    var n: nat :| n < |front| && ReadsTask(w, front, n, r, taskId, loaded, userId, dto);
    assert front[..n] == run[..n];
    assert ReadsTask(w, run, n, r, taskId, loaded, userId, dto);
  }

  lemma StepLoads(w: World, s: Step, v: World, r: Id)
    requires Next(w, s) == Some(v)
    ensures r in v.loading && !(r in w.loading && w.loading[r] == v.loading[r]) ==>
      var l := v.loading[r];
      s == LoadTask(r, l.taskId, l.userId, l.dto) && l.taskId in w.db.tasks && w.db.tasks[l.taskId] == l.loaded
    ensures r in v.requests && !(r in w.requests && w.requests[r] == v.requests[r]) ==>
      var q := v.requests[r];
      s == LoadRole(r) && r in w.loading && w.loading[r] == Loading(q.taskId, q.loaded, q.userId, q.dto)
  {
  }

  /** Every request carries what was asked and the task as it stood when it was read. */
  lemma {:induction false} RequestsWereRead(w: World, run: seq<Step>, v: World, r: Id)
    requires Reached(w, run, v)
    ensures r in v.loading ==>
      var l := v.loading[r]; WasRead(w, run, r, l.taskId, l.loaded, l.userId, l.dto)
    ensures r in v.requests ==>
      var q := v.requests[r]; WasRead(w, run, r, q.taskId, q.loaded, q.userId, q.dto)
  {
    if run != [] {
      var front, s := run[..|run| - 1], run[|run| - 1];
      var before := Execute(w, front).value;
      RequestsWereRead(w, front, before, r);
      StepLoads(before, s, v, r);
      if r in v.loading {
        var l := v.loading[r];
        if r in before.loading && before.loading[r] == l {
          WasReadStays(w, run, r, l.taskId, l.loaded, l.userId, l.dto);
        } else {
          assert ReadsTask(w, run, |run| - 1, r, l.taskId, l.loaded, l.userId, l.dto);
        }
      }
      if r in v.requests {
        var q := v.requests[r];
        WasReadStays(w, run, r, q.taskId, q.loaded, q.userId, q.dto);
      }
    }
  }

  /** A task stays in the project and workspace it was created in, and starts in BRIEF. */
  lemma {:induction false} TaskStaysWhereCreated(w: World, run: seq<Step>, n: nat, v: World, t: Id, p: Id, ws: Id)
    requires Reached(w, run, v) && n < |run| && run[n] == Create(t, p, ws)
    ensures t in v.db.tasks && v.db.tasks[t].projectId == p && v.db.tasks[t].workspaceId == ws
    ensures n == |run| - 1 ==> v.db.tasks[t].status == Brief
  {
    var front := run[..|run| - 1];
    var before := Execute(w, front).value;
    if n < |run| - 1 {
      TaskStaysWhereCreated(w, front, n, before, t, p, ws);
      TaskStaysPut(before, run[|run| - 1], v, t);
    }
  }

  lemma TaskStaysPut(w: World, s: Step, v: World, t: Id)
    requires Next(w, s) == Some(v) && t in w.db.tasks
    ensures t in v.db.tasks && v.db.tasks[t].(status := w.db.tasks[t].status) == w.db.tasks[t]
  {
    if s.Decided? {
      if Decide(w.db, w.requests[s.r]).1.Moved? {
        MoveWrites(w.db, w.requests[s.r]);
      } else {
        RejectedChangesNothing(w.db, w.requests[s.r]);
      }
    }
  }
}
