/**
 `TasksTransitionService.transition`: an optimistic, all-or-nothing update of
 the task, its event log, the acknowledgement, approval and comment tables, the
 project membership and the notifications.
 */
module TaskStore {
  import opened Prelude
  import opened TaskTransition

  datatype Task = Task(projectId: Id, workspaceId: Id, status: TaskStatus)
  datatype TaskEvent = TaskEvent(
    taskId: Id, actorId: Id, eventType: TaskEventType, fromStatus: TaskStatus, toStatus: TaskStatus,
    approvalType: Option<ClientApprovalType>, comment: Option<string>)
  /** Rows that point at an event hold its position in the event table. */
  datatype Ack = Ack(taskId: Id, taskEventId: nat, actorId: Id)
  datatype Approval = Approval(
    taskId: Id, taskEventId: nat, actorId: Id, action: ClientApprovalType, comment: Option<string>)
  datatype Comment = Comment(taskId: Id, authorId: Id, body: string)
  datatype WorkspaceMember = WorkspaceMember(workspaceId: Id, userId: Id, role: WorkspaceRole)
  datatype ProjectMember = ProjectMember(projectId: Id, userId: Id)
  datatype Notification = Notification(userId: Id, workspaceId: Id, projectId: Id, taskId: Id, clientHandoff: bool)

  datatype Tables = Tables(
    tasks: map<Id, Task>, events: seq<TaskEvent>, acks: seq<Ack>, approvals: seq<Approval>, comments: seq<Comment>,
    workspaceMembers: seq<WorkspaceMember>, projectMembers: seq<ProjectMember>, notifications: seq<Notification>)

  datatype Dto = Dto(to: TaskStatus, comment: Option<string>, clientUserIds: seq<Id>)
  /** A request in flight: the task as it was loaded, the actor and the role the actor had then. */
  datatype Request = Request(taskId: Id, loaded: Task, userId: Id, role: WorkspaceRole, dto: Dto)

  datatype Outcome =
    | NoOp(status: TaskStatus)
    | Forbidden
    | BadRequest
    | Conflict
    | NotFound
    | Moved(mail: Option<seq<Id>>)   // recipients of the hand-off mail, if there is one

  function ClientIds(members: seq<WorkspaceMember>, workspaceId: Id): seq<Id> {
    if members == [] then []
    else
      var rest := ClientIds(members[1..], workspaceId);
      if members[0].workspaceId == workspaceId && members[0].role == ClientView
      then [members[0].userId] + rest else rest
  }

  /** `projectMember.findMany({ projectId, userId: { in: ids } })` */
  function MembersAmong(members: seq<ProjectMember>, projectId: Id, ids: seq<Id>): seq<Id> {
    if members == [] then []
    else
      var rest := MembersAmong(members[1..], projectId, ids);
      if members[0].projectId == projectId && members[0].userId in ids then [members[0].userId] + rest else rest
  }

  function ListProjectClientUserIds(db: Tables, projectId: Id, workspaceId: Id): seq<Id> {
    MembersAmong(db.projectMembers, projectId, ClientIds(db.workspaceMembers, workspaceId))
  }

  /** `createMany` with `skipDuplicates`. */
  function AddMembers(members: seq<ProjectMember>, projectId: Id, ids: seq<Id>): seq<ProjectMember> {
    if ids == [] then members
    else
      var more := AddMembers(members, projectId, ids[..|ids| - 1]);
      var m := ProjectMember(projectId, ids[|ids| - 1]);
      if m in more then more else more + [m]
  }

  function UserIds(members: seq<WorkspaceMember>, workspaceId: Id): seq<Id> {
    if members == [] then []
    else
      var rest := UserIds(members[1..], workspaceId);
      if members[0].workspaceId == workspaceId then [members[0].userId] + rest else rest
  }

  function Except(ids: seq<Id>, userId: Id): seq<Id> {
    if ids == [] then []
    else
      var rest := Except(ids[1..], userId);
      if ids[0] == userId then rest else [ids[0]] + rest
  }

  /** No id is missing from the workspace's client members. */
  predicate AllClients(members: seq<WorkspaceMember>, workspaceId: Id, ids: seq<Id>) {
    var available := ClientIds(members, workspaceId);
    forall u :: u in ids ==> u in available
  }

  /** Who the hand-off goes to; None when the request is rejected. */
  function Recipients(db: Tables, q: Request): Option<seq<Id>> {
    if |q.dto.clientUserIds| > 0 then
      var ids := Dedup(q.dto.clientUserIds);
      if AllClients(db.workspaceMembers, q.loaded.workspaceId, ids) then Some(ids) else None
    else
      var ids := ListProjectClientUserIds(db, q.loaded.projectId, q.loaded.workspaceId);
      if ids == [] then None else Some(ids)
  }

  lemma SameRecipients(db: Tables, db': Tables, q: Request)
    requires db.workspaceMembers == db'.workspaceMembers && db.projectMembers == db'.projectMembers
    ensures Recipients(db, q) == Recipients(db', q)
  {
  }

  function CommentText(q: Request): Option<string> {
    if q.dto.comment.Some? then Some(Trim(q.dto.comment.value)) else None
  }

  function EventOf(q: Request, resolved: Resolved, text: Option<string>): TaskEvent {
    TaskEvent(q.taskId, q.userId, resolved.eventType, q.loaded.status, q.dto.to, resolved.approvalType, text)
  }

  /** The users told about a committed move. */
  function Notified(members: seq<WorkspaceMember>, q: Request, clientUserIds: seq<Id>): seq<Id> {
    Dedup(Except(
      Dedup(if q.dto.to == ClientHandoff then clientUserIds else UserIds(members, q.loaded.workspaceId)), q.userId))
  }

  function Notices(q: Request, ids: seq<Id>): seq<Notification> {
    if ids == [] then []
    else
      Notices(q, ids[..|ids| - 1]) +
      [Notification(ids[|ids| - 1], q.loaded.workspaceId, q.loaded.projectId, q.taskId, q.dto.to == ClientHandoff)]
  }

  /** All tables after a committed move. */
  function Commit(db: Tables, q: Request, resolved: Resolved, text: Option<string>, clientUserIds: seq<Id>): Tables
    requires q.taskId in db.tasks
  {
    var event := EventOf(q, resolved, text);
    var id := |db.events|;
    db.(
      tasks := db.tasks[q.taskId := db.tasks[q.taskId].(status := q.dto.to)],
      events := db.events + [event],
      acks := if resolved.eventType == HandoffAck then db.acks + [Ack(q.taskId, id, q.userId)] else db.acks,
      approvals :=
        if resolved.eventType == ClientApprovalEvent && resolved.approvalType.Some?
        then db.approvals + [Approval(q.taskId, id, q.userId, resolved.approvalType.value, event.comment)]
        else db.approvals,
      comments :=
        if resolved.approvalType == Some(ChangesRequested) && event.comment.Some? && event.comment.value != ""
        then db.comments + [Comment(q.taskId, q.userId, event.comment.value)]
        else db.comments,
      projectMembers :=
        if q.dto.to == ClientHandoff && |q.dto.clientUserIds| > 0
        then AddMembers(db.projectMembers, q.loaded.projectId, clientUserIds) else db.projectMembers,
      notifications := db.notifications + Notices(q, Notified(db.workspaceMembers, q, clientUserIds)))
  }

  /** The transaction of a request that passed the rule checks. */
  function Commits(db: Tables, q: Request, resolved: Resolved, text: Option<string>): (Tables, Outcome) {
    var to := q.dto.to;
    if q.taskId !in db.tasks then (db, NotFound)
    else if db.tasks[q.taskId].status != q.loaded.status then
      (db, if db.tasks[q.taskId].status == to then NoOp(to) else Conflict)
    else if to == ClientHandoff then
      var ids := Recipients(db, q);
      if ids.None? then (db, BadRequest) else (Commit(db, q, resolved, text, ids.value), Moved(ids))
    else (Commit(db, q, resolved, text, []), Moved(None))
  }

  /** What `transition` does to the tables and what it answers. */
  function Decide(db: Tables, q: Request): (Tables, Outcome) {
    if q.loaded.status == q.dto.to then
      (db, if q.taskId in db.tasks then NoOp(db.tasks[q.taskId].status) else NotFound)
    else
      match AssertTransitionWithPayload(q.role, q.loaded.status, q.dto.to, q.dto.comment)
      case NotAllowed => (db, Forbidden)
      case Invalid => (db, BadRequest)
      case Allowed(resolved) => Commits(db, q, resolved, CommentText(q))
  }

  class TasksTransitionService {
    var tasks: map<Id, Task>
    var events: seq<TaskEvent>
    var acks: seq<Ack>
    var approvals: seq<Approval>
    var comments: seq<Comment>
    var workspaceMembers: seq<WorkspaceMember>
    var projectMembers: seq<ProjectMember>
    var notifications: seq<Notification>

    function Db(): Tables
      reads this
    {
      Tables(tasks, events, acks, approvals, comments, workspaceMembers, projectMembers, notifications)
    }

    constructor (db: Tables)
      ensures Db() == db
    {
      tasks, events, acks, approvals, comments := db.tasks, db.events, db.acks, db.approvals, db.comments;
      workspaceMembers, projectMembers, notifications := db.workspaceMembers, db.projectMembers, db.notifications;
    }

    method Transition(task: Task, taskId: Id, userId: Id, role: WorkspaceRole, dto: Dto) returns (outcome: Outcome)
      modifies this
      ensures (Db(), outcome) == Decide(old(Db()), Request(taskId, task, userId, role, dto))
    {
      var q := Request(taskId, task, userId, role, dto);
      var fromStatus := task.status;
      if fromStatus == dto.to {
        return if taskId in tasks then NoOp(tasks[taskId].status) else NotFound;
      }
      match AssertTransitionWithPayload(role, fromStatus, dto.to, dto.comment)
      case NotAllowed => return Forbidden;
      case Invalid => return BadRequest;
      case Allowed(resolved) =>
        var before := Db();
        outcome := Transaction(q, resolved, CommentText(q));
        if outcome.BadRequest? || outcome.Conflict? || outcome.NotFound? {
          Rollback(before);
        }
    }

    method Rollback(db: Tables)
      modifies this
      ensures Db() == db
    {
      tasks, events, acks, approvals, comments := db.tasks, db.events, db.acks, db.approvals, db.comments;
      workspaceMembers, projectMembers, notifications := db.workspaceMembers, db.projectMembers, db.notifications;
    }

    /** The body of `$transaction`; when it throws, the tables are left half written. */
    method Transaction(q: Request, resolved: Resolved, commentText: Option<string>) returns (outcome: Outcome)
      modifies this
      ensures outcome == Commits(old(Db()), q, resolved, commentText).1
      ensures outcome.Moved? || outcome.NoOp? ==> Db() == Commits(old(Db()), q, resolved, commentText).0
    {
      if q.taskId !in tasks {
        return NotFound;
      }
      if tasks[q.taskId].status != q.loaded.status {
        return if tasks[q.taskId].status == q.dto.to then NoOp(q.dto.to) else Conflict;
      }
      outcome := Move(q, resolved, commentText);
    }

    /** The transaction once the guarded update has found the task. */
    method Move(q: Request, resolved: Resolved, commentText: Option<string>) returns (outcome: Outcome)
      requires q.taskId in tasks
      modifies this
      ensures q.dto.to != ClientHandoff ==>
        outcome == Moved(None) && Db() == Commit(old(Db()), q, resolved, commentText, [])
      ensures q.dto.to == ClientHandoff && Recipients(old(Db()), q).None? ==> outcome == BadRequest
      ensures q.dto.to == ClientHandoff && Recipients(old(Db()), q).Some? ==>
        && outcome == Moved(Recipients(old(Db()), q))
        && Db() == Commit(old(Db()), q, resolved, commentText, Recipients(old(Db()), q).value)
    {
      WriteTask(q, resolved, commentText);
      SameRecipients(old(Db()), Db(), q);

      var clientUserIds: seq<Id> := [];
      if q.dto.to == ClientHandoff {
        var found := HandoffClients(q);
        if found.None? { return BadRequest; }
        clientUserIds := found.value;
      }

      WriteMove(q, resolved, commentText, clientUserIds, old(Db()));
      return Moved(if q.dto.to == ClientHandoff && |clientUserIds| > 0 then Some(clientUserIds) else None);
    }

    /** The task's own row and, for a change request, the comment. */
    method WriteTask(q: Request, resolved: Resolved, commentText: Option<string>)
      requires q.taskId in tasks
      modifies this`tasks, this`comments
      ensures tasks == old(tasks)[q.taskId := old(tasks)[q.taskId].(status := q.dto.to)]
      ensures comments ==
        if resolved.approvalType == Some(ChangesRequested) && commentText.Some? && commentText.value != ""
        then old(comments) + [Comment(q.taskId, q.userId, commentText.value)] else old(comments)
    {
      tasks := tasks[q.taskId := tasks[q.taskId].(status := q.dto.to)];

      if resolved.approvalType == Some(ChangesRequested) && commentText.Some? && commentText.value != "" {
        comments := comments + [Comment(q.taskId, q.userId, commentText.value)];
      }
    }

    /** The rest of the transaction, once status, comment and project membership of `db` are updated. */
    method WriteMove(q: Request, resolved: Resolved, commentText: Option<string>, clientUserIds: seq<Id>,
                     ghost db: Tables)
      requires q.taskId in db.tasks
      requires var full := Commit(db, q, resolved, commentText, clientUserIds);
               Db() == db.(tasks := full.tasks, comments := full.comments, projectMembers := full.projectMembers)
      modifies this`events, this`acks, this`approvals, this`notifications
      ensures Db() == Commit(db, q, resolved, commentText, clientUserIds)
    {
      RecordMove(q, resolved, commentText);
      NotifyStatusChanged(q, clientUserIds);
    }

    /** The event row and the rows that hang on it. */
    method RecordMove(q: Request, resolved: Resolved, commentText: Option<string>)
      modifies this`events, this`acks, this`approvals
      ensures events == old(events) + [EventOf(q, resolved, commentText)]
      ensures acks ==
        if resolved.eventType == HandoffAck then old(acks) + [Ack(q.taskId, |old(events)|, q.userId)] else old(acks)
      ensures approvals ==
        if resolved.eventType == ClientApprovalEvent && resolved.approvalType.Some?
        then old(approvals) + [Approval(q.taskId, |old(events)|, q.userId, resolved.approvalType.value, commentText)]
        else old(approvals)
    {
      var eventId := |events|;
      events := events + [TaskEvent(
        q.taskId, q.userId, resolved.eventType, q.loaded.status, q.dto.to, resolved.approvalType, commentText)];
      if resolved.eventType == HandoffAck {
        acks := acks + [Ack(q.taskId, eventId, q.userId)];
      }
      if resolved.eventType == ClientApprovalEvent && resolved.approvalType.Some? {
        approvals := approvals + [Approval(q.taskId, eventId, q.userId, resolved.approvalType.value, commentText)];
      }
    }

    /** The `CLIENT_HANDOFF` branch of the transaction; None stands for a `BadRequestException`. */
    method HandoffClients(q: Request) returns (found: Option<seq<Id>>)
      modifies this`projectMembers
      ensures found == Recipients(old(Db()), q) && (found.Some? ==> found.value != [])
      ensures projectMembers ==
        if found.Some? && |q.dto.clientUserIds| > 0
        then AddMembers(old(projectMembers), q.loaded.projectId, found.value) else old(projectMembers)
    {
      var clientUserIds: seq<Id>;
      if |q.dto.clientUserIds| > 0 {
        var ok := EnsureProjectClients(q.loaded.projectId, q.loaded.workspaceId, q.dto.clientUserIds);
        if !ok { return None; }
        clientUserIds := Dedup(q.dto.clientUserIds);
        assert q.dto.clientUserIds[0] in clientUserIds;
      } else {
        clientUserIds := ListProjectClientUserIds(Db(), q.loaded.projectId, q.loaded.workspaceId);
      }
      return if |clientUserIds| == 0 then None else Some(clientUserIds);
    }

    /** False stands for a `BadRequestException`; nothing is asked for an empty selection. */
    method EnsureProjectClients(projectId: Id, workspaceId: Id, clientUserIds: seq<Id>) returns (ok: bool)
      modifies this`projectMembers
      ensures ok <==> AllClients(workspaceMembers, workspaceId, Dedup(clientUserIds))
      ensures projectMembers ==
        if ok then AddMembers(old(projectMembers), projectId, Dedup(clientUserIds)) else old(projectMembers)
    {
      var uniqueClientIds := Dedup(clientUserIds);
      if |uniqueClientIds| == 0 {
        return true;
      }
      ok := AllClients(workspaceMembers, workspaceId, uniqueClientIds);
      if ok {
        projectMembers := AddMembers(projectMembers, projectId, uniqueClientIds);
      }
    }

    /** `notifyStatusChanged` and, below it, `notifyWorkspaceMembers`. */
    method NotifyStatusChanged(q: Request, clientUserIds: seq<Id>)
      modifies this`notifications
      ensures notifications == old(notifications) + Notices(q, Notified(workspaceMembers, q, clientUserIds))
    {
      var recipientIds;
      if q.dto.to == ClientHandoff {
        recipientIds := Except(Dedup(clientUserIds), q.userId);
      } else {
        recipientIds := Except(Dedup(UserIds(workspaceMembers, q.loaded.workspaceId)), q.userId);
      }
      if |recipientIds| == 0 {
        assert Dedup(recipientIds) == [];
        assert notifications == notifications + [];
        return;
      }
      notifications := notifications + Notices(q, Dedup(recipientIds));
    }
  }
}
