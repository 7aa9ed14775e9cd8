/** Every run of the approval workflow: any number of requests in flight, each deciding on a possibly stale task. */
module TaskRuns {
  import opened Prelude
  import opened TaskTransition
  import opened TaskStore

  /** A committed event and the role its actor had when the request was loaded. */
  datatype Entry = Entry(event: TaskEvent, role: WorkspaceRole)

  /** A request that has read its task but not yet its actor's role. */
  datatype Loading = Loading(taskId: Id, loaded: Task, userId: Id, dto: Dto)

  /** `journal` only records history: the event table with the loaded roles. */
  datatype World = World(db: Tables, loading: map<Id, Loading>, requests: map<Id, Request>, journal: seq<Entry>)

  datatype Step =
    | Create(taskId: Id, projectId: Id, workspaceId: Id)
    | LoadTask(r: Id, taskId: Id, userId: Id, dto: Dto)
    | LoadRole(r: Id)
    | Decided(r: Id)
    | AddComment(comment: Comment)
    | SetMembers(workspaceMembers: seq<WorkspaceMember>, projectMembers: seq<ProjectMember>)
    | SetInbox(notifications: seq<Notification>)

  function RoleOf(members: seq<WorkspaceMember>, workspaceId: Id, userId: Id): Option<WorkspaceRole> {
    if members == [] then None
    else if members[0].workspaceId == workspaceId && members[0].userId == userId then Some(members[0].role)
    else RoleOf(members[1..], workspaceId, userId)
  }

  /** The unique keys of the two membership tables. */
  ghost predicate UniqueMembers(ws: seq<WorkspaceMember>, pm: seq<ProjectMember>) {
    && (forall i, j :: 0 <= i < j < |ws| ==> ws[i].workspaceId != ws[j].workspaceId || ws[i].userId != ws[j].userId)
    && NoDup(pm)
  }

  ghost function Next(w: World, s: Step): Option<World> {
    match s
    case Create(t, p, ws) =>
      if t in w.db.tasks then None
      else Some(w.(db := w.db.(tasks := w.db.tasks[t := Task(p, ws, Brief)])))
    case LoadTask(r, t, u, dto) =>
      if r in w.loading || r in w.requests || t !in w.db.tasks then None
      else Some(w.(loading := w.loading[r := Loading(t, w.db.tasks[t], u, dto)]))
    case LoadRole(r) =>
      if r !in w.loading then None
      else
        var l := w.loading[r];
        var role := RoleOf(w.db.workspaceMembers, l.loaded.workspaceId, l.userId);
        var v := w.(loading := w.loading - {r});
        Some(if role.None? then v
             else v.(requests := v.requests[r := Request(l.taskId, l.loaded, l.userId, role.value, l.dto)]))
    case Decided(r) =>
      if r !in w.requests then None
      else
        var q := w.requests[r];
        var (db, outcome) := Decide(w.db, q);
        Some(World(db, w.loading, w.requests - {r},
                   if outcome.Moved? && |db.events| > 0
                   then w.journal + [Entry(db.events[|db.events| - 1], q.role)] else w.journal))
    case AddComment(c) =>
      if c.taskId !in w.db.tasks then None else Some(w.(db := w.db.(comments := w.db.comments + [c])))
    case SetMembers(ws, pm) =>
      if UniqueMembers(ws, pm) then Some(w.(db := w.db.(workspaceMembers := ws, projectMembers := pm))) else None
    case SetInbox(n) =>
      Some(w.(db := w.db.(notifications := n)))
  }

  ghost function Execute(w: World, run: seq<Step>): Option<World> {
    if run == [] then Some(w)
    else
      var before := Execute(w, run[..|run| - 1]);
      if before.None? then None else Next(before.value, run[|run| - 1])
  }

  ghost predicate Initial(w: World) {
    && w.db.tasks == map[] && w.db.events == [] && w.db.acks == [] && w.db.approvals == [] && w.db.comments == []
    && w.loading == map[] && w.requests == map[] && w.journal == []
    && UniqueMembers(w.db.workspaceMembers, w.db.projectMembers)
  }

  /** The journal of one task, in commit order. */
  function LogOf(journal: seq<Entry>, t: Id): seq<Entry> {
    if journal == [] then []
    else
      var front := LogOf(journal[..|journal| - 1], t);
      var last := journal[|journal| - 1];
      if last.event.taskId == t then front + [last] else front
  }

  /** An unbroken path of allowed moves from BRIEF to `status`. */
  predicate IsPath(log: seq<Entry>, status: TaskStatus) {
    if log == [] then status == Brief
    else
      var last := log[|log| - 1];
      && last.event.toStatus == status
      && InMatrix(last.role, last.event.fromStatus, last.event.toStatus)
      && IsPath(log[..|log| - 1], last.event.fromStatus)
  }

  ghost predicate Paths(w: World) {
    && (forall t :: t in w.db.tasks ==> IsPath(LogOf(w.journal, t), w.db.tasks[t].status))
    && (forall t :: t !in w.db.tasks ==> LogOf(w.journal, t) == [])
  }

  ghost predicate Journaled(w: World) {
    |w.journal| == |w.db.events| && forall i :: 0 <= i < |w.journal| ==> w.journal[i].event == w.db.events[i]
  }

  predicate IsBlank(s: string) {
    Trim(s) == ""
  }

  predicate AcceptsHandoff(e: TaskEvent) {
    e.fromStatus == ClientHandoff && e.toStatus == ClientApproval
  }

  predicate Approves(e: TaskEvent) {
    e.fromStatus == ClientApproval && e.toStatus == PendingClosure
  }

  predicate RequestsChanges(e: TaskEvent) {
    e.fromStatus == ClientApproval && e.toStatus == Production
  }

  /** What an event must say about its move; a change request carries a comment that is not blank. */
  predicate EventOk(e: TaskEvent) {
    && (e.eventType == HandoffAck <==> AcceptsHandoff(e))
    && (e.eventType == ClientApprovalEvent <==> Approves(e) || RequestsChanges(e))
    && (e.approvalType == Some(Approved) <==> Approves(e))
    && (e.approvalType == Some(ChangesRequested) <==> RequestsChanges(e))
    && (RequestsChanges(e) ==> e.comment.Some? && !IsBlank(e.comment.value))
  }

  /** The acknowledgement rows the event table calls for. */
  function AcksOf(events: seq<TaskEvent>): seq<Ack> {
    if events == [] then []
    else
      var n := |events| - 1;
      var e := events[n];
      if AcceptsHandoff(e) then AcksOf(events[..n]) + [Ack(e.taskId, n, e.actorId)] else AcksOf(events[..n])
  }

  function ApprovalsOf(events: seq<TaskEvent>): seq<Approval> {
    if events == [] then []
    else
      var n := |events| - 1;
      var e := events[n];
      if Approves(e) then ApprovalsOf(events[..n]) + [Approval(e.taskId, n, e.actorId, Approved, e.comment)]
      else if RequestsChanges(e) then
        ApprovalsOf(events[..n]) + [Approval(e.taskId, n, e.actorId, ChangesRequested, e.comment)]
      else ApprovalsOf(events[..n])
  }

  predicate IsCopy(e: TaskEvent, c: Comment) {
    e.comment.Some? && c == Comment(e.taskId, e.actorId, e.comment.value)
  }

  /** `f` gives every change request a comment row of its own: same task, author and text. */
  ghost predicate Matches(f: map<nat, nat>, events: seq<TaskEvent>, comments: seq<Comment>) {
    && (forall i :: 0 <= i < |events| && RequestsChanges(events[i]) <==> i in f)
    && (forall i :: i in f && i < |events| ==> f[i] < |comments| && IsCopy(events[i], comments[f[i]]))
    && (forall i, j :: i in f && j in f && i != j ==> f[i] != f[j])
  }

  ghost predicate HasComments(events: seq<TaskEvent>, comments: seq<Comment>) {
    exists f: map<nat, nat> :: Matches(f, events, comments)
  }

  /** The side tables fit the events. */
  ghost predicate TablesOk(db: Tables) {
    && (forall e :: e in db.events ==> EventOk(e))
    && db.acks == AcksOf(db.events)
    && db.approvals == ApprovalsOf(db.events)
    && HasComments(db.events, db.comments)
    && UniqueMembers(db.workspaceMembers, db.projectMembers)
  }

  ghost predicate Inv(w: World) {
    Paths(w) && Journaled(w) && TablesOk(w.db)
  }

  lemma LogAppend(journal: seq<Entry>, e: Entry, t: Id)
    ensures LogOf(journal + [e], t) == if e.event.taskId == t then LogOf(journal, t) + [e] else LogOf(journal, t)
  {
    assert (journal + [e])[..|journal|] == journal;
  }

  lemma PathAppend(log: seq<Entry>, e: Entry)
    requires IsPath(log, e.event.fromStatus) && InMatrix(e.role, e.event.fromStatus, e.event.toStatus)
    ensures IsPath(log + [e], e.event.toStatus)
  {
    assert (log + [e])[..|log|] == log;
  }

  /** What a committed request is known to satisfy. */
  lemma MovedMeans(db: Tables, q: Request)
    requires Decide(db, q).1.Moved?
    ensures var r := ResolveTransition(q.loaded.status, q.dto.to);
            && q.taskId in db.tasks && db.tasks[q.taskId].status == q.loaded.status
            && InMatrix(q.role, q.loaded.status, q.dto.to)
            && EventOk(EventOf(q, r, CommentText(q)))
            && Decide(db, q) == Commits(db, q, r, CommentText(q))
  {
    RulesAreTheMatrix(q.role, q.loaded.status, q.dto.to);
    if q.dto.comment.Some? {
      TrimIsTrimmed(q.dto.comment.value);
    }
  }

  /** The tables a commit leaves behind, table by table. */
  lemma CommitTables(db: Tables, q: Request, r: Resolved, text: Option<string>, ids: seq<Id>)
    requires q.taskId in db.tasks && r == ResolveTransition(q.loaded.status, q.dto.to)
    requires db.acks == AcksOf(db.events) && db.approvals == ApprovalsOf(db.events)
    ensures var after := Commit(db, q, r, text, ids);
            && after.events == db.events + [EventOf(q, r, text)]
            && after.acks == AcksOf(after.events) && after.approvals == ApprovalsOf(after.events)
  {
    var events := db.events + [EventOf(q, r, text)];
    assert events[..|db.events|] == db.events;
  }

  lemma MatchesAppend(f: map<nat, nat>, events: seq<TaskEvent>, comments: seq<Comment>, e: TaskEvent, c: Comment)
    requires Matches(f, events, comments)
    ensures !RequestsChanges(e) ==> Matches(f, events + [e], comments)
    ensures RequestsChanges(e) && IsCopy(e, c) ==> Matches(f[|events| := |comments|], events + [e], comments + [c])
  {
  }

  lemma ChangeRequestHasText(e: TaskEvent)
    requires EventOk(e)
    ensures RequestsChanges(e) ==> e.comment.Some? && e.comment.value != ""
  {
    assert IsBlank("");
  }

  lemma CommentsAppend(db: Tables, q: Request, r: Resolved, text: Option<string>, ids: seq<Id>)
    requires q.taskId in db.tasks && r == ResolveTransition(q.loaded.status, q.dto.to)
    requires HasComments(db.events, db.comments)
    requires RequestsChanges(EventOf(q, r, text)) ==> text.Some? && text.value != ""
    ensures var after := Commit(db, q, r, text, ids); HasComments(after.events, after.comments)
  {
    var f :| Matches(f, db.events, db.comments);
    var e := EventOf(q, r, text);
    MatchesAppend(f, db.events, db.comments, e, Comment(q.taskId, q.userId, if text.Some? then text.value else ""));
  }

  lemma MoveKeepsPaths(w: World, q: Request, v: World, e: Entry)
    requires Paths(w) && q.taskId in w.db.tasks
    requires v.db.tasks == w.db.tasks[q.taskId := w.db.tasks[q.taskId].(status := e.event.toStatus)]
    requires v.journal == w.journal + [e] && e.event.taskId == q.taskId
    requires e.event.fromStatus == w.db.tasks[q.taskId].status
    requires InMatrix(e.role, e.event.fromStatus, e.event.toStatus)
    ensures Paths(v)
  {
    forall t ensures LogOf(v.journal, t) == if t == q.taskId then LogOf(w.journal, t) + [e] else LogOf(w.journal, t) {
      LogAppend(w.journal, e, t);
    }
    PathAppend(LogOf(w.journal, q.taskId), e);
  }

  /** The world after a committed move. */
  lemma MoveIs(w: World, r: Id, v: World) returns (res: Resolved, text: Option<string>, ids: seq<Id>)
    requires r in w.requests && Next(w, Decided(r)) == Some(v) && Decide(w.db, w.requests[r]).1.Moved?
    ensures var q := w.requests[r];
            && res == ResolveTransition(q.loaded.status, q.dto.to) && EventOk(EventOf(q, res, text))
            && q.taskId in w.db.tasks && w.db.tasks[q.taskId].status == q.loaded.status
            && InMatrix(q.role, q.loaded.status, q.dto.to)
            && v.db == Commit(w.db, q, res, text, ids)
            && v.journal == w.journal + [Entry(EventOf(q, res, text), q.role)]
  {
    var q := w.requests[r];
    MovedMeans(w.db, q);
    res, text := ResolveTransition(q.loaded.status, q.dto.to), CommentText(q);
    ids := if q.dto.to == ClientHandoff then Recipients(w.db, q).value else [];
  }

  lemma MoveKeepsInv(w: World, r: Id, v: World)
    requires Inv(w) && r in w.requests && Next(w, Decided(r)) == Some(v) && Decide(w.db, w.requests[r]).1.Moved?
    ensures Inv(v)
  {
    var q := w.requests[r];
    var res, text, ids := MoveIs(w, r, v);
    CommitKeepsTables(w.db, q, res, text, ids);
    MoveKeepsPaths(w, q, v, Entry(EventOf(q, res, text), q.role));
  }

  lemma CommitKeepsTables(db: Tables, q: Request, r: Resolved, text: Option<string>, ids: seq<Id>)
    requires TablesOk(db) && q.taskId in db.tasks && r == ResolveTransition(q.loaded.status, q.dto.to)
    requires EventOk(EventOf(q, r, text))
    ensures TablesOk(Commit(db, q, r, text, ids))
  {
    CommitTables(db, q, r, text, ids);
    ChangeRequestHasText(EventOf(q, r, text));
    CommentsAppend(db, q, r, text, ids);
    AddedMembers(db.projectMembers, q.loaded.projectId, ids);
  }

  lemma {:induction false} AddedMembers(members: seq<ProjectMember>, projectId: Id, ids: seq<Id>)
    ensures var r := AddMembers(members, projectId, ids);
            && members <= r && (NoDup(members) ==> NoDup(r))
            && forall m :: m in r <==> m in members || (m.projectId == projectId && m.userId in ids)
  {
    if ids != [] {
      AddedMembers(members, projectId, ids[..|ids| - 1]);
      assert ids == ids[..|ids| - 1] + [ids[|ids| - 1]];
      var more := AddMembers(members, projectId, ids[..|ids| - 1]);
      var m := ProjectMember(projectId, ids[|ids| - 1]);
      assert forall x :: x in ids <==> x in ids[..|ids| - 1] || x == m.userId;
    }
  }

  lemma NextKeepsInv(w: World, s: Step, v: World)
    requires Inv(w) && Next(w, s) == Some(v)
    ensures Inv(v)
  {
    match s
    case Decided(r) =>
      if Decide(w.db, w.requests[r]).1.Moved? {
        MoveKeepsInv(w, r, v);
      } else {
        RejectedChangesNothing(w.db, w.requests[r]);
      }
    case AddComment(c) =>
      var f :| Matches(f, w.db.events, w.db.comments);
      assert Matches(f, v.db.events, v.db.comments);
    case _ =>
  }

  /** A no-op, a conflict or an error leaves every table as it was. */
  lemma RejectedChangesNothing(db: Tables, q: Request)
    requires !Decide(db, q).1.Moved?
    ensures Decide(db, q).0 == db
  {
  }

  lemma {:induction false} RunKeepsInv(w: World, run: seq<Step>, v: World)
    requires Initial(w) && Execute(w, run) == Some(v)
    ensures Inv(v)
  {
    if run == [] {
      assert Matches(map[], [], []);
    } else {
      var before := Execute(w, run[..|run| - 1]).value;
      RunKeepsInv(w, run[..|run| - 1], before);
      NextKeepsInv(before, run[|run| - 1], v);
    }
  }
}
