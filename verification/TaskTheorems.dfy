/** The promises of the approval workflow over whole runs. */
module TaskTheorems {
  import opened Prelude
  import opened TaskTransition
  import opened TaskStore
  import opened TaskRuns

  ghost predicate Reached(w: World, run: seq<Step>, v: World) {
    Initial(w) && Execute(w, run) == Some(v)
  }

  /** The committed events of a task are an unbroken path of allowed moves from BRIEF to its status. */
  lemma LogIsAPath(w: World, run: seq<Step>, v: World, t: Id)
    requires Reached(w, run, v) && t in v.db.tasks
    ensures IsPath(LogOf(v.journal, t), v.db.tasks[t].status)
    ensures |v.journal| == |v.db.events|
    ensures forall i :: 0 <= i < |v.journal| ==> v.journal[i].event == v.db.events[i]
  {
    RunKeepsInv(w, run, v);
  }

  /** A committed move concerns a task that is not done. */
  lemma MoveIsElsewhere(w: World, r: Id, v: World, t: Id)
    requires r in w.requests && Next(w, Decided(r)) == Some(v) && Decide(w.db, w.requests[r]).1.Moved?
    requires t in w.db.tasks && w.db.tasks[t].status == Done
    ensures t in v.db.tasks && v.db.tasks[t] == w.db.tasks[t] && LogOf(v.journal, t) == LogOf(w.journal, t)
  {
    var q := w.requests[r];
    MovedMeans(w.db, q);
    assert q.taskId != t;
    var res, text := ResolveTransition(q.loaded.status, q.dto.to), CommentText(q);
    LogAppend(w.journal, Entry(EventOf(q, res, text), q.role), t);
  }

  lemma DoneByStep(w: World, s: Step, v: World, t: Id)
    requires Next(w, s) == Some(v) && t in w.db.tasks && w.db.tasks[t].status == Done
    ensures t in v.db.tasks && v.db.tasks[t] == w.db.tasks[t]
    ensures LogOf(v.journal, t) == LogOf(w.journal, t)
  {
    if s.Decided? {
      if Decide(w.db, w.requests[s.r]).1.Moved? {
        MoveIsElsewhere(w, s.r, v, t);
      } else {
        RejectedChangesNothing(w.db, w.requests[s.r]);
      }
    }
  }

  /** DONE is final: neither the status nor the log of a done task changes at any later point of the run. */
  lemma {:induction false} DoneIsFinal(w: World, run: seq<Step>, n: nat, v: World, t: Id)
    requires Reached(w, run, v) && n <= |run|
    ensures Execute(w, run[..n]).Some?
    ensures var mid := Execute(w, run[..n]).value;
            t in mid.db.tasks && mid.db.tasks[t].status == Done ==>
              t in v.db.tasks && v.db.tasks[t] == mid.db.tasks[t] && LogOf(v.journal, t) == LogOf(mid.journal, t)
  {
    if n < |run| {
      var front := run[..|run| - 1];
      var before := Execute(w, front).value;
      assert front[..n] == run[..n];
      DoneIsFinal(w, front, n, before, t);
      RunKeepsInv(w, front, before);
      if t in before.db.tasks && before.db.tasks[t].status == Done {
        DoneByStep(before, run[|run| - 1], v, t);
      }
    } else {
      assert run[..n] == run;
    }
  }

  predicate IsMove(e: Entry, from: TaskStatus, to: TaskStatus) {
    e.event.fromStatus == from && e.event.toStatus == to
  }

  predicate IsAgency(role: WorkspaceRole) {
    role in AGENCY_ROLES
  }

  /** The log ends with send, client acceptance, client approval and agency closure. */
  predicate EndsTwoSided(log: seq<Entry>) {
    var n := |log|;
    && n >= 4
    && IsMove(log[n - 4], InternalReview, ClientHandoff) && IsAgency(log[n - 4].role)
    && IsMove(log[n - 3], ClientHandoff, ClientApproval) && log[n - 3].role == ClientView
    && IsMove(log[n - 2], ClientApproval, PendingClosure) && log[n - 2].role == ClientView
    && IsMove(log[n - 1], PendingClosure, Done) && IsAgency(log[n - 1].role)
  }

  lemma PathToDone(log: seq<Entry>)
    requires IsPath(log, Done)
    ensures EndsTwoSided(log)
  {
    var n := |log|;
    assert IsPath(log[..n - 1], PendingClosure);
    assert log[..n - 1][..n - 2] == log[..n - 2];
    assert IsPath(log[..n - 2], ClientApproval);
    assert log[..n - 2][..n - 3] == log[..n - 3];
    assert IsPath(log[..n - 3], ClientHandoff);
  }

  /** Approval is two-sided in every finished task. */
  lemma ClosureIsTwoSided(w: World, run: seq<Step>, v: World, t: Id)
    requires Reached(w, run, v) && t in v.db.tasks && v.db.tasks[t].status == Done
    ensures EndsTwoSided(LogOf(v.journal, t))
  {
    RunKeepsInv(w, run, v);
    PathToDone(LogOf(v.journal, t));
  }

  /** How often the log makes the move. */
  function Moves(log: seq<Entry>, from: TaskStatus, to: TaskStatus): nat {
    if log == [] then 0
    else Moves(log[..|log| - 1], from, to) + if IsMove(log[|log| - 1], from, to) then 1 else 0
  }

  function One(b: bool): nat {
    if b then 1 else 0
  }

  lemma {:induction false} PathBalances(log: seq<Entry>, status: TaskStatus)
    requires IsPath(log, status)
    ensures Moves(log, InternalReview, ClientHandoff) ==
            Moves(log, ClientHandoff, InternalReview) + Moves(log, ClientHandoff, ClientApproval)
            + One(status == ClientHandoff)
    ensures Moves(log, ClientHandoff, ClientApproval) ==
            Moves(log, ClientApproval, PendingClosure) + Moves(log, ClientApproval, Production)
            + One(status == ClientApproval)
    ensures Moves(log, ClientApproval, PendingClosure) == One(status == PendingClosure || status == Done)
  {
    if log != [] {
      PathBalances(log[..|log| - 1], log[|log| - 1].event.fromStatus);
    }
  }

  /** Hand-offs are conserved: every send is recalled, acknowledged, or still waiting, and so on down the line. */
  lemma HandoffsBalance(w: World, run: seq<Step>, v: World, t: Id)
    requires Reached(w, run, v) && t in v.db.tasks
    ensures var log, status := LogOf(v.journal, t), v.db.tasks[t].status;
            var sends, recalls := Moves(log, InternalReview, ClientHandoff), Moves(log, ClientHandoff, InternalReview);
            var acks := Moves(log, ClientHandoff, ClientApproval);
            var approvals := Moves(log, ClientApproval, PendingClosure);
            var changes := Moves(log, ClientApproval, Production);
            && sends == recalls + acks + One(status == ClientHandoff)
            && acks == approvals + changes + One(status == ClientApproval)
            && (approvals == 1 <==> status == PendingClosure || status == Done)
            && approvals <= 1
  {
    RunKeepsInv(w, run, v);
    PathBalances(LogOf(v.journal, t), v.db.tasks[t].status);
  }

  lemma {:induction false} AcksAreEvents(events: seq<TaskEvent>)
    ensures forall a :: a in AcksOf(events) <==>
      a.taskEventId < |events| && AcceptsHandoff(events[a.taskEventId])
      && a == Ack(events[a.taskEventId].taskId, a.taskEventId, events[a.taskEventId].actorId)
    ensures NoDup(AcksOf(events))
  {
    if events != [] {
      AcksAreEvents(events[..|events| - 1]);
    }
  }

  /** The approval row the event calls for, if its move calls for one. */
  predicate IsApprovalOf(e: TaskEvent, i: nat, a: Approval) {
    && a == Approval(e.taskId, i, e.actorId, a.action, e.comment)
    && ((a.action == Approved && Approves(e)) || (a.action == ChangesRequested && RequestsChanges(e)))
  }

  lemma {:induction false} ApprovalsAreEvents(events: seq<TaskEvent>)
    ensures forall a :: a in ApprovalsOf(events) <==>
      a.taskEventId < |events| && IsApprovalOf(events[a.taskEventId], a.taskEventId, a)
    ensures NoDup(ApprovalsOf(events))
  {
    if events != [] {
      ApprovalsAreEvents(events[..|events| - 1]);
    }
  }

  /** What every committed event says about its move, status by status. */
  lemma EventsTellTheirMove(w: World, run: seq<Step>, v: World, i: nat)
    requires Reached(w, run, v) && i < |v.db.events|
    ensures var e := v.db.events[i];
      && (e.eventType == HandoffAck <==> e.fromStatus == ClientHandoff && e.toStatus == ClientApproval)
      && (e.eventType == ClientApprovalEvent <==>
            e.fromStatus == ClientApproval && (e.toStatus == PendingClosure || e.toStatus == Production))
      && (e.approvalType == Some(Approved) <==> e.fromStatus == ClientApproval && e.toStatus == PendingClosure)
      && (e.approvalType == Some(ChangesRequested) <==> e.fromStatus == ClientApproval && e.toStatus == Production)
  {
    RunKeepsInv(w, run, v);
    assert v.db.events[i] in v.db.events;
  }

  /**
   Acknowledgement rows are in bijection with the acceptances of a hand-off, and
   approval rows with the approvals and change requests, each agreeing with its
   event and telling which of the two it was.
   */
  lemma SideTablesMirrorEvents(w: World, run: seq<Step>, v: World)
    requires Reached(w, run, v)
    ensures NoDup(v.db.acks) && NoDup(v.db.approvals)
    ensures forall a :: a in v.db.acks <==>
      a.taskEventId < |v.db.events| && AcceptsHandoff(v.db.events[a.taskEventId])
      && a == Ack(v.db.events[a.taskEventId].taskId, a.taskEventId, v.db.events[a.taskEventId].actorId)
    ensures forall a :: a in v.db.approvals <==>
      a.taskEventId < |v.db.events| && IsApprovalOf(v.db.events[a.taskEventId], a.taskEventId, a)
  {
    RunKeepsInv(w, run, v);
    AcksAreEvents(v.db.events);
    ApprovalsAreEvents(v.db.events);
  }

  /** Every move from client approval back to production has a comment row of its own with its non-blank text. */
  lemma ChangeRequestsHaveComments(w: World, run: seq<Step>, v: World) returns (f: map<nat, nat>)
    requires Reached(w, run, v)
    ensures forall i :: i in f <==> 0 <= i < |v.db.events| && RequestsChanges(v.db.events[i])
    ensures forall i :: i in f ==> f[i] < |v.db.comments|
    ensures forall i :: i in f ==>
      var c, e := v.db.comments[f[i]], v.db.events[i];
      !IsBlank(c.body) && c.taskId == e.taskId && c.authorId == e.actorId && e.comment == Some(c.body)
    ensures forall i, j :: i in f && j in f && i != j ==> f[i] != f[j]
  {
    RunKeepsInv(w, run, v);
    f :| Matches(f, v.db.events, v.db.comments);
    forall i | i in f
      ensures i < |v.db.events| && !IsBlank(v.db.comments[f[i]].body)
    {
      assert v.db.events[i] in v.db.events;
    }
  }

  lemma {:induction false} ClientIdsAre(members: seq<WorkspaceMember>, workspaceId: Id)
    ensures forall u :: u in ClientIds(members, workspaceId) <==> WorkspaceMember(workspaceId, u, ClientView) in members
  {
    if members != [] {
      ClientIdsAre(members[1..], workspaceId);
      assert members == [members[0]] + members[1..];
    }
  }

  lemma {:induction false} MembersAmongAre(members: seq<ProjectMember>, projectId: Id, ids: seq<Id>)
    ensures NoDup(members) ==> NoDup(MembersAmong(members, projectId, ids))
    ensures forall u :: u in MembersAmong(members, projectId, ids) <==>
      u in ids && ProjectMember(projectId, u) in members
  {
    if members != [] {
      MembersAmongAre(members[1..], projectId, ids);
      assert members == [members[0]] + members[1..];
      if NoDup(members) {
        assert members[0] !in members[1..];
      }
    }
  }

  lemma {:induction false} ExceptAre(ids: seq<Id>, userId: Id)
    requires NoDup(ids)
    ensures NoDup(Except(ids, userId))
    ensures forall u :: u in Except(ids, userId) <==> u in ids && u != userId
  {
    if ids != [] {
      ExceptAre(ids[1..], userId);
      assert ids == [ids[0]] + ids[1..];
      assert ids[0] !in ids[1..];
    }
  }

  lemma {:induction false} NoticesAre(q: Request, ids: seq<Id>)
    ensures |Notices(q, ids)| == |ids|
    ensures forall i :: 0 <= i < |ids| ==>
      Notices(q, ids)[i] ==
      Notification(ids[i], q.loaded.workspaceId, q.loaded.projectId, q.taskId, q.dto.to == ClientHandoff)
  {
    if ids != [] {
      NoticesAre(q, ids[..|ids| - 1]);
    }
  }

  lemma {:induction false} UserIdsAre(members: seq<WorkspaceMember>, workspaceId: Id)
    ensures forall u :: u in UserIds(members, workspaceId) <==> IsMember(members, workspaceId, u)
  {
    if members != [] {
      UserIdsAre(members[1..], workspaceId);
      assert members == [members[0]] + members[1..];
    }
  }

  predicate IsMember(members: seq<WorkspaceMember>, workspaceId: Id, userId: Id) {
    exists m :: m in members && m.workspaceId == workspaceId && m.userId == userId
  }

  lemma RecipientsAre(db: Tables, q: Request)
    requires NoDup(db.projectMembers) && Recipients(db, q).Some?
    ensures var ids := Recipients(db, q).value;
            && ids != [] && NoDup(ids)
            && (forall u :: u in ids ==> WorkspaceMember(q.loaded.workspaceId, u, ClientView) in db.workspaceMembers)
            && (forall u :: u in ids ==>
                  if q.dto.clientUserIds == [] then ProjectMember(q.loaded.projectId, u) in db.projectMembers
                  else u in q.dto.clientUserIds)
            && (q.dto.clientUserIds != [] ==> forall u :: u in q.dto.clientUserIds ==> u in ids)
  {
    ClientIdsAre(db.workspaceMembers, q.loaded.workspaceId);
    if q.dto.clientUserIds == [] {
      MembersAmongAre(db.projectMembers, q.loaded.projectId, ClientIds(db.workspaceMembers, q.loaded.workspaceId));
    } else {
      assert q.dto.clientUserIds[0] in q.dto.clientUserIds;
    }
  }

  /**
   A committed hand-off goes to a non-empty list of distinct clients of the
   workspace, all members of the project once the commit is done; an explicit
   selection adds exactly the selected users, the default adds nobody.
   */
  lemma HandoffReachesProjectClients(w: World, run: seq<Step>, v: World, r: Id)
    requires Reached(w, run, v) && r in v.requests && Decide(v.db, v.requests[r]).1.Moved?
    ensures var q, (after, outcome) := v.requests[r], Decide(v.db, v.requests[r]);
            && (outcome.mail.Some? <==> q.dto.to == ClientHandoff)
            && (outcome.mail.Some? ==>
                  && outcome.mail.value != [] && NoDup(outcome.mail.value)
                  && forall u :: u in outcome.mail.value ==>
                       && WorkspaceMember(q.loaded.workspaceId, u, ClientView) in after.workspaceMembers
                       && ProjectMember(q.loaded.projectId, u) in after.projectMembers)
            && forall m :: m in after.projectMembers <==>
                 || m in v.db.projectMembers
                 || (q.dto.to == ClientHandoff && m.projectId == q.loaded.projectId && m.userId in q.dto.clientUserIds)
  {
    RunKeepsInv(w, run, v);
    var q := v.requests[r];
    MovedMeans(v.db, q);
    if q.dto.to == ClientHandoff {
      RecipientsAre(v.db, q);
      AddedMembers(v.db.projectMembers, q.loaded.projectId, Recipients(v.db, q).value);
    }
  }

  /** Whom a committed move concerns: the hand-off's clients, or else everybody in the workspace. */
  predicate Concerns(members: seq<WorkspaceMember>, q: Request, ids: seq<Id>, u: Id) {
    if q.dto.to == ClientHandoff then u in ids else IsMember(members, q.loaded.workspaceId, u)
  }

  lemma NotifiedAre(members: seq<WorkspaceMember>, q: Request, ids: seq<Id>)
    ensures NoDup(Notified(members, q, ids))
    ensures forall u :: u in Notified(members, q, ids) <==> u != q.userId && Concerns(members, q, ids, u)
  {
    UserIdsAre(members, q.loaded.workspaceId);
    ExceptAre(Dedup(if q.dto.to == ClientHandoff then ids else UserIds(members, q.loaded.workspaceId)), q.userId);
  }

  lemma CommitNotifies(db: Tables, q: Request)
    requires Decide(db, q).1.Moved?
    ensures var ids := if q.dto.to == ClientHandoff then Recipients(db, q).value else [];
            && Decide(db, q).1.mail == (if q.dto.to == ClientHandoff then Some(ids) else None)
            && Decide(db, q).0.notifications == db.notifications + Notices(q, Notified(db.workspaceMembers, q, ids))
  {
    MovedMeans(db, q);
  }

  /** `after` is `before` with one notification about the move for each of `told`. */
  predicate OneNoticeEach(before: seq<Notification>, after: seq<Notification>, q: Request, told: seq<Id>) {
    && |after| == |before| + |told| && before <= after
    && forall i :: 0 <= i < |told| ==>
         after[|before| + i] ==
         Notification(told[i], q.loaded.workspaceId, q.loaded.projectId, q.taskId, q.dto.to == ClientHandoff)
  }

  lemma NoticesAppended(before: seq<Notification>, q: Request, told: seq<Id>)
    ensures OneNoticeEach(before, before + Notices(q, told), q, told)
  {
    NoticesAre(q, told);
  }

  /** A committed move notifies each of its recipients once, and never the actor. */
  lemma EachRecipientNotifiedOnce(w: World, run: seq<Step>, v: World, r: Id) returns (told: seq<Id>)
    requires Reached(w, run, v) && r in v.requests && Decide(v.db, v.requests[r]).1.Moved?
    ensures NoDup(told)
    ensures var q, mail := v.requests[r], Decide(v.db, v.requests[r]).1.mail;
            forall u :: u in told <==>
              u != q.userId && Concerns(v.db.workspaceMembers, q, if mail.Some? then mail.value else [], u)
    ensures var q, after := v.requests[r], Decide(v.db, v.requests[r]).0;
            OneNoticeEach(v.db.notifications, after.notifications, q, told)
  {
    var q := v.requests[r];
    var ids := if q.dto.to == ClientHandoff then Recipients(v.db, q).value else [];
    CommitNotifies(v.db, q);
    told := Notified(v.db.workspaceMembers, q, ids);
    NotifiedAre(v.db.workspaceMembers, q, ids);
    NoticesAppended(v.db.notifications, q, told);
  }
}
