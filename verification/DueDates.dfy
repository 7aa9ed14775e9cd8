/**
 Due dates and their change log. An update reads the task first and writes the
 log row and the task later, in one transaction that does not look again.
 */
module DueDates {
  import opened Prelude
  import opened TaskTransition

  /** `dueAt` in the request: left out, cleared, or a time. */
  datatype NewDue = Undefined | Null | At(time: int)
  datatype UpdateTaskDueDto = UpdateTaskDueDto(dueAt: NewDue, reason: Option<string>)

  datatype DueChange = DueChange(
    task: Id, changedBy: Id, oldDueAt: Option<int>, newDueAt: Option<int>, reason: Option<string>)

  /** An update between its read of the task and its transaction. */
  datatype Update = Update(task: Id, user: Id, dto: UpdateTaskDueDto, loaded: Option<int>)

  datatype World = World(
    dueAt: map<Id, Option<int>>,      // tasks.due_at
    changes: seq<DueChange>,          // task_due_changes, in commit order
    updates: map<Id, Update>,
    created: map<Id, Option<int>>)    // history: the due date each task was created with

  datatype Step =
    | CreateTask(task: Id, due: Option<int>)
    | Load(c: Id, task: Id, user: Id, dto: UpdateTaskDueDto)
    | Finish(c: Id)

  predicate IsSameDueAt(left: Option<int>, right: Option<int>) {
    if left.None? && right.None? then true
    else if left.None? || right.None? then false
    else left.value == right.value
  }

  function NewDueAt(u: Update): Option<int> {
    match u.dto.dueAt
    case Undefined => u.loaded
    case Null => None
    case At(time) => Some(time)
  }

  predicate DueChanged(u: Update) {
    u.dto.dueAt != Undefined && !IsSameDueAt(u.loaded, NewDueAt(u))
  }

  function Row(u: Update): DueChange {
    DueChange(u.task, u.user, u.loaded, NewDueAt(u), u.dto.reason)
  }

  function Next(w: World, step: Step): Option<World> {
    match step
    case CreateTask(t, due) =>
      if t in w.dueAt then None else Some(w.(dueAt := w.dueAt[t := due], created := w.created[t := due]))
    case Load(c, t, user, dto) =>
      if c in w.updates || t !in w.dueAt then None
      else Some(w.(updates := w.updates[c := Update(t, user, dto, w.dueAt[t])]))
    case Finish(c) =>
      if c !in w.updates then None
      else
        var u := w.updates[c];
        var v := w.(updates := w.updates - {c});
        Some(if DueChanged(u) then v.(changes := v.changes + [Row(u)], dueAt := v.dueAt[u.task := NewDueAt(u)]) else v)
  }

  ghost predicate IsRun(states: seq<World>, steps: seq<Step>) {
    && |states| == |steps| + 1
    && states[0] == World(map[], [], map[], map[])
    && forall i :: 0 <= i < |steps| ==> Next(states[i], steps[i]) == Some(states[i + 1])
  }

  function LogOf(changes: seq<DueChange>, t: Id): seq<DueChange> {
    if changes == [] then []
    else
      var last := changes[|changes| - 1];
      LogOf(changes[..|changes| - 1], t) + if last.task == t then [last] else []
  }

  lemma LogOfAppend(changes: seq<DueChange>, row: DueChange, t: Id)
    ensures LogOf(changes + [row], t) == LogOf(changes, t) + if row.task == t then [row] else []
  {
    assert (changes + [row])[..|changes|] == changes;
  }

  /** The due date the log leads to. */
  function Current(created: Option<int>, log: seq<DueChange>): Option<int> {
    if log == [] then created else log[|log| - 1].newDueAt
  }

  /** Every row starts where the one before it, or the creation, ended. */
  ghost predicate IsChain(created: Option<int>, log: seq<DueChange>) {
    forall i :: 0 <= i < |log| ==> log[i].oldDueAt == Current(created, log[..i])
  }

  lemma ChainAppend(created: Option<int>, log: seq<DueChange>, row: DueChange)
    ensures IsChain(created, log + [row]) <==> IsChain(created, log) && row.oldDueAt == Current(created, log)
  {
    var longer := log + [row];
    forall i | 0 <= i < |longer|
      ensures longer[..i] == if i < |log| then log[..i] else log
      ensures i < |log| ==> longer[i] == log[i]
    {
    }
    assert IsChain(created, longer) ==> longer[|log|].oldDueAt == Current(created, longer[..|log|]);
    if IsChain(created, longer) {
      forall i | 0 <= i < |log|
        ensures log[i].oldDueAt == Current(created, log[..i])
      {
        assert longer[i].oldDueAt == Current(created, longer[..i]);
      }
    }
  }

  /** The task's log leads from its creation to its due date. */
  ghost predicate LedgerAt(w: World, t: Id) {
    && (t in w.dueAt <==> t in w.created)
    && (t in w.dueAt ==> w.dueAt[t] == Current(w.created[t], LogOf(w.changes, t)))
    && (t !in w.dueAt ==> LogOf(w.changes, t) == [])
  }

  ghost predicate Inv(w: World) {
    && (forall t :: LedgerAt(w, t))
    && (forall c :: c in w.updates ==> w.updates[c].task in w.dueAt)
    && (forall i :: 0 <= i < |w.changes| ==> w.changes[i].oldDueAt != w.changes[i].newDueAt)
  }

  /** The rows a step writes for `t`: at most one. */
  function Written(w: World, step: Step, t: Id): seq<DueChange> {
    if step.Finish? && step.c in w.updates && w.updates[step.c].task == t && DueChanged(w.updates[step.c])
    then [Row(w.updates[step.c])]
    else []
  }

  lemma StepEffect(w: World, step: Step, v: World, t: Id)
    requires Next(w, step) == Some(v)
    ensures LogOf(v.changes, t) == LogOf(w.changes, t) + Written(w, step, t)
    ensures t in w.dueAt ==> t in v.dueAt && v.dueAt[t] == Current(w.dueAt[t], Written(w, step, t))
  {
    if step.Finish? && DueChanged(w.updates[step.c]) {
      LogOfAppend(w.changes, Row(w.updates[step.c]), t);
    }
  }

  lemma CurrentOfAppend(created: Option<int>, log: seq<DueChange>, rows: seq<DueChange>)
    ensures Current(created, log + rows) == Current(Current(created, log), rows)
  {
    if rows == [] {
      assert log + rows == log;
    }
  }

  lemma LedgerStep(w: World, step: Step, v: World, t: Id)
    requires LedgerAt(w, t) && Next(w, step) == Some(v)
    requires step.Finish? ==> w.updates[step.c].task in w.dueAt
    ensures LedgerAt(v, t)
  {
    var log, rows := LogOf(w.changes, t), Written(w, step, t);
    StepEffect(w, step, v, t);
    if t in w.dueAt {
      CurrentOfAppend(w.created[t], log, rows);
      assert v.created[t] == w.created[t];
    } else {
      assert rows == [] && log + rows == [];
    }
  }

  lemma NextKeepsInv(w: World, step: Step, v: World)
    requires Inv(w) && Next(w, step) == Some(v)
    ensures Inv(v)
  {
    forall t: Id
      ensures LedgerAt(v, t)
    {
      LedgerStep(w, step, v, t);
    }
  }

  lemma {:induction false} RunKeepsInv(states: seq<World>, steps: seq<Step>, k: nat)
    requires IsRun(states, steps) && k <= |steps|
    ensures Inv(states[k])
  {
    if k > 0 {
      RunKeepsInv(states, steps, k - 1);
      NextKeepsInv(states[k - 1], steps[k - 1], states[k]);
    }
  }

  /** However updates interleave, the last row gives the task's due date and no row is without effect. */
  lemma LastRowIsCurrent(states: seq<World>, steps: seq<Step>, k: nat, t: Id)
    requires IsRun(states, steps) && k <= |steps| && t in states[k].dueAt
    ensures t in states[k].created && states[k].dueAt[t] == Current(states[k].created[t], LogOf(states[k].changes, t))
    ensures forall i :: 0 <= i < |states[k].changes| ==> states[k].changes[i].oldDueAt != states[k].changes[i].newDueAt
  {
    RunKeepsInv(states, steps, k);
    assert LedgerAt(states[k], t);
  }

  /** The step writes a row for `t` although the due date is no longer the one that was read. */
  ghost predicate WritesStale(w: World, step: Step, t: Id) {
    && step.Finish? && step.c in w.updates && w.updates[step.c].task == t && t in w.dueAt
    && DueChanged(w.updates[step.c]) && w.updates[step.c].loaded != w.dueAt[t]
  }

  ghost predicate HasChain(w: World, t: Id) {
    t in w.created && IsChain(w.created[t], LogOf(w.changes, t))
  }

  lemma ChainGrows(created: Option<int>, log: seq<DueChange>, rows: seq<DueChange>)
    requires |rows| <= 1
    ensures IsChain(created, log + rows) <==>
      IsChain(created, log) && (rows != [] ==> rows[0].oldDueAt == Current(created, log))
  {
    if rows == [] {
      assert log + rows == log;
    } else {
      assert rows == [rows[0]];
      ChainAppend(created, log, rows[0]);
    }
  }

  lemma StepKeepsChain(w: World, step: Step, v: World, t: Id)
    requires LedgerAt(w, t) && Next(w, step) == Some(v) && t in w.dueAt
    ensures HasChain(v, t) <==> HasChain(w, t) && !WritesStale(w, step, t)
  {
    StepEffect(w, step, v, t);
    ChainGrows(w.created[t], LogOf(w.changes, t), Written(w, step, t));
  }

  lemma NewTaskHasChain(w: World, step: Step, v: World, t: Id)
    requires Inv(w) && Next(w, step) == Some(v) && t !in w.dueAt && t in v.dueAt
    ensures HasChain(v, t)
  {
    StepEffect(w, step, v, t);
    assert LedgerAt(w, t);
  }

  /** The log of a task is a chain exactly when no update of it wrote over a due date it had not read. */
  lemma {:induction false} ChainIffNoStaleWrite(states: seq<World>, steps: seq<Step>, k: nat, t: Id)
    requires IsRun(states, steps) && k <= |steps| && t in states[k].dueAt
    ensures HasChain(states[k], t) <==> forall j :: 0 <= j < k ==> !WritesStale(states[j], steps[j], t)
  {
    if k > 0 {
      RunKeepsInv(states, steps, k - 1);
      if t in states[k - 1].dueAt {
        ChainIffNoStaleWrite(states, steps, k - 1, t);
        assert LedgerAt(states[k - 1], t);
        StepKeepsChain(states[k - 1], steps[k - 1], states[k], t);
      } else {
        NewTaskHasChain(states[k - 1], steps[k - 1], states[k], t);
        NotCreatedBefore(states, steps, k - 1, t);
      }
    }
  }

  lemma {:induction false} NotCreatedBefore(states: seq<World>, steps: seq<Step>, k: nat, t: Id)
    requires IsRun(states, steps) && k < |steps| && t !in states[k].dueAt
    ensures forall j :: 0 <= j <= k ==> t !in states[j].dueAt
  {
    if k > 0 {
      assert Next(states[k - 1], steps[k - 1]) == Some(states[k]);
      NotCreatedBefore(states, steps, k - 1, t);
    }
  }

  /** Updates that run one at a time, each finishing right after its read, always leave a chain. */
  lemma AtomicUpdatesChain(states: seq<World>, steps: seq<Step>, k: nat, t: Id)
    requires IsRun(states, steps) && k <= |steps| && t in states[k].dueAt
    requires forall j :: 0 <= j < |steps| && steps[j].Finish? ==>
      j > 0 && steps[j - 1].Load? && steps[j - 1].c == steps[j].c
    ensures HasChain(states[k], t)
  {
    forall j | 0 <= j < k
      ensures !WritesStale(states[j], steps[j], t)
    {
      if steps[j].Finish? {
        assert Next(states[j - 1], steps[j - 1]) == Some(states[j]);
      }
    }
    ChainIffNoStaleWrite(states, steps, k, t);
  }

  /** Two updates that both read the first due date leave two rows that both start from it. */
  lemma OverlappingUpdatesBreakChain() returns (states: seq<World>, steps: seq<Step>)
    ensures IsRun(states, steps)
    ensures 1 in states[|steps|].created && !HasChain(states[|steps|], 1)
  {
    var a, b := UpdateTaskDueDto(At(20), None), UpdateTaskDueDto(At(30), None);
    var w0 := World(map[], [], map[], map[]);
    var w1 := w0.(dueAt := w0.dueAt[1 := Some(10)], created := w0.created[1 := Some(10)]);
    var u, v := Update(1, 7, a, Some(10)), Update(1, 8, b, Some(10));
    var w2 := w1.(updates := w1.updates[100 := u]);
    var w3 := w2.(updates := w2.updates[200 := v]);
    var w4 := w3.(updates := w3.updates - {100}, changes := w3.changes + [Row(u)], dueAt := w3.dueAt[1 := Some(20)]);
    var w5 := w4.(updates := w4.updates - {200}, changes := w4.changes + [Row(v)], dueAt := w4.dueAt[1 := Some(30)]);
    steps := [CreateTask(1, Some(10)), Load(100, 1, 7, a), Load(200, 1, 8, b), Finish(100), Finish(200)];
    states := [w0, w1, w2, w3, w4, w5];
    assert WritesStale(states[4], steps[4], 1);
    ChainIffNoStaleWrite(states, steps, 5, 1);
  }

  datatype Error = NotFound | Forbidden | BadRequest
  datatype Result = Updated | Unchanged | Err(error: Error)

  /** The due-date part of `TasksService`; other requests run while one awaits. */
  class TasksService {
    var world: World
    ghost var states: seq<World>
    ghost var steps: seq<Step>

    ghost predicate Valid()
      reads this
    {
      IsRun(states, steps) && world == states[|steps|]
    }

    constructor ()
      ensures Valid() && steps == []
    {
      world := World(map[], [], map[], map[]);
      states, steps := [World(map[], [], map[], map[])], [];
    }

    method Do(step: Step)
      requires Valid() && Next(world, step).Some?
      modifies this
      ensures Valid() && steps == old(steps) + [step] && states == old(states) + [world]
      ensures Some(world) == Next(old(world), step)
    {
      world := Next(world, step).value;
      states, steps := states + [world], steps + [step];
    }

    /** Other requests proceed; update `c` stays as it is. */
    method Await(c: Id)
      requires Valid() && c in world.updates
      modifies this
      ensures Valid() && old(steps) <= steps && c in world.updates && world.updates[c] == old(world.updates[c])
    {
      var budget: nat := *;
      while budget > 0
        invariant Valid() && old(steps) <= steps && c in world.updates && world.updates[c] == old(world.updates[c])
      {
        var step: Step := *;
        if Next(world, step).Some? && step != Finish(c) {
          Do(step);
        }
        budget := budget - 1;
      }
    }

    /** A task starts at the due date given, which its log leads to from then on. */
    method Create(task: Id, dueAt: Option<int>)
      requires Valid() && task !in world.dueAt
      modifies this
      ensures Valid() && steps == old(steps) + [CreateTask(task, dueAt)]
      ensures world.dueAt == old(world).dueAt[task := dueAt] && world.changes == old(world).changes
    {
      Do(CreateTask(task, dueAt));
    }

    /**
     Writes, in its last step, one row from the due date read at the start and
     the same new due date on the task, unless the two are the same.
     */
    method UpdateDue(c: Id, taskId: Id, userId: Id, role: Option<WorkspaceRole>, dto: UpdateTaskDueDto)
      returns (result: Result)
      requires Valid() && c !in world.updates
      modifies this
      ensures Valid() && old(steps) <= steps
      ensures result.Err? ==> world == old(world)
      ensures result == Err(NotFound) <==> taskId !in old(world).dueAt
      ensures result == Err(Forbidden) <==>
        taskId in old(world).dueAt && !(role.Some? && role.value in AGENCY_ROLES)
      ensures result == Err(BadRequest) ==> dto == UpdateTaskDueDto(Undefined, None)
      ensures dto == UpdateTaskDueDto(Undefined, None) ==> result.Err?
      ensures !result.Err? ==> |steps| > 0 && steps[|steps| - 1] == Finish(c)
      ensures result == Updated <==>
        && !result.Err? && dto.dueAt != Undefined
        && old(world).dueAt[taskId] != (if dto.dueAt.At? then Some(dto.dueAt.time) else None)
      ensures result == Unchanged ==>
        world.changes == states[|steps| - 1].changes && world.dueAt == states[|steps| - 1].dueAt
      ensures result == Updated ==>
        var new' := if dto.dueAt.At? then Some(dto.dueAt.time) else None;
        && world.changes == states[|steps| - 1].changes
             + [DueChange(taskId, userId, old(world).dueAt[taskId], new', dto.reason)]
        && world.dueAt == states[|steps| - 1].dueAt[taskId := new']
    {
      if taskId !in world.dueAt { return Err(NotFound); }
      if role.None? || role.value !in AGENCY_ROLES { return Err(Forbidden); }
      if dto.dueAt == Undefined && dto.reason.None? { return Err(BadRequest); }
      Do(Load(c, taskId, userId, dto));
      Await(c);
      var dueChanged := DueChanged(world.updates[c]);
      Do(Finish(c));
      return if dueChanged then Updated else Unchanged;
    }
  }
}
