/** Updating the content of a task's cell. When dependencies are tracked
    and the task is dirty or stateful, and other tasks depend on the cell,
    the old content is removed first, every dependent that still reads the
    cell is made dirty, and only then is the new content set (the slow
    path); otherwise the content is replaced at once (the fast path). The
    slow path is an operation that steps through states until it is done. */
module UpdateCell {
  import opened Wrappers
  import RawVcs
  import Operations

  type Storage = map<Operations.Key, nat>

  /** The items of task `t`; a task with none has empty storage. */
  function StorageOf(tasks: map<nat, Storage>, t: nat): Storage {
    if t in tasks then tasks[t] else map[]
  }

  /** What an update does that others can observe, in order. */
  datatype Event =
    | RemovedCell(cellRef: Operations.CellRef)
    | SetCell(cellRef: Operations.CellRef, value: nat)
    | MadeDirty(task: nat)
    | Notified(cellRef: Operations.CellRef)
    | AggregationProcessed(queue: seq<nat>)

  /** `UpdateCellOperation`; the aggregation queue is the list of tasks
      made dirty whose aggregation updates are pending. */
  datatype UpdateCellOperation =
    | InvalidateWhenCellDependency(cellRef: Operations.CellRef, dependentTasks: seq<nat>, content: Option<nat>, queue: seq<nat>)
    | FinalCellChange(cellRef: Operations.CellRef, content: Option<nat>, queue: seq<nat>)
    | AggregationUpdate(queue: seq<nat>)
    | Done

  /** The backend's storage while an operation runs, and the operation. */
  datatype Machine = Machine(tasks: map<nat, Storage>, op: UpdateCellOperation)

  /** Whether the dependent `d` must be made dirty: it is not a once task,
      its dependency on the cell is not outdated (it has not read the cell
      yet) and it still depends on the cell. */
  predicate Invalidates(tasks: map<nat, Storage>, transientTasks: map<nat, Operations.TransientTask>, cellRef: Operations.CellRef, d: nat) {
    && !Operations.IsOnceTask(transientTasks, d)
    && Operations.OutdatedCellDependency(cellRef) !in StorageOf(tasks, d)
    && Operations.CellDependency(cellRef) in StorageOf(tasks, d)
  }

  /** The final change: the new content is added (an existing content is
      the panic "Item already exists"), the in-progress marker is removed
      and its waiters are notified. */
  function FinalStep(tasks: map<nat, Storage>, cellRef: Operations.CellRef, content: Option<nat>): (r: Result<(map<nat, Storage>, seq<Event>)>)
    ensures r.Err? <==> content.Some? && Operations.CellData(cellRef.cell) in StorageOf(tasks, cellRef.task)
    ensures r.Ok? ==>
      var s' := StorageOf(r.value.0, cellRef.task);
      && (content.Some? ==> Operations.CellData(cellRef.cell) in s' && s'[Operations.CellData(cellRef.cell)] == content.value)
      && Operations.InProgressCell(cellRef.cell) !in s'
      && (Notified(cellRef) in r.value.1 <==> Operations.InProgressCell(cellRef.cell) in StorageOf(tasks, cellRef.task))
  {
    var s := StorageOf(tasks, cellRef.task);
    if content.Some? && Operations.CellData(cellRef.cell) in s then Err("Item already exists")
    else
      var added := if content.Some? then s[Operations.CellData(cellRef.cell) := content.value] else s;
      var inProgress := Operations.InProgressCell(cellRef.cell) in added;
      Ok((tasks[cellRef.task := added - {Operations.InProgressCell(cellRef.cell)}],
          (if content.Some? then [SetCell(cellRef, content.value)] else []) + (if inProgress then [Notified(cellRef)] else [])))
  }

  /** How far an operation is from done. */
  function Measure(op: UpdateCellOperation): nat {
    match op
    case InvalidateWhenCellDependency(_, deps, _, _) => |deps| + 3
    case FinalCellChange(_, _, _) => 2
    case AggregationUpdate(_) => 1
    case Done => 0
  }

  /** One pass of the loop in `execute`: a dependent is popped from the
      back and skipped or made dirty (an empty list moves on to the final
      change); the final change sets the content; the aggregation queue is
      processed. */
  function Step(transientTasks: map<nat, Operations.TransientTask>, m: Machine): (r: Result<(Machine, seq<Event>)>)
    requires !m.op.Done?
    ensures r.Ok? ==> Measure(r.value.0.op) < Measure(m.op)
  {
    match m.op
    case InvalidateWhenCellDependency(cellRef, deps, content, queue) =>
      if deps == [] then Ok((Machine(m.tasks, FinalCellChange(cellRef, content, queue)), []))
      else
        var d, rest := deps[|deps| - 1], deps[..|deps| - 1];
        if !Invalidates(m.tasks, transientTasks, cellRef, d) then
          Ok((Machine(m.tasks, InvalidateWhenCellDependency(cellRef, rest, content, queue)), []))
        else
          var next := queue + [d];
          Ok((Machine(m.tasks, if rest == [] then FinalCellChange(cellRef, content, next) else InvalidateWhenCellDependency(cellRef, rest, content, next)),
              [MadeDirty(d)]))
    case FinalCellChange(cellRef, content, queue) =>
      var f :- FinalStep(m.tasks, cellRef, content);
      Ok((Machine(f.0, AggregationUpdate(queue)), f.1))
    case AggregationUpdate(queue) =>
      Ok((Machine(m.tasks, Done), [AggregationProcessed(queue)]))
  }

  /** `execute`: steps until the operation is done, with the events it
      produces. */
  function Run(transientTasks: map<nat, Operations.TransientTask>, m: Machine): (r: Result<(Machine, seq<Event>)>)
    ensures r.Ok? ==> r.value.0.op.Done?
    decreases Measure(m.op)
  {
    if m.op.Done? then Ok((m, []))
    else
      var s :- Step(transientTasks, m);
      var rest :- Run(transientTasks, s.0);
      Ok((rest.0, s.1 + rest.1))
  }

  /** The dependents made dirty, in the order they are popped (from the
      back of the list). */
  function DirtyTasks(tasks: map<nat, Storage>, transientTasks: map<nat, Operations.TransientTask>, cellRef: Operations.CellRef, deps: seq<nat>): seq<nat>
    decreases |deps|
  {
    if deps == [] then []
    else
      var d := deps[|deps| - 1];
      (if Invalidates(tasks, transientTasks, cellRef, d) then [d] else []) + DirtyTasks(tasks, transientTasks, cellRef, deps[..|deps| - 1])
  }

  /** A dependent is made dirty exactly when it is listed and must be
      invalidated; once tasks, outdated dependencies and tasks that no
      longer depend on the cell are skipped. */
  lemma {:induction false} DirtyTasksExactly(tasks: map<nat, Storage>, transientTasks: map<nat, Operations.TransientTask>, cellRef: Operations.CellRef, deps: seq<nat>, d: nat)
    ensures d in DirtyTasks(tasks, transientTasks, cellRef, deps) <==> d in deps && Invalidates(tasks, transientTasks, cellRef, d)
    decreases |deps|
  {
    if deps != [] {
      var init := deps[..|deps| - 1];
      DirtyTasksExactly(tasks, transientTasks, cellRef, init, d);
      assert deps == init + [deps[|deps| - 1]];
    }
  }

  function DirtyEvents(ds: seq<nat>): (r: seq<Event>)
    ensures |r| == |ds| && forall i :: 0 <= i < |r| ==> r[i] == MadeDirty(ds[i])
  {
    seq(|ds|, i requires 0 <= i < |ds| => MadeDirty(ds[i]))
  }

  /** What the invalidation phase leads to: the final change on the
      unchanged storage, after one dirtying event per dirty dependent and
      before the aggregation of the queue extended by them. */
  function AfterInvalidation(transientTasks: map<nat, Operations.TransientTask>, tasks: map<nat, Storage>, cellRef: Operations.CellRef, deps: seq<nat>, content: Option<nat>, queue: seq<nat>): Result<(Machine, seq<Event>)> {
    var dirty := DirtyTasks(tasks, transientTasks, cellRef, deps);
    var f :- FinalStep(tasks, cellRef, content);
    Ok((Machine(f.0, Done), DirtyEvents(dirty) + f.1 + [AggregationProcessed(queue + dirty)]))
  }

  /** The state sequence of `execute` from the invalidation state: every
      dependent is popped, the dirty ones in pop order, then the final
      change, then the aggregation update, then done. */
  lemma {:induction false} RunFromInvalidation(transientTasks: map<nat, Operations.TransientTask>, tasks: map<nat, Storage>, cellRef: Operations.CellRef, deps: seq<nat>, content: Option<nat>, queue: seq<nat>)
    ensures Run(transientTasks, Machine(tasks, InvalidateWhenCellDependency(cellRef, deps, content, queue)))
      == AfterInvalidation(transientTasks, tasks, cellRef, deps, content, queue)
    decreases |deps|
  {
    var start := Machine(tasks, InvalidateWhenCellDependency(cellRef, deps, content, queue));
    var step := Step(transientTasks, start).value;
    RunUnfold(transientTasks, start);
    if deps == [] {
      RunFromFinal(transientTasks, tasks, cellRef, content, queue);
      NoDependents(transientTasks, tasks, cellRef, content, queue);
      var r := Run(transientTasks, step.0);
      if r.Ok? {
        assert [] + r.value.1 == r.value.1;
      }
    } else {
      var d, rest := deps[|deps| - 1], deps[..|deps| - 1];
      var dirtyRest := DirtyTasks(tasks, transientTasks, cellRef, rest);
      if !Invalidates(tasks, transientTasks, cellRef, d) {
        assert DirtyTasks(tasks, transientTasks, cellRef, deps) == dirtyRest;
        RunFromInvalidation(transientTasks, tasks, cellRef, rest, content, queue);
        var r := Run(transientTasks, step.0);
        if r.Ok? {
          assert [] + r.value.1 == r.value.1;
        }
      } else {
        var next := queue + [d];
        if rest == [] {
          RunFromFinal(transientTasks, tasks, cellRef, content, next);
          NoDependents(transientTasks, tasks, cellRef, content, next);
        } else {
          RunFromInvalidation(transientTasks, tasks, cellRef, rest, content, next);
        }
        assert Run(transientTasks, step.0) == AfterInvalidation(transientTasks, tasks, cellRef, rest, content, next);
        DirtyPop(transientTasks, tasks, cellRef, deps, content, queue);
      }
    }
  }

  /** With no dependents left, only the final change and the aggregation
      remain. */
  lemma NoDependents(transientTasks: map<nat, Operations.TransientTask>, tasks: map<nat, Storage>, cellRef: Operations.CellRef, content: Option<nat>, queue: seq<nat>)
    ensures var f := FinalStep(tasks, cellRef, content);
      AfterInvalidation(transientTasks, tasks, cellRef, [], content, queue)
        == if f.Err? then Err(f.msg) else Ok((Machine(f.value.0, Done), f.value.1 + [AggregationProcessed(queue)]))
  {
    var f := FinalStep(tasks, cellRef, content);
    assert DirtyTasks(tasks, transientTasks, cellRef, []) == [];
    assert queue + [] == queue;
    if f.Ok? {
      assert DirtyEvents([]) + f.value.1 == f.value.1;
    }
  }

  /** Prepending the events of one step to the outcome of the rest. */
  function Prepend(events: seq<Event>, r: Result<(Machine, seq<Event>)>): Result<(Machine, seq<Event>)> {
    if r.Err? then r else Ok((r.value.0, events + r.value.1))
  }

  /** `execute` is one step followed by the rest. */
  lemma RunUnfold(transientTasks: map<nat, Operations.TransientTask>, m: Machine)
    requires !m.op.Done?
    ensures var s := Step(transientTasks, m);
      Run(transientTasks, m) == if s.Err? then Err(s.msg) else Prepend(s.value.1, Run(transientTasks, s.value.0))
  {
  }

  /** `run` finishes like `rest` does, after the events `done`. */
  predicate ResumesAs(run: Result<(Machine, seq<Event>)>, rest: Result<(Machine, seq<Event>)>, done: seq<Event>) {
    && (run.Ok? <==> rest.Ok?)
    && (run.Ok? ==> run.value.0 == rest.value.0 && run.value.1 == done + rest.value.1)
  }

  /** One successful step moves its events from the rest to what is done. */
  lemma ResumesAfterStep(transientTasks: map<nat, Operations.TransientTask>, m: Machine, run: Result<(Machine, seq<Event>)>, done: seq<Event>)
    requires !m.op.Done? && Step(transientTasks, m).Ok?
    requires ResumesAs(run, Run(transientTasks, m), done)
    ensures var s := Step(transientTasks, m).value;
      ResumesAs(run, Run(transientTasks, s.0), done + s.1)
  {
    RunUnfold(transientTasks, m);
  }

  /** A failing step fails the whole run. */
  lemma ResumesFails(transientTasks: map<nat, Operations.TransientTask>, m: Machine, run: Result<(Machine, seq<Event>)>, done: seq<Event>)
    requires !m.op.Done? && Step(transientTasks, m).Err?
    requires ResumesAs(run, Run(transientTasks, m), done)
    ensures run.Err?
  {
    RunUnfold(transientTasks, m);
  }

  /** Popping a dependent that is made dirty adds its event in front and
      the dependent to the aggregation queue. */
  lemma DirtyPop(transientTasks: map<nat, Operations.TransientTask>, tasks: map<nat, Storage>, cellRef: Operations.CellRef, deps: seq<nat>, content: Option<nat>, queue: seq<nat>)
    requires deps != [] && Invalidates(tasks, transientTasks, cellRef, deps[|deps| - 1])
    ensures var d := deps[|deps| - 1];
      AfterInvalidation(transientTasks, tasks, cellRef, deps, content, queue)
        == Prepend([MadeDirty(d)], AfterInvalidation(transientTasks, tasks, cellRef, deps[..|deps| - 1], content, queue + [d]))
  {
    var d, rest := deps[|deps| - 1], deps[..|deps| - 1];
    var dirtyRest := DirtyTasks(tasks, transientTasks, cellRef, rest);
    assert DirtyTasks(tasks, transientTasks, cellRef, deps) == [d] + dirtyRest;
    var f := FinalStep(tasks, cellRef, content);
    if f.Ok? {
      var tail := f.value.1 + [AggregationProcessed(queue + [d] + dirtyRest)];
      assert queue + [d] + dirtyRest == queue + ([d] + dirtyRest);
      assert DirtyEvents([d] + dirtyRest) == [MadeDirty(d)] + DirtyEvents(dirtyRest);
      assert DirtyEvents([d] + dirtyRest) + f.value.1 + [AggregationProcessed(queue + ([d] + dirtyRest))]
        == [MadeDirty(d)] + (DirtyEvents(dirtyRest) + f.value.1 + [AggregationProcessed(queue + [d] + dirtyRest)]);
    }
  }
  /** From the final change, `execute` sets the content and then processes
      the queue. */
  lemma RunFromFinal(transientTasks: map<nat, Operations.TransientTask>, tasks: map<nat, Storage>, cellRef: Operations.CellRef, content: Option<nat>, queue: seq<nat>)
    ensures var f := FinalStep(tasks, cellRef, content);
      Run(transientTasks, Machine(tasks, FinalCellChange(cellRef, content, queue)))
        == if f.Err? then Err(f.msg) else Ok((Machine(f.value.0, Done), f.value.1 + [AggregationProcessed(queue)]))
  {
    var f := FinalStep(tasks, cellRef, content);
    if f.Ok? {
      var agg := Machine(f.value.0, AggregationUpdate(queue));
      assert Run(transientTasks, Machine(f.value.0, Done)) == Ok((Machine(f.value.0, Done), []));
      assert Step(transientTasks, agg) == Ok((Machine(f.value.0, Done), [AggregationProcessed(queue)]));
      assert [AggregationProcessed(queue)] + [] == [AggregationProcessed(queue)];
      assert Run(transientTasks, agg) == Ok((Machine(f.value.0, Done), [AggregationProcessed(queue)]));
    }
  }

  /** The tasks that depend on `cell`, from its `CellDependent` items. */
  function DependentsOf(s: Storage, cell: RawVcs.CellId): set<nat> {
    set k | k in s && k.CellDependent? && k.dependentCell == cell :: k.dependent
  }

  /** Whether an update of a cell of this task must invalidate dependents:
      dependencies are tracked and the task is dirty or stateful. */
  predicate ShouldInvalidate(trackDependencies: bool, s: Storage) {
    trackDependencies && (Operations.Dirty in s || Operations.Stateful in s)
  }

  /** The fast path: the content is inserted (or removed when there is
      none), the in-progress marker is removed and its waiters notified;
      nothing else changes. */
  function FastPath(tasks: map<nat, Storage>, cellRef: Operations.CellRef, content: Option<nat>): (r: (map<nat, Storage>, seq<Event>))
    ensures var s, s' := StorageOf(tasks, cellRef.task), StorageOf(r.0, cellRef.task);
      && (content.Some? ==> Operations.CellData(cellRef.cell) in s' && s'[Operations.CellData(cellRef.cell)] == content.value)
      && (content.None? ==> Operations.CellData(cellRef.cell) !in s')
      && Operations.InProgressCell(cellRef.cell) !in s'
      && (forall k :: k != Operations.CellData(cellRef.cell) && k != Operations.InProgressCell(cellRef.cell) ==>
            (k in s' <==> k in s) && (k in s ==> s'[k] == s[k]))
    ensures forall t :: t != cellRef.task ==> StorageOf(r.0, t) == StorageOf(tasks, t)
    ensures Notified(cellRef) in r.1 <==> Operations.InProgressCell(cellRef.cell) in StorageOf(tasks, cellRef.task)
  {
    var s := StorageOf(tasks, cellRef.task);
    var key := Operations.CellData(cellRef.cell);
    var updated := if content.Some? then s[key := content.value] else s - {key};
    var inProgress := Operations.InProgressCell(cellRef.cell) in updated;
    (tasks[cellRef.task := updated - {Operations.InProgressCell(cellRef.cell)}],
     (if content.Some? then [SetCell(cellRef, content.value)] else [RemovedCell(cellRef)]) + (if inProgress then [Notified(cellRef)] else []))
  }

  /** Both paths end in the same storage: removing the content before the
      invalidation and adding the new one after it stores what replacing it
      at once would. */
  lemma SlowPathStoresAsFastPath(transientTasks: map<nat, Operations.TransientTask>, tasks: map<nat, Storage>, cellRef: Operations.CellRef, deps: seq<nat>, content: Option<nat>)
    ensures var removed := tasks[cellRef.task := StorageOf(tasks, cellRef.task) - {Operations.CellData(cellRef.cell)}];
      var r := AfterInvalidation(transientTasks, removed, cellRef, deps, content, []);
      r.Ok? && r.value.0.tasks == FastPath(tasks, cellRef, content).0
  {
    var key := Operations.CellData(cellRef.cell);
    var s := StorageOf(tasks, cellRef.task);
    var removed := tasks[cellRef.task := s - {key}];
    if content.Some? {
      assert (s - {key})[key := content.value] == s[key := content.value];
    }
    assert removed[cellRef.task := StorageOf(removed, cellRef.task)] == removed;
  }

  /** The slow path cannot fail: the old content was removed before the
      invalidation, so the final change finds no content to clash with. */
  lemma SlowPathFinishes(transientTasks: map<nat, Operations.TransientTask>, tasks: map<nat, Storage>, cellRef: Operations.CellRef, deps: seq<nat>, content: Option<nat>)
    requires Operations.CellData(cellRef.cell) !in StorageOf(tasks, cellRef.task)
    ensures Run(transientTasks, Machine(tasks, InvalidateWhenCellDependency(cellRef, deps, content, []))).Ok?
  {
    RunFromInvalidation(transientTasks, tasks, cellRef, deps, content, []);
  }

  /** On the slow path the old content is removed before any dependent is
      made dirty, and the new content is set only after all of them. */
  lemma SlowPathOrder(transientTasks: map<nat, Operations.TransientTask>, tasks: map<nat, Storage>, cellRef: Operations.CellRef, deps: seq<nat>, content: Option<nat>)
    requires Operations.CellData(cellRef.cell) !in StorageOf(tasks, cellRef.task)
    ensures var r := Run(transientTasks, Machine(tasks, InvalidateWhenCellDependency(cellRef, deps, content, [])));
      r.Ok? &&
      var events := [RemovedCell(cellRef)] + r.value.1;
      forall i, j :: 0 <= i < j < |events| && events[i].SetCell? ==> !events[j].MadeDirty? && !events[j].RemovedCell?
  {
    RunFromInvalidation(transientTasks, tasks, cellRef, deps, content, []);
    var dirty := DirtyTasks(tasks, transientTasks, cellRef, deps);
    var f := FinalStep(tasks, cellRef, content).value;
    var events := [RemovedCell(cellRef)] + (DirtyEvents(dirty) + f.1 + [AggregationProcessed(dirty)]);
    var n := 1 + |dirty|;
    forall i, j | 0 <= i < j < |events| && events[i].SetCell?
      ensures !events[j].MadeDirty? && !events[j].RemovedCell?
    {
      assert i >= n;
      assert events[j] == (f.1 + [AggregationProcessed(dirty)])[j - n];
    }
  }

  /** The backend an update runs against: whether dependencies are
      tracked, the transient tasks, every task's items and the events so
      far. */
  class Backend {
    const trackDependencies: bool
    const transientTasks: map<nat, Operations.TransientTask>
    var tasks: map<nat, Storage>
    var log: seq<Event>

    constructor (trackDependencies: bool, transientTasks: map<nat, Operations.TransientTask>, tasks: map<nat, Storage>)
      ensures this.trackDependencies == trackDependencies && this.transientTasks == transientTasks
      ensures this.tasks == tasks && log == []
    {
      this.trackDependencies := trackDependencies;
      this.transientTasks := transientTasks;
      this.tasks := tasks;
      log := [];
    }

    /** `execute`: the loop that steps the operation until it is done; a
        panic in the final change is Err. */
    method Execute(op: UpdateCellOperation) returns (r: Result<()>)
      modifies this
      ensures var run := Run(transientTasks, Machine(old(tasks), op));
        r.Ok? <==> run.Ok?
      ensures var run := Run(transientTasks, Machine(old(tasks), op));
        run.Ok? ==> tasks == run.value.0.tasks && log == old(log) + run.value.1
    {
      var current := op;
      ghost var start := Machine(tasks, op);
      while !current.Done?
        invariant |old(log)| <= |log| && log[..|old(log)|] == old(log)
        invariant ResumesAs(Run(transientTasks, start), Run(transientTasks, Machine(tasks, current)), log[|old(log)|..])
        decreases Measure(current)
      {
        var step := Step(transientTasks, Machine(tasks, current));
        if step.Err? {
          ResumesFails(transientTasks, Machine(tasks, current), Run(transientTasks, start), log[|old(log)|..]);
          return Err(step.msg);
        }
        var (next, events) := step.value;
        ResumesAfterStep(transientTasks, Machine(tasks, current), Run(transientTasks, start), log[|old(log)|..]);
        assert log[|old(log)|..] + events == (log + events)[|old(log)|..];
        tasks, current, log := next.tasks, next.op, log + events;
      }
      assert log == old(log) + log[|old(log)|..];
      return Ok(());
    }

    /** `run`: the fast path replaces the content at once; the slow path
        (dependencies tracked, the task dirty or stateful, and dependents
        of the cell) removes the content, then executes the invalidation
        with the dependents in storage order. */
    method Update(taskId: nat, cell: RawVcs.CellId, content: Option<nat>) returns (slowPath: bool, ghost dependents: seq<nat>)
      modifies this
      ensures var s := StorageOf(old(tasks), taskId);
        slowPath <==> ShouldInvalidate(trackDependencies, s) && DependentsOf(s, cell) != {}
      ensures !slowPath ==> (tasks, log) == (FastPath(old(tasks), Operations.CellRef(taskId, cell), content).0,
        old(log) + FastPath(old(tasks), Operations.CellRef(taskId, cell), content).1)
      ensures slowPath ==>
        (&& (forall d :: d in dependents <==> d in DependentsOf(StorageOf(old(tasks), taskId), cell))
         && var cellRef := Operations.CellRef(taskId, cell);
            var removed := old(tasks)[taskId := StorageOf(old(tasks), taskId) - {Operations.CellData(cell)}];
            var run := AfterInvalidation(transientTasks, removed, cellRef, dependents, content, []);
            run.Ok? && tasks == run.value.0.tasks && log == old(log) + [RemovedCell(cellRef)] + run.value.1)
    {
      var cellRef := Operations.CellRef(taskId, cell);
      var s := StorageOf(tasks, taskId);
      dependents := [];
      if ShouldInvalidate(trackDependencies, s) {
        var pending := DependentsOf(s, cell);
        ghost var all := pending;
        var list: seq<nat> := [];
        while pending != {}
          invariant pending <= all
          invariant tasks == old(tasks) && log == old(log)
          invariant forall d :: d in list <==> d in all && d !in pending
          decreases pending
        {
          var d :| d in pending;
          list, pending := list + [d], pending - {d};
        }
        if list != [] {
          assert list[0] in DependentsOf(s, cell);
          dependents := list;
          var removed := s - {Operations.CellData(cell)};
          tasks := tasks[taskId := removed];
          log := log + [RemovedCell(cellRef)];
          assert Operations.CellData(cell) !in StorageOf(tasks, taskId);
          RunFromInvalidation(transientTasks, tasks, cellRef, list, content, []);
          SlowPathFinishes(transientTasks, tasks, cellRef, list, content);
          var r := Execute(InvalidateWhenCellDependency(cellRef, list, content, []));
          return true, dependents;
        }
        assert DependentsOf(s, cell) == {} by {
          forall d | d in DependentsOf(s, cell) ensures d in list { }
        }
      }
      assert tasks == old(tasks) && log == old(log);
      var key := Operations.CellData(cell);
      var updated := if content.Some? then s[key := content.value] else s - {key};
      var inProgress := Operations.InProgressCell(cell) in updated;
      tasks := tasks[taskId := updated - {Operations.InProgressCell(cell)}];
      var events := if content.Some? then [SetCell(cellRef, content.value)] else [RemovedCell(cellRef)];
      if inProgress {
        events := events + [Notified(cellRef)];
      } else {
        assert events == events + [];
      }
      log := log + events;
      assert (tasks, events) == FastPath(old(tasks), cellRef, content);
      return false, dependents;
    }
  }
}
