/** The task-local state of the task manager: how a read is tracked as a
    dependency, the local tasks a task creates (with one-based ids), and the
    per-type counters that give the cells of a task their indices. */
module Manager {
  import opened Wrappers

  // ---------------------------------------------------------------------------
  // Read tracking

  /** `ReadTracking`. */
  datatype ReadTracking = Tracked | TrackOnlyError | Untracked

  /** `should_track`: whether a read that did (`isErr`) or did not fail is
      recorded as a dependency. */
  function ShouldTrack(t: ReadTracking, isErr: bool): (r: bool) {
    match t
    case Tracked => true
    case TrackOnlyError => isErr
    case Untracked => false
  }

  /** A tracked read is always recorded, an untracked one never, and one
      tracked only on error exactly when it failed; a read recorded on
      success is recorded on error too. */
  lemma ShouldTrackCases(t: ReadTracking, isErr: bool)
    ensures ShouldTrack(t, isErr) <==> t == Tracked || (t == TrackOnlyError && isErr)
    ensures ShouldTrack(t, false) ==> ShouldTrack(t, true)
    ensures (forall e: bool :: ShouldTrack(t, e) == e) <==> t == TrackOnlyError
  {
    assert ShouldTrack(t, true) != ShouldTrack(t, false) ==> t == TrackOnlyError;
  }

  /** The `Display` text of a tracking mode. */
  function TrackingName(t: ReadTracking): (r: string)
    ensures |r| >= 7
  {
    match t
    case Tracked => "tracked"
    case TrackOnlyError => "track only error"
    case Untracked => "untracked"
  }

  /** The three modes display as three different texts. */
  lemma TrackingNameInjective(a: ReadTracking, b: ReadTracking)
    ensures TrackingName(a) == TrackingName(b) <==> a == b
  {
    if a != b {
      assert TrackingName(a)[0] != TrackingName(b)[0] || |TrackingName(a)| != |TrackingName(b)|;
    }
  }

  // ---------------------------------------------------------------------------
  // Current task state

  /** `LocalTask`: a local task that is still running (with the event it
      signals when done) or its output. */
  datatype LocalTask = Scheduled(doneEvent: nat) | Done(output: nat)

  const ExecutionMismatch := "Local tasks can only be scheduled/awaited within the same execution of the parent task that created them"

  /** The cell counter of a value type: how many cells of that type the
      task has allocated (0 for a type it has not used). */
  function Counter(counters: map<nat, nat>, ty: nat): nat {
    if ty in counters then counters[ty] else 0
  }

  /** One allocation of a cell of type `ty`: its index and the counters
      afterwards. */
  function Allocate(counters: map<nat, nat>, ty: nat): (r: (nat, map<nat, nat>))
    ensures r.0 == Counter(counters, ty)
    ensures Counter(r.1, ty) == r.0 + 1
    ensures forall other :: other != ty ==> Counter(r.1, other) == Counter(counters, other)
  {
    var index := Counter(counters, ty);
    (index, counters[ty := index + 1])
  }

  /** The indices a run of allocations returns, one per type in `types`. */
  function Allocations(counters: map<nat, nat>, types: seq<nat>): seq<nat>
    decreases |types|
  {
    if types == [] then []
    else
      var (index, next) := Allocate(counters, types[0]);
      [index] + Allocations(next, types[1..])
  }

  /** How often `ty` occurs in `types`. */
  function Occurrences(types: seq<nat>, ty: nat): nat {
    if types == [] then 0
    else (if types[0] == ty then 1 else 0) + Occurrences(types[1..], ty)
  }

  /** The counters after a run of allocations: each type's counter grew by
      the number of its allocations. */
  function CountersAfter(counters: map<nat, nat>, types: seq<nat>): map<nat, nat>
    decreases |types|
  {
    if types == [] then counters
    else CountersAfter(Allocate(counters, types[0]).1, types[1..])
  }

  lemma {:induction false} CountersAfterCount(counters: map<nat, nat>, types: seq<nat>, ty: nat)
    ensures Counter(CountersAfter(counters, types), ty) == Counter(counters, ty) + Occurrences(types, ty)
    decreases |types|
  {
    if types != [] {
      CountersAfterCount(Allocate(counters, types[0]).1, types[1..], ty);
    }
  }

  /** The cells of one type are numbered 0, 1, 2, … (from where its counter
      stood) whatever cells of other types are allocated in between: the
      k-th allocation gets the counter plus the number of earlier
      allocations of its type. */
  lemma {:induction false} AllocationsNumberPerType(counters: map<nat, nat>, types: seq<nat>, k: nat)
    requires k < |types|
    ensures |Allocations(counters, types)| == |types|
    ensures Allocations(counters, types)[k] == Counter(counters, types[k]) + Occurrences(types[..k], types[k])
    decreases |types|
  {
    var next := Allocate(counters, types[0]).1;
    if k == 0 {
      assert types[..0] == [];
      AllocationsLength(next, types[1..]);
    } else {
      AllocationsNumberPerType(next, types[1..], k - 1);
      assert types[1..][k - 1] == types[k];
      assert types[..k] == [types[0]] + types[1..][..k - 1];
      assert Occurrences(types[..k], types[k]) == (if types[0] == types[k] then 1 else 0) + Occurrences(types[1..][..k - 1], types[k]);
    }
  }

  lemma {:induction false} AllocationsLength(counters: map<nat, nat>, types: seq<nat>)
    ensures |Allocations(counters, types)| == |types|
    decreases |types|
  {
    if types != [] {
      AllocationsLength(Allocate(counters, types[0]).1, types[1..]);
    }
  }

  /** `CurrentTaskState`: the task it belongs to (None for a temporary
      state), its execution, its flags, the cell counters (None once taken
      at teardown, and for a temporary state) and its local tasks. */
  class CurrentTaskState {
    var taskId: Option<nat>
    var executionId: nat
    var stateful: bool
    var hasInvalidator: bool
    var cellCounters: Option<map<nat, nat>>
    var localTasks: seq<LocalTask>

    /** `new`: the state of a task that starts executing. */
    constructor (taskId: nat, executionId: nat)
      ensures this.taskId == Some(taskId) && this.executionId == executionId
      ensures !stateful && !hasInvalidator
      ensures cellCounters == Some(map[]) && localTasks == []
    {
      this.taskId := Some(taskId);
      this.executionId := executionId;
      stateful := false;
      hasInvalidator := false;
      cellCounters := Some(map[]);
      localTasks := [];
    }

    /** `new_temporary`: a state with no task and no cell counters. */
    constructor Temporary(executionId: nat)
      ensures taskId.None? && this.executionId == executionId
      ensures !stateful && !hasInvalidator
      ensures cellCounters.None? && localTasks == []
    {
      taskId := None;
      this.executionId := executionId;
      stateful := false;
      hasInvalidator := false;
      cellCounters := None;
      localTasks := [];
    }

    /** `assert_execution_id`: a panic (Err) unless the execution is the
        one that created the state. */
    method AssertExecutionId(expected: nat) returns (r: Result<()>)
      ensures r.Ok? <==> executionId == expected
      ensures r.Err? ==> r.msg == ExecutionMismatch
    {
      if executionId != expected {
        return Err(ExecutionMismatch);
      }
      return Ok(());
    }

    /** `get_local_task`: the local task with a one-based id; None stands
        for the panic of an index out of bounds. */
    function LocalTaskOf(id: nat): (r: Option<LocalTask>)
      reads this
      ensures r.Some? <==> 1 <= id <= |localTasks|
      ensures r.Some? ==> r.value == localTasks[id - 1]
    {
      if 1 <= id <= |localTasks| then Some(localTasks[id - 1]) else None
    }

    /** `create_local_task`: appends the task and returns the new length,
        a one-based id that finds the task again; ids handed out before
        still find their tasks. */
    method CreateLocalTask(task: LocalTask) returns (id: nat)
      modifies this
      ensures localTasks == old(localTasks) + [task]
      ensures id == |localTasks| && id >= 1
      ensures LocalTaskOf(id) == Some(task)
      ensures forall k :: 1 <= k <= old(|localTasks|) ==> LocalTaskOf(k) == old(LocalTaskOf(k))
      ensures taskId == old(taskId) && executionId == old(executionId) && cellCounters == old(cellCounters)
      ensures stateful == old(stateful) && hasInvalidator == old(hasInvalidator)
    {
      localTasks := localTasks + [task];
      id := |localTasks|;
    }

    /** The `std::mem::replace` on `get_mut_local_task`: puts `task` in the
        slot of `id` and returns what was there; an id out of bounds is the
        panic (Err) and changes nothing. */
    method ReplaceLocalTask(id: nat, task: LocalTask) returns (previous: Result<LocalTask>)
      modifies this
      ensures previous.Ok? <==> 1 <= id <= old(|localTasks|)
      ensures previous.Ok? ==> previous.value == old(localTasks[id - 1]) && localTasks == old(localTasks[id - 1 := task])
      ensures previous.Err? ==> localTasks == old(localTasks)
      ensures taskId == old(taskId) && executionId == old(executionId) && cellCounters == old(cellCounters)
      ensures stateful == old(stateful) && hasInvalidator == old(hasInvalidator)
    {
      if !(1 <= id <= |localTasks|) {
        return Err("local task id out of bounds");
      }
      previous := Ok(localTasks[id - 1]);
      localTasks := localTasks[id - 1 := task];
    }

    /** A local task that finishes: its slot becomes `Done(output)` and the
        event it was scheduled with is returned to be notified; a slot that
        was not `Scheduled` is the panic (Err). */
    method FinishLocalTask(id: nat, output: nat) returns (doneEvent: Result<nat>)
      modifies this
      ensures doneEvent.Ok? <==> old(LocalTaskOf(id)).Some? && old(LocalTaskOf(id)).value.Scheduled?
      ensures doneEvent.Ok? ==> doneEvent.value == old(LocalTaskOf(id)).value.doneEvent
      ensures old(LocalTaskOf(id)).Some? ==> LocalTaskOf(id) == Some(Done(output))
      ensures forall k :: k != id ==> LocalTaskOf(k) == old(LocalTaskOf(k))
      ensures taskId == old(taskId) && executionId == old(executionId) && cellCounters == old(cellCounters)
    {
      var previous := ReplaceLocalTask(id, Done(output));
      if previous.Err? {
        return Err(previous.msg);
      }
      if !previous.value.Scheduled? {
        return Err("local task finished, but was not in the scheduled state?");
      }
      return Ok(previous.value.doneEvent);
    }

    /** `find_cell_by_type`: the next index for a cell of type `ty`, taken
        from its counter, which then grows by one; without counters (a
        temporary or torn-down state) the unwrap panics (Err). */
    method FindCellByType(ty: nat) returns (index: Result<nat>)
      modifies this
      ensures index.Err? <==> old(cellCounters).None?
      ensures index.Ok? ==> cellCounters == Some(Allocate(old(cellCounters).value, ty).1)
      ensures index.Ok? ==> index.value == Allocate(old(cellCounters).value, ty).0
      ensures index.Err? ==> cellCounters == old(cellCounters)
      ensures taskId == old(taskId) && executionId == old(executionId) && localTasks == old(localTasks)
      ensures stateful == old(stateful) && hasInvalidator == old(hasInvalidator)
    {
      if cellCounters.None? {
        return Err("cell counters taken");
      }
      var counters := cellCounters.value;
      var current := if ty in counters then counters[ty] else 0;
      cellCounters := Some(counters[ty := current + 1]);
      return Ok(current);
    }
  }

  /** Allocating cells for `types` in turn on a state with counters returns
      the indices `Allocations` gives. */
  method FindCells(state: CurrentTaskState, types: seq<nat>) returns (indices: seq<nat>)
    requires state.cellCounters.Some?
    modifies state
    ensures indices == Allocations(old(state.cellCounters.value), types)
    ensures state.cellCounters == Some(CountersAfter(old(state.cellCounters.value), types))
  {
    indices := [];
    ghost var start := state.cellCounters.value;
    for i := 0 to |types|
      invariant state.cellCounters.Some?
      invariant Allocations(start, types) == indices + Allocations(state.cellCounters.value, types[i..])
      invariant CountersAfter(start, types) == CountersAfter(state.cellCounters.value, types[i..])
    {
      var index := state.FindCellByType(types[i]);
      indices := indices + [index.value];
    }
    assert types[|types|..] == [];
  }
}
