/** Backend operations on task storage: the guard through which an
    operation reads and writes a task's cached data items (tracking which
    categories of persistent data were modified), the one-time prefetch of
    a task's dependencies, and operations that nest other operations. */
module Operations {
  import opened Wrappers
  import TaskIds
  import RawVcs

  /** `TaskDataCategory`. */
  datatype TaskDataCategory = Data | Meta | All

  /** `check_access`: the debug assertion that data of category `item` is
      only touched through a guard restored for it; `All` data is not
      checked. */
  predicate AccessAllowed(guard: TaskDataCategory, item: TaskDataCategory) {
    match item
    case All => true
    case Data => guard == Data || guard == All
    case Meta => guard == Meta || guard == All
  }

  /** Data and meta items need a guard of the same category or `All`; a
      guard for `All` may touch everything. */
  lemma AccessRule(guard: TaskDataCategory, item: TaskDataCategory)
    ensures AccessAllowed(guard, item) <==> item == All || guard == All || guard == item
    ensures AccessAllowed(All, item)
  {
  }

  /** A reference to a cell of a task. */
  datatype CellRef = CellRef(task: nat, cell: RawVcs.CellId)

  /** The keys of cached data items that the operations here use. */
  datatype Key =
    | Dirty
    | Stateful
    | Immutable
    | CellData(cell: RawVcs.CellId)
    | InProgressCell(cell: RawVcs.CellId)
    | CellDependent(dependentCell: RawVcs.CellId, dependent: nat)
    | CellDependency(cellTarget: CellRef)
    | OutdatedCellDependency(outdatedTarget: CellRef)
    | OutputDependency(outputTarget: nat)
    | CollectiblesDependency(collectiblesTask: nat, traitId: nat)
    | OtherKey(id: nat)

  /** How a key is classified by the data schema: whether it is persisted
      and which category it belongs to. */
  datatype Schema = Schema(persistent: Key -> bool, category: Key -> TaskDataCategory)

  // ---------------------------------------------------------------------------
  // Prefetch

  /** The tasks a task depends on through outputs, cells or collectibles. */
  function DependencyTargets(storage: map<Key, nat>): set<nat> {
    set k | k in storage && (k.OutputDependency? || k.CellDependency? || k.CollectiblesDependency?) ::
      match k
      case OutputDependency(t) => t
      case CellDependency(target) => target.task
      case CollectiblesDependency(t, _) => t
      case _ => 0
  }

  /** Whether the task depends on a cell or the collectibles of `t`. */
  predicate DependsOnCellOrCollectibles(storage: map<Key, nat>, t: nat) {
    exists k :: k in storage && ((k.CellDependency? && k.cellTarget.task == t) || (k.CollectiblesDependency? && k.collectiblesTask == t))
  }

  /** The map `prefetch` collects: each dependency target, to true when a
      cell or collectibles dependency names it (they are chained after the
      output dependencies, so their entry wins). */
  function PrefetchMap(storage: map<Key, nat>): (r: map<nat, bool>)
    ensures r.Keys == DependencyTargets(storage)
    ensures forall t :: t in r ==> (r[t] <==> DependsOnCellOrCollectibles(storage, t))
  {
    map t | t in DependencyTargets(storage) :: DependsOnCellOrCollectibles(storage, t)
  }

  /** The number of distinct targets above which prefetching is worth a
      background job. */
  const PrefetchThreshold := 16

  // ---------------------------------------------------------------------------
  // Task guard

  /** `TaskGuardImpl`: the cached data items of one task, accessed with a
      category; `modified` records the categories whose persistent data
      changed and must be written back. */
  class TaskGuard {
    const taskId: nat
    const category: TaskDataCategory
    const schema: Schema
    var storage: map<Key, nat>
    var modified: set<TaskDataCategory>
    var prefetched: bool

    constructor (taskId: nat, category: TaskDataCategory, schema: Schema, storage: map<Key, nat>, prefetched: bool)
      ensures this.taskId == taskId && this.category == category && this.schema == schema
      ensures this.storage == storage && modified == {} && this.prefetched == prefetched
    {
      this.taskId := taskId;
      this.category := category;
      this.schema := schema;
      this.storage := storage;
      modified := {};
      this.prefetched := prefetched;
    }

    /** A change to `key` must be written back: the task is persistent and
        the item is persisted. */
    predicate Tracked(key: Key) {
      !TaskIds.IsTransient(taskId) && schema.persistent(key)
    }

    /** `add`: stores the item unless its key is present; a persisted item
        of a persistent task whose key is present is refused before any
        modification is recorded. */
    method Add(key: Key, value: nat) returns (added: bool)
      modifies this
      ensures added <==> key !in old(storage)
      ensures storage == if added then old(storage)[key := value] else old(storage)
      ensures modified == if added && Tracked(key) then old(modified) + {schema.category(key)} else old(modified)
      ensures prefetched == old(prefetched)
    {
      if Tracked(key) {
        if key in storage {
          return false;
        }
        modified := modified + {schema.category(key)};
      }
      added := key !in storage;
      if added {
        storage := storage[key := value];
      }
    }

    /** `add_new`: as `add`, but a present key is the panic "Item already
        exists" (Err). */
    method AddNew(key: Key, value: nat) returns (r: Result<()>)
      modifies this
      ensures r.Ok? <==> key !in old(storage)
      ensures r.Ok? ==> storage == old(storage)[key := value]
      ensures r.Err? ==> storage == old(storage) && modified == old(modified)
    {
      var added := Add(key, value);
      if !added {
        return Err("Item already exists");
      }
      return Ok(());
    }

    /** `insert`: stores the item, replacing and returning an earlier value. */
    method Insert(key: Key, value: nat) returns (previous: Option<nat>)
      modifies this
      ensures previous == (if key in old(storage) then Some(old(storage)[key]) else None)
      ensures storage == old(storage)[key := value]
      ensures modified == if Tracked(key) then old(modified) + {schema.category(key)} else old(modified)
      ensures prefetched == old(prefetched)
    {
      if Tracked(key) {
        modified := modified + {schema.category(key)};
      }
      previous := if key in storage then Some(storage[key]) else None;
      storage := storage[key := value];
    }

    /** `remove`: deletes the item and returns its value. */
    method Remove(key: Key) returns (previous: Option<nat>)
      modifies this
      ensures previous == (if key in old(storage) then Some(old(storage)[key]) else None)
      ensures storage == old(storage) - {key}
      ensures modified == if Tracked(key) then old(modified) + {schema.category(key)} else old(modified)
      ensures prefetched == old(prefetched)
    {
      if Tracked(key) {
        modified := modified + {schema.category(key)};
      }
      previous := if key in storage then Some(storage[key]) else None;
      storage := storage - {key};
    }

    /** `update`: replaces the item by what `f` makes of it; None deletes. */
    method Update(key: Key, f: Option<nat> -> Option<nat>)
      modifies this
      ensures var next := f(if key in old(storage) then Some(old(storage)[key]) else None);
        storage == if next.Some? then old(storage)[key := next.value] else old(storage) - {key}
      ensures modified == if Tracked(key) then old(modified) + {schema.category(key)} else old(modified)
    {
      if Tracked(key) {
        modified := modified + {schema.category(key)};
      }
      var next := f(if key in storage then Some(storage[key]) else None);
      storage := if next.Some? then storage[key := next.value] else storage - {key};
    }

    /** `has_key`. */
    predicate HasKey(key: Key)
      reads this
    {
      key in storage
    }

    /** `is_immutable`. */
    predicate IsImmutable()
      reads this
    {
      Immutable in storage
    }

    /** `invalidate_serialization`: a persistent task marks both specific
        categories as modified. */
    method InvalidateSerialization()
      modifies this
      ensures modified == if TaskIds.IsTransient(taskId) then old(modified) else old(modified) + {Data, Meta}
      ensures storage == old(storage)
    {
      if !TaskIds.IsTransient(taskId) {
        modified := modified + {Data, Meta};
      }
    }

    /** `prefetch`: only the first call does anything; it returns the
        dependency targets when there are more than 16 of them. */
    method Prefetch() returns (r: Option<map<nat, bool>>)
      modifies this
      ensures prefetched
      ensures r.Some? <==> !old(prefetched) && |DependencyTargets(storage)| > PrefetchThreshold
      ensures r.Some? ==> r.value == PrefetchMap(storage)
      ensures storage == old(storage) && modified == old(modified)
    {
      if !prefetched {
        prefetched := true;
        var targets := PrefetchMap(storage);
        if |targets| > PrefetchThreshold {
          return Some(targets);
        }
      }
      return None;
    }
  }

  /** Only the first prefetch of a guard can return targets; a second one
      returns nothing. */
  method PrefetchTwice(guard: TaskGuard) returns (first: Option<map<nat, bool>>, second: Option<map<nat, bool>>)
    modifies guard
    ensures second.None?
    ensures first.Some? ==> |first.value| > PrefetchThreshold
  {
    first := guard.Prefetch();
    second := guard.Prefetch();
  }

  // ---------------------------------------------------------------------------
  // Once tasks

  /** The kinds of transient task. */
  datatype TransientTask = Root | Once

  /** `is_once_task`: a transient task registered as a once task. */
  function IsOnceTask(transientTasks: map<nat, TransientTask>, task: nat): (r: bool)
    ensures r ==> TaskIds.IsTransient(task) && task in transientTasks
    ensures !TaskIds.IsTransient(task) ==> !r
  {
    if !TaskIds.IsTransient(task) then false
    else if task in transientTasks then transientTasks[task] == Once
    else false
  }

  // ---------------------------------------------------------------------------
  // Nested operations

  /** `AnyOperation`, with the concrete operations named by an id. */
  datatype AnyOperation =
    | ConnectChild(id: nat)
    | Invalidate(id: nat)
    | UpdateCell(id: nat)
    | CleanupOldEdges(id: nat)
    | AggregationUpdate(id: nat)
    | Nested(ops: seq<AnyOperation>)

  /** The concrete operations an operation runs, in order. */
  function Leaves(op: AnyOperation): seq<AnyOperation>
    decreases op, 1
  {
    if op.Nested? then LeavesOf(op.ops) else [op]
  }

  function LeavesOf(ops: seq<AnyOperation>): seq<AnyOperation>
    decreases ops, 0
  {
    if ops == [] then [] else LeavesOf(ops[..|ops| - 1]) + Leaves(ops[|ops| - 1])
  }

  /** Running an operation runs no nested operation itself, and running a
      nested operation inside another runs the same as splicing its
      children in. */
  lemma {:induction false} LeavesFlat(op: AnyOperation)
    ensures forall l :: l in Leaves(op) ==> !l.Nested?
    decreases op, 1
  {
    if op.Nested? {
      LeavesOfFlat(op.ops);
    }
  }

  lemma {:induction false} LeavesOfFlat(ops: seq<AnyOperation>)
    ensures forall l :: l in LeavesOf(ops) ==> !l.Nested?
    decreases ops, 0
  {
    if ops != [] {
      LeavesOfFlat(ops[..|ops| - 1]);
      LeavesFlat(ops[|ops| - 1]);
    }
  }

  /** Splitting the children of a nested operation splits what it runs. */
  lemma {:induction false} LeavesOfAppend(a: seq<AnyOperation>, b: seq<AnyOperation>)
    ensures LeavesOf(a + b) == LeavesOf(a) + LeavesOf(b)
    decreases |b|
  {
    if b == [] {
      assert a + b == a;
    } else {
      var init := b[..|b| - 1];
      assert (a + b)[..|a + b| - 1] == a + init;
      assert (a + b)[|a + b| - 1] == b[|b| - 1];
      LeavesOfAppend(a, init);
    }
  }

  /** A nested operation among the children runs as if its children were
      spliced in. */
  lemma NestedSplices(before: seq<AnyOperation>, inner: seq<AnyOperation>, after: seq<AnyOperation>)
    ensures Leaves(Nested(before + [Nested(inner)] + after)) == Leaves(Nested(before + inner + after))
  {
    LeavesOfAppend(before + [Nested(inner)], after);
    LeavesOfAppend(before, [Nested(inner)]);
    LeavesOfAppend(before + inner, after);
    LeavesOfAppend(before, inner);
    assert LeavesOf([Nested(inner)]) == LeavesOf([]) + Leaves(Nested(inner));
  }

  /** The operations run so far. */
  class ExecutionLog {
    var executed: seq<AnyOperation>

    constructor ()
      ensures executed == []
    {
      executed := [];
    }
  }

  /** `AnyOperation::execute`: a concrete operation runs; a nested one runs
      its children in order. */
  method Execute(op: AnyOperation, log: ExecutionLog)
    modifies log
    ensures log.executed == old(log.executed) + Leaves(op)
    decreases op
  {
    match op {
      case Nested(ops) =>
        for i := 0 to |ops|
          invariant log.executed == old(log.executed) + LeavesOf(ops[..i])
        {
          assert ops[..i + 1][..i] == ops[..i];
          assert ops[i] in ops;
          Execute(ops[i], log);
        }
        assert ops[..|ops|] == ops;
      case _ =>
        log.executed := log.executed + [op];
    }
  }
}
