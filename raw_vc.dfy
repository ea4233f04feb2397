/** The type-erased value cell reference `RawVc`: a task's output, a cell
    of a task, or the output of a local task. Resolving one follows outputs
    until it reaches a cell; the trace the backend answers are parameters. */
module RawVcs {
  import opened Wrappers
  import TaskIds
  import Manager

  datatype TaskPersistence = Persistent | Transient | Local

  datatype ReadConsistency = Eventual | Strong

  /** `CellId`: the value type of the cell and its index among the cells of
      that type in its task. */
  datatype CellId = CellId(typeId: nat, index: nat)

  /** `RawVc`. */
  datatype RawVc =
    | TaskOutput(task: nat)
    | TaskCell(task: nat, cell: CellId)
    | LocalOutput(executionId: nat, localTaskId: nat, persistence: TaskPersistence)

  // ---------------------------------------------------------------------------
  // Predicates and accessors

  /** `is_resolved`. */
  predicate IsResolved(v: RawVc) {
    match v
    case TaskOutput(_) => false
    case TaskCell(_, _) => true
    case LocalOutput(_, _, _) => false
  }

  /** `is_local`. */
  predicate IsLocal(v: RawVc) {
    match v
    case TaskOutput(_) => false
    case TaskCell(_, _) => false
    case LocalOutput(_, _, _) => true
  }

  /** `try_get_task_id`: the task of an output or a cell; a local output
      has none. */
  function TryGetTaskId(v: RawVc): (r: Option<nat>)
    ensures r.None? <==> IsLocal(v)
    ensures r.Some? ==> v.task == r.value
  {
    match v
    case TaskOutput(t) => Some(t)
    case TaskCell(t, _) => Some(t)
    case LocalOutput(_, _, _) => None
  }

  /** `try_get_type_id`: the value type of a cell; other references have
      none. */
  function TryGetTypeId(v: RawVc): (r: Option<nat>)
    ensures r.Some? <==> IsResolved(v)
    ensures r.Some? ==> r.value == v.cell.typeId
  {
    match v
    case TaskCell(_, cell) => Some(cell.typeId)
    case TaskOutput(_) => None
    case LocalOutput(_, _, _) => None
  }

  /** `is_transient`: by the task id for outputs and cells, by the recorded
      persistence for a local output. */
  predicate IsTransient(v: RawVc) {
    match v
    case TaskOutput(t) => TaskIds.IsTransient(t)
    case TaskCell(t, _) => TaskIds.IsTransient(t)
    case LocalOutput(_, _, persistence) => persistence == Transient
  }

  /** A reference is resolved or local, never both; it is transient by its
      task id exactly when it has one, and otherwise by its persistence. */
  lemma KindsAgree(v: RawVc)
    ensures !(IsResolved(v) && IsLocal(v))
    ensures IsResolved(v) <==> v.TaskCell?
    ensures IsLocal(v) <==> v.LocalOutput?
    ensures TryGetTaskId(v).Some? ==> (IsTransient(v) <==> TaskIds.IsTransient(TryGetTaskId(v).value))
    ensures TryGetTaskId(v).None? ==> (IsTransient(v) <==> v.persistence == Transient)
  {
  }

  /** `resolved_is_type`: whether a cell holds the given type; on anything
      but a cell the source panics (None). */
  function ResolvedIsType(v: RawVc, ty: nat): (r: Option<bool>)
    ensures r.Some? <==> IsResolved(v)
    ensures r.Some? ==> (r.value <==> TryGetTypeId(v) == Some(ty))
  {
    match v
    case TaskCell(_, cell) => Some(cell.typeId == ty)
    case _ => None
  }

  /** `resolved_has_trait`: whether the type of a cell implements a trait,
      by the registry's `hasTrait`; on anything but a cell the source
      panics (None). */
  function ResolvedHasTrait(v: RawVc, traitId: nat, hasTrait: (nat, nat) -> bool): (r: Option<bool>)
    ensures r.Some? <==> IsResolved(v)
    ensures r.Some? ==> (r.value <==> hasTrait(TryGetTypeId(v).value, traitId))
  {
    match v
    case TaskCell(_, cell) => Some(hasTrait(cell.typeId, traitId))
    case _ => None
  }

  const ConnectMisuse := "RawVc::connect() must only be called on a RawVc::TaskOutput"

  /** `connect`: the task to connect to; anything but a task output is the
      panic (Err). */
  function Connect(v: RawVc): (r: Result<nat>)
    ensures r.Ok? <==> v.TaskOutput?
    ensures r.Ok? ==> TryGetTaskId(v) == Some(r.value)
    ensures r.Err? ==> r.msg == ConnectMisuse
  {
    if v.TaskOutput? then Ok(v.task) else Err(ConnectMisuse)
  }

  // ---------------------------------------------------------------------------
  // Reads

  /** `TypedCellContent`, reduced to the value type and whether the cell
      holds content. */
  datatype CellRead = CellRead(valueType: nat, hasContent: bool)

  /** The backend's answers: the output of a task read with a consistency,
      the output of a local task, and the content of a cell. */
  datatype Backend = Backend(
    readOutput: (nat, ReadConsistency) -> Result<RawVc>,
    readLocal: (nat, nat) -> Result<RawVc>,
    readCell: (nat, CellId) -> Result<CellRead>)

  /** One read issued while resolving, with the consistency in force. */
  datatype Read =
    | OutputRead(task: nat, consistency: ReadConsistency)
    | LocalRead(executionId: nat, localTaskId: nat, consistency: ReadConsistency)

  /** The error when a chain of outputs is longer than the fuel bound. */
  const FuelExhausted := "read chain longer than the fuel bound"

  // ---------------------------------------------------------------------------
  // resolve_inner

  /** What `resolve_inner` returns from `current` with consistency `c`, and
      the trace it issues: outputs are followed until a cell is reached,
      and after the first task output the consistency drops to eventual. */
  function Resolution(b: Backend, current: RawVc, c: ReadConsistency, fuel: nat): (Result<RawVc>, seq<Read>)
    decreases fuel
  {
    match current
    case TaskCell(_, _) => (Ok(current), [])
    case TaskOutput(t) =>
      if fuel == 0 then (Err(FuelExhausted), [])
      else
        var next := b.readOutput(t, c);
        if next.Err? then (Err(next.msg), [OutputRead(t, c)])
        else
          var rest := Resolution(b, next.value, Eventual, fuel - 1);
          (rest.0, [OutputRead(t, c)] + rest.1)
    case LocalOutput(e, l, _) =>
      if fuel == 0 then (Err(FuelExhausted), [])
      else
        var next := b.readLocal(e, l);
        if next.Err? then (Err(next.msg), [LocalRead(e, l, c)])
        else
          var rest := Resolution(b, next.value, c, fuel - 1);
          (rest.0, [LocalRead(e, l, c)] + rest.1)
  }

  /** Resolution ends at a cell: a successful result is always resolved,
      and a cell resolves to itself without trace. */
  lemma {:induction false} ResolutionEndsAtCell(b: Backend, v: RawVc, c: ReadConsistency, fuel: nat)
    ensures Resolution(b, v, c, fuel).0.Ok? ==> IsResolved(Resolution(b, v, c, fuel).0.value)
    ensures IsResolved(v) ==> Resolution(b, v, c, fuel) == (Ok(v), [])
    decreases fuel
  {
    match v
    case TaskCell(_, _) =>
    case TaskOutput(t) =>
      if fuel > 0 && b.readOutput(t, c).Ok? {
        ResolutionEndsAtCell(b, b.readOutput(t, c).value, Eventual, fuel - 1);
      }
    case LocalOutput(e, l, _) =>
      if fuel > 0 && b.readLocal(e, l).Ok? {
        ResolutionEndsAtCell(b, b.readLocal(e, l).value, c, fuel - 1);
      }
  }

  /** The consistency downgrade, read off a trace from its first read: each
      read uses the consistency in force, which becomes eventual after a
      task-output read and is otherwise kept. */
  predicate Downgraded(trace: seq<Read>, c: ReadConsistency)
    decreases |trace|
  {
    trace == [] || (trace[0].consistency == c && Downgraded(trace[1..], if trace[0].OutputRead? then Eventual else c))
  }

  /** What a downgraded trace means: every read up to and including the
      first task-output read uses the caller's consistency `c`, and every
      read after a task-output read is eventual. */
  lemma {:induction false} DowngradedMeans(trace: seq<Read>, c: ReadConsistency)
    requires Downgraded(trace, c)
    ensures forall j :: 0 <= j < |trace| && (forall i :: 0 <= i < j ==> !trace[i].OutputRead?) ==> trace[j].consistency == c
    ensures forall i, j :: 0 <= i < j < |trace| && trace[i].OutputRead? ==> trace[j].consistency == Eventual
    decreases |trace|
  {
    if trace != [] {
      var rest := trace[1..];
      var next := if trace[0].OutputRead? then Eventual else c;
      DowngradedMeans(rest, next);
      forall j | 0 < j < |trace| && (forall i :: 0 <= i < j ==> !trace[i].OutputRead?)
        ensures trace[j].consistency == c
      {
        assert !trace[0].OutputRead?;
        forall i | 0 <= i < j - 1
          ensures !rest[i].OutputRead?
        {
          assert rest[i] == trace[i + 1];
        }
        assert trace[j] == rest[j - 1];
      }
      forall i, j | 0 <= i < j < |trace| && trace[i].OutputRead?
        ensures trace[j].consistency == Eventual
      {
        assert trace[j] == rest[j - 1];
        if i > 0 {
          assert trace[i] == rest[i - 1];
        } else {
          assert next == Eventual;
          if exists k :: 0 <= k < j - 1 && rest[k].OutputRead? {
            var k :| 0 <= k < j - 1 && rest[k].OutputRead?;
            assert rest[j - 1].consistency == Eventual;
          } else {
            assert rest[j - 1].consistency == next;
          }
        }
      }
    }
  }

  /** `resolve_inner`'s reads follow the consistency downgrade. */
  lemma {:induction false} ConsistencyDowngrade(b: Backend, v: RawVc, c: ReadConsistency, fuel: nat)
    ensures Downgraded(Resolution(b, v, c, fuel).1, c)
    decreases fuel
  {
    var trace := Resolution(b, v, c, fuel).1;
    match v
    case TaskCell(_, _) =>
    case TaskOutput(t) =>
      if fuel > 0 && b.readOutput(t, c).Ok? {
        var next := b.readOutput(t, c).value;
        ConsistencyDowngrade(b, next, Eventual, fuel - 1);
        assert trace[1..] == Resolution(b, next, Eventual, fuel - 1).1;
      }
    case LocalOutput(e, l, _) =>
      if fuel > 0 && b.readLocal(e, l).Ok? {
        var next := b.readLocal(e, l).value;
        ConsistencyDowngrade(b, next, c, fuel - 1);
        assert trace[1..] == Resolution(b, next, c, fuel - 1).1;
      }
  }

  /** A local-output read under strong consistency: what the debug
      assertion on local outputs rejects. */
  predicate StrongLocal(r: Read) {
    r.LocalRead? && r.consistency == Strong
  }

  /** The debug assertion on local outputs fails at some read exactly when
      it fails at the first one: when a local output is resolved strongly. */
  lemma StrongLocalReadOnlyAtStart(b: Backend, v: RawVc, c: ReadConsistency, fuel: nat)
    ensures (exists j :: 0 <= j < |Resolution(b, v, c, fuel).1| && StrongLocal(Resolution(b, v, c, fuel).1[j]))
      <==> (v.LocalOutput? && c == Strong && fuel > 0)
  {
    var trace := Resolution(b, v, c, fuel).1;
    ConsistencyDowngrade(b, v, c, fuel);
    DowngradedMeans(trace, c);
    if j :| 0 <= j < |trace| && StrongLocal(trace[j]) {
      assert forall i :: 0 <= i < j ==> !trace[i].OutputRead?;
      assert trace[j].consistency == c;
      assert !trace[0].OutputRead?;
    }
    if v.LocalOutput? && c == Strong && fuel > 0 {
      assert StrongLocal(trace[0]);
    }
  }

  /** `resolve_inner`: follows outputs from `v` until it reaches a cell,
      reading the first task output with the caller's consistency and every
      later one eventually; returns the cell and the trace issued. */
  method ResolveInner(b: Backend, v: RawVc, consistency: ReadConsistency, fuel: nat)
    returns (r: Result<RawVc>, trace: seq<Read>)
    ensures (r, trace) == Resolution(b, v, consistency, fuel)
  {
    var current := v;
    var c := consistency;
    var left := fuel;
    trace := [];
    while true
      invariant Resolution(b, v, consistency, fuel).0 == Resolution(b, current, c, left).0
      invariant Resolution(b, v, consistency, fuel).1 == trace + Resolution(b, current, c, left).1
      decreases left
    {
      assert trace + [] == trace;
      match current {
        case TaskCell(_, _) =>
          return Ok(current), trace;
        case TaskOutput(t) =>
          if left == 0 {
            return Err(FuelExhausted), trace;
          }
          var next := b.readOutput(t, c);
          trace := trace + [OutputRead(t, c)];
          if next.Err? {
            return Err(next.msg), trace;
          }
          current, c, left := next.value, Eventual, left - 1;
        case LocalOutput(e, l, _) =>
          if left == 0 {
            return Err(FuelExhausted), trace;
          }
          var next := b.readLocal(e, l);
          trace := trace + [LocalRead(e, l, c)];
          if next.Err? {
            return Err(next.msg), trace;
          }
          current, left := next.value, left - 1;
      }
    }
  }

  // ---------------------------------------------------------------------------
  // to_non_local

  /** What `to_non_local` returns: local outputs are followed until a
      reference that is not local. */
  function NonLocal(b: Backend, current: RawVc, fuel: nat): Result<RawVc>
    decreases fuel
  {
    match current
    case LocalOutput(e, l, _) =>
      if fuel == 0 then Err(FuelExhausted)
      else
        var next := b.readLocal(e, l);
        if next.Err? then Err(next.msg) else NonLocal(b, next.value, fuel - 1)
    case _ => Ok(current)
  }

  /** The result of `to_non_local` is never local, a reference that is not
      local is returned as it is, and when resolution succeeds through a
      chain of local outputs it continues from `to_non_local`'s result. */
  lemma {:induction false} NonLocalIsNotLocal(b: Backend, v: RawVc, c: ReadConsistency, fuel: nat)
    ensures NonLocal(b, v, fuel).Ok? ==> !IsLocal(NonLocal(b, v, fuel).value)
    ensures !IsLocal(v) ==> NonLocal(b, v, fuel) == Ok(v)
    ensures NonLocal(b, v, fuel).Ok? ==>
      (|| Resolution(b, v, c, fuel).0 == Resolution(b, NonLocal(b, v, fuel).value, c, fuel).0
       || Resolution(b, v, c, fuel).0 == Err(FuelExhausted))
    decreases fuel
  {
    match v
    case LocalOutput(e, l, _) =>
      if fuel > 0 && b.readLocal(e, l).Ok? {
        var next := b.readLocal(e, l).value;
        NonLocalIsNotLocal(b, next, c, fuel - 1);
        if NonLocal(b, v, fuel).Ok? {
          FuelMonotone(b, NonLocal(b, v, fuel).value, c, fuel - 1);
        }
      }
    case _ =>
  }

  /** More fuel does not change a resolution that finished. */
  lemma {:induction false} FuelMonotone(b: Backend, v: RawVc, c: ReadConsistency, fuel: nat)
    ensures Resolution(b, v, c, fuel).0 != Err(FuelExhausted) ==> Resolution(b, v, c, fuel + 1) == Resolution(b, v, c, fuel)
    decreases fuel
  {
    match v
    case TaskCell(_, _) =>
    case TaskOutput(t) =>
      if fuel > 0 && b.readOutput(t, c).Ok? {
        FuelMonotone(b, b.readOutput(t, c).value, Eventual, fuel - 1);
      }
    case LocalOutput(e, l, _) =>
      if fuel > 0 && b.readLocal(e, l).Ok? {
        FuelMonotone(b, b.readLocal(e, l).value, c, fuel - 1);
      }
  }

  /** `to_non_local`, as the loop the source writes. */
  method ToNonLocal(b: Backend, v: RawVc, fuel: nat) returns (r: Result<RawVc>)
    ensures r == NonLocal(b, v, fuel)
  {
    var current := v;
    var left := fuel;
    while current.LocalOutput?
      invariant NonLocal(b, v, fuel) == NonLocal(b, current, left)
      decreases left
    {
      if left == 0 {
        return Err(FuelExhausted);
      }
      var next := b.readLocal(current.executionId, current.localTaskId);
      if next.Err? {
        return Err(next.msg);
      }
      current, left := next.value, left - 1;
    }
    return Ok(current);
  }

  // ---------------------------------------------------------------------------
  // resolve_type_inner

  /** `ResolveTypeError`. */
  datatype ResolveTypeError = NoContent | UntypedContent | TaskError(source: string) | ReadError(source: string)

  /** What `resolve_type_inner` returns: the cell the chain ends at when
      its type satisfies the condition, None when it does not, or an error;
      `Unfinished` when the chain is longer than the fuel bound. */
  datatype TypeResolution = Resolved(vc: Option<RawVc>) | Failed(error: ResolveTypeError) | Unfinished

  /** `resolve_type_inner` with the condition on the cell's value type;
      outputs are read with the default (eventual) consistency. */
  function TypeResolutionOf(b: Backend, current: RawVc, cond: nat -> bool, fuel: nat): TypeResolution
    decreases fuel
  {
    match current
    case TaskOutput(t) =>
      if fuel == 0 then Unfinished
      else
        var next := b.readOutput(t, Eventual);
        if next.Err? then Failed(TaskError(next.msg)) else TypeResolutionOf(b, next.value, cond, fuel - 1)
    case TaskCell(t, cell) =>
      var content := b.readCell(t, cell);
      if content.Err? then Failed(ReadError(content.msg))
      else if !content.value.hasContent then Failed(NoContent)
      else Resolved(if cond(content.value.valueType) then Some(current) else None)
    case LocalOutput(e, l, _) =>
      if fuel == 0 then Unfinished
      else
        var next := b.readLocal(e, l);
        if next.Err? then Failed(TaskError(next.msg)) else TypeResolutionOf(b, next.value, cond, fuel - 1)
  }

  /** `resolve_value`: the condition is equality with the wanted type. */
  function ResolveValue(b: Backend, v: RawVc, valueType: nat, fuel: nat): TypeResolution {
    TypeResolutionOf(b, v, (t: nat) => t == valueType, fuel)
  }

  /** `resolve_trait`: the condition is that the type implements the trait. */
  function ResolveTrait(b: Backend, v: RawVc, traitId: nat, hasTrait: (nat, nat) -> bool, fuel: nat): TypeResolution {
    TypeResolutionOf(b, v, (t: nat) => hasTrait(t, traitId), fuel)
  }

  /** Type resolution reaches the cell an eventual `resolve` reaches: it
      returns that cell when its content's type satisfies the condition,
      None when it does not, and fails when the cell cannot be read or is
      empty; and an output read that fails in `resolve` fails here too. */
  lemma {:induction false} TypeResolutionFollowsResolve(b: Backend, v: RawVc, cond: nat -> bool, fuel: nat)
    ensures var res := Resolution(b, v, Eventual, fuel).0;
      res.Ok? && res.value.TaskCell? ==>
        var x := res.value;
        var content := b.readCell(x.task, x.cell);
        TypeResolutionOf(b, v, cond, fuel) ==
          if content.Err? then Failed(ReadError(content.msg))
          else if !content.value.hasContent then Failed(NoContent)
          else Resolved(if cond(content.value.valueType) then Some(x) else None)
    ensures var res := Resolution(b, v, Eventual, fuel).0;
      res.Err? && res.msg != FuelExhausted ==> TypeResolutionOf(b, v, cond, fuel) == Failed(TaskError(res.msg))
    decreases fuel
  {
    match v
    case TaskCell(_, _) =>
    case TaskOutput(t) =>
      if fuel > 0 && b.readOutput(t, Eventual).Ok? {
        TypeResolutionFollowsResolve(b, b.readOutput(t, Eventual).value, cond, fuel - 1);
      }
    case LocalOutput(e, l, _) =>
      if fuel > 0 && b.readLocal(e, l).Ok? {
        TypeResolutionFollowsResolve(b, b.readLocal(e, l).value, cond, fuel - 1);
      }
  }

  /** A value found by `resolve_value` is a cell whose content has the
      wanted type; one found by `resolve_trait` is a cell whose content's
      type implements the trait. */
  lemma {:induction false} FoundCellsMatch(b: Backend, v: RawVc, valueType: nat, traitId: nat, hasTrait: (nat, nat) -> bool, fuel: nat)
    ensures var r := ResolveValue(b, v, valueType, fuel);
      r.Resolved? && r.vc.Some? ==> r.vc.value.TaskCell? && b.readCell(r.vc.value.task, r.vc.value.cell) == Ok(CellRead(valueType, true))
    ensures var r := ResolveTrait(b, v, traitId, hasTrait, fuel);
      r.Resolved? && r.vc.Some? ==>
        (&& r.vc.value.TaskCell?
         && b.readCell(r.vc.value.task, r.vc.value.cell).Ok?
         && hasTrait(b.readCell(r.vc.value.task, r.vc.value.cell).value.valueType, traitId))
    decreases fuel
  {
    match v
    case TaskCell(_, _) =>
    case TaskOutput(t) =>
      if fuel > 0 && b.readOutput(t, Eventual).Ok? {
        FoundCellsMatch(b, b.readOutput(t, Eventual).value, valueType, traitId, hasTrait, fuel - 1);
      }
    case LocalOutput(e, l, _) =>
      if fuel > 0 && b.readLocal(e, l).Ok? {
        FoundCellsMatch(b, b.readLocal(e, l).value, valueType, traitId, hasTrait, fuel - 1);
      }
  }

  /** `resolve_type_inner`, as the loop the source writes. */
  method ResolveTypeInner(b: Backend, v: RawVc, cond: nat -> bool, fuel: nat) returns (r: TypeResolution)
    ensures r == TypeResolutionOf(b, v, cond, fuel)
  {
    var current := v;
    var left := fuel;
    while !current.TaskCell?
      invariant TypeResolutionOf(b, v, cond, fuel) == TypeResolutionOf(b, current, cond, left)
      decreases left
    {
      if left == 0 {
        return Unfinished;
      }
      var next := if current.TaskOutput? then b.readOutput(current.task, Eventual)
        else b.readLocal(current.executionId, current.localTaskId);
      if next.Err? {
        return Failed(TaskError(next.msg));
      }
      current, left := next.value, left - 1;
    }
    var content := b.readCell(current.task, current.cell);
    if content.Err? {
      return Failed(ReadError(content.msg));
    }
    if !content.value.hasContent {
      return Failed(NoContent);
    }
    return Resolved(if cond(content.value.valueType) then Some(current) else None);
  }

  // ---------------------------------------------------------------------------
  // ReadRawVcFuture options

  /** The options a `ReadRawVcFuture` reads with: the consistency of output
      reads, how output and cell reads are tracked, and the final-read
      hint. */
  datatype ReadOptions = ReadOptions(
    consistency: ReadConsistency,
    outputTracking: Manager.ReadTracking,
    cellTracking: Manager.ReadTracking,
    finalReadHint: bool)

  /** `ReadRawVcFuture::new`: default options. */
  const DefaultReadOptions := ReadOptions(Eventual, Manager.Tracked, Manager.Tracked, false)

  /** `strongly_consistent`. */
  function StronglyConsistent(o: ReadOptions): ReadOptions {
    o.(consistency := Strong)
  }

  /** `untracked`: only errors are tracked, for outputs and cells. */
  function Untracked(o: ReadOptions): ReadOptions {
    o.(outputTracking := Manager.TrackOnlyError, cellTracking := Manager.TrackOnlyError)
  }

  /** `untracked_including_errors`: nothing is tracked. */
  function UntrackedIncludingErrors(o: ReadOptions): ReadOptions {
    o.(outputTracking := Manager.Untracked, cellTracking := Manager.Untracked)
  }

  /** `final_read_hint`. */
  function FinalReadHint(o: ReadOptions): ReadOptions {
    o.(finalReadHint := true)
  }

  /** The consistency setter commutes with the tracking setters, the later
      tracking setter wins, and from the defaults output and cell reads are
      tracked alike after any of them; an untracked read still records a
      failed read and an untracked-including-errors read records none. */
  lemma ReadOptionBuilders(o: ReadOptions, isErr: bool)
    ensures StronglyConsistent(Untracked(o)) == Untracked(StronglyConsistent(o))
    ensures StronglyConsistent(UntrackedIncludingErrors(o)) == UntrackedIncludingErrors(StronglyConsistent(o))
    ensures Untracked(UntrackedIncludingErrors(o)) == Untracked(o)
    ensures UntrackedIncludingErrors(Untracked(o)) == UntrackedIncludingErrors(o)
    ensures Manager.ShouldTrack(Untracked(o).outputTracking, isErr) <==> isErr
    ensures !Manager.ShouldTrack(UntrackedIncludingErrors(o).cellTracking, isErr)
    ensures var d := StronglyConsistent(DefaultReadOptions);
      d.consistency == Strong && d.outputTracking == d.cellTracking == Manager.Tracked
  {
  }
}
