/** The disk watcher. In non-recursive mode every directory is watched on
    its own, so the watcher keeps the set of directories it has watched:
    never the root (watched when watching starts) and, for every entry,
    all directories between it and the root. Events from the notify
    watcher are sorted into batches of paths to invalidate. Paths are
    sequences of components; a path's ancestors are its prefixes. */
module Watcher {
  import opened Wrappers

  type Path = seq<string>

  /** `Path::parent`: none for the empty path. */
  function Parent(p: Path): (r: Option<Path>)
    ensures r.Some? <==> p != []
    ensures r.Some? ==> |r.value| + 1 == |p| && p[..|r.value|] == r.value
  {
    if p == [] then None else Some(p[..|p| - 1])
  }

  /** `p` lies strictly below `dir`. */
  predicate StrictlyUnder(dir: Path, p: Path) {
    |dir| < |p| && p[..|dir|] == dir
  }

  /** The invariant of the watched set: it never holds the root, and every
      entry lies below the root with every directory in between also in
      the set. */
  predicate WatchedInvariant(watched: set<Path>, root: Path) {
    && root !in watched
    && (forall p :: p in watched ==> StrictlyUnder(root, p))
    && (forall p, j :: p in watched && |root| < j < |p| ==> p[..j] in watched)
  }

  // ---------------------------------------------------------------------------
  // The ancestor walk

  /** Where the walk over the proper ancestors of `dir`, from the longest
      down, stops: the length of the first one below `k` that is the root
      or already watched; none when there is none. */
  function StopBelow(watched: set<Path>, root: Path, dir: Path, k: nat): (r: Option<nat>)
    requires k <= |dir|
    ensures r.Some? ==> r.value < k && (dir[..r.value] == root || dir[..r.value] in watched)
    ensures r.Some? ==> forall j :: r.value < j < k ==> dir[..j] != root && dir[..j] !in watched
    ensures r.None? ==> forall j :: 0 <= j < k ==> dir[..j] != root && dir[..j] !in watched
  {
    if k == 0 then None
    else if dir[..k - 1] == root || dir[..k - 1] in watched then Some(k - 1)
    else StopBelow(watched, root, dir, k - 1)
  }

  /** The directories the walk watches, closest to the root first and
      `dir` last: those strictly between the stop and `dir`, and `dir`. */
  function Plan(dir: Path, stop: nat): (r: seq<Path>)
    requires stop < |dir|
    ensures |r| == |dir| - stop && r[|r| - 1] == dir
    ensures forall i :: 0 <= i < |r| ==> r[i] == dir[..stop + 1 + i]
  {
    seq(|dir| - stop, i requires 0 <= i < |dir| - stop => dir[..stop + 1 + i])
  }

  /** The walk finds a stop exactly for directories below the root. */
  lemma {:induction false} WalkStopsBelowRoot(watched: set<Path>, root: Path, dir: Path)
    requires WatchedInvariant(watched, root)
    ensures StopBelow(watched, root, dir, |dir|).Some? <==> StrictlyUnder(root, dir)
  {
    var stop := StopBelow(watched, root, dir, |dir|);
    if StrictlyUnder(root, dir) {
      assert dir[..|root|] == root;
    }
    if stop.Some? {
      var s := stop.value;
      if dir[..s] != root {
        assert StrictlyUnder(root, dir[..s]);
        assert dir[..s][..|root|] == dir[..|root|];
      }
    }
  }

  /** Adding any prefix of the plan (the walk may stop at a failing watch)
      keeps the invariant: each directory's parents are watched before it.
      The directories added are `dir` and its ancestors, and the whole plan
      ends with `dir`. */
  lemma PlanPrefixKeepsInvariant(watched: set<Path>, root: Path, dir: Path, n: nat)
    requires WatchedInvariant(watched, root)
    requires StopBelow(watched, root, dir, |dir|).Some?
    requires n <= |dir| - StopBelow(watched, root, dir, |dir|).value
    ensures var added := set i | 0 <= i < n :: Plan(dir, StopBelow(watched, root, dir, |dir|).value)[i];
      && WatchedInvariant(watched + added, root)
      && (forall p :: p in added ==> |p| <= |dir| && dir[..|p|] == p)
      && (n == |dir| - StopBelow(watched, root, dir, |dir|).value ==> dir in added)
  {
    var s := StopBelow(watched, root, dir, |dir|).value;
    var plan := Plan(dir, s);
    var added := set i | 0 <= i < n :: plan[i];
    assert StrictlyUnder(root, dir) by { WalkStopsBelowRoot(watched, root, dir); }
    assert |root| <= s by {
      if dir[..s] != root {
        assert StrictlyUnder(root, dir[..s]);
      }
    }
    forall p | p in added
      ensures StrictlyUnder(root, p) && |p| <= |dir| && dir[..|p|] == p
      ensures forall j :: |root| < j < |p| ==> p[..j] in watched + added
    {
      var i :| 0 <= i < n && plan[i] == p;
      PlanEntryParents(watched, root, dir, s, s + 1 + i);
      forall j | |root| < j < |p| && s < j
        ensures p[..j] in added
      {
        assert plan[j - s - 1] == p[..j];
      }
    }
    if n == |plan| {
      assert plan[n - 1] == dir;
    }
  }

  /** An ancestor `dir[..m]` above the stop lies below the root, and its
      own ancestors down to the stop are already watched. */
  lemma PlanEntryParents(watched: set<Path>, root: Path, dir: Path, s: nat, m: nat)
    requires WatchedInvariant(watched, root)
    requires |root| <= s < m <= |dir| && dir[..|root|] == root
    requires dir[..s] == root || dir[..s] in watched
    ensures StrictlyUnder(root, dir[..m]) && dir[..m][..|dir[..m]|] == dir[..m]
    ensures forall j :: |root| < j <= s ==> dir[..m][..j] in watched
  {
    assert dir[..m][..|root|] == root;
    forall j | |root| < j <= s
      ensures dir[..m][..j] in watched
    {
      assert dir[..m][..j] == dir[..j];
      if j < s {
        assert dir[..s][..j] == dir[..j];
      }
    }
  }

  /** The position of the first directory in `plan` whose watch fails, or
      the plan's length when none does. */
  function FirstFailure(plan: seq<Path>, fails: Path -> bool): (n: nat)
    ensures n <= |plan|
    ensures forall i :: 0 <= i < n ==> !fails(plan[i])
    ensures n < |plan| ==> fails(plan[n])
  {
    if plan == [] then 0
    else if fails(plan[0]) then 0
    else 1 + FirstFailure(plan[1..], fails)
  }

  // ---------------------------------------------------------------------------
  // The watcher

  /** `DiskWatcher`, with the notify watcher reduced to the directories it
      was asked to watch and which of those watches fail with an error
      other than "path not found". */
  class DiskWatcher {
    const nonRecursive: bool
    const root: Path
    const watchFails: Path -> bool
    var watching: bool
    var watched: set<Path>
    var watchCalls: seq<Path>

    /** `new`: stopped. */
    constructor (nonRecursive: bool, root: Path, watchFails: Path -> bool)
      ensures this.nonRecursive == nonRecursive && this.root == root && this.watchFails == watchFails
      ensures !watching && watched == {} && watchCalls == []
      ensures Valid()
    {
      this.nonRecursive := nonRecursive;
      this.root := root;
      this.watchFails := watchFails;
      watching := false;
      watched := {};
      watchCalls := [];
    }

    predicate Valid()
      reads this
    {
      WatchedInvariant(watched, root)
    }

    /** `start_watching`: nothing when already watching; otherwise the root
        is watched (a failure leaves the watcher stopped) and watching
        starts with an empty watched set. */
    method StartWatching() returns (r: Result<()>)
      modifies this
      ensures old(watching) ==> r.Ok? && watched == old(watched) && watchCalls == old(watchCalls) && watching
      ensures !old(watching) ==> watchCalls == old(watchCalls) + [root]
      ensures !old(watching) ==> (r.Ok? <==> !watchFails(root))
      ensures !old(watching) && r.Ok? ==> watching && watched == {}
      ensures r.Err? ==> !watching && watched == old(watched)
      ensures old(Valid()) ==> Valid()
    {
      if watching {
        return Ok(());
      }
      watchCalls := watchCalls + [root];
      if watchFails(root) {
        return Err("Unable to watch the root");
      }
      watched := {};
      watching := true;
      return Ok(());
    }

    /** `stop_watching`. */
    method StopWatching()
      modifies this
      ensures !watching && watched == old(watched) && watchCalls == old(watchCalls)
    {
      watching := false;
    }

    /** `start_watching_dir`: asks the notify watcher to watch `dir`. */
    method StartWatchingDir(dir: Path) returns (r: Result<()>)
      requires dir != root
      modifies this
      ensures watchCalls == old(watchCalls) + [dir]
      ensures r.Ok? <==> !watchFails(dir)
      ensures watched == old(watched) && watching == old(watching)
    {
      watchCalls := watchCalls + [dir];
      if watchFails(dir) {
        return Err("Unable to watch directory");
      }
      return Ok(());
    }

    /** `start_watching_dir_and_parents`: walks up from `dir` to the root
        or a watched ancestor (failing when it finds neither), then watches
        and records the directories found, closest to the root first,
        stopping at the first failing watch. */
    method StartWatchingDirAndParents(dir: Path) returns (r: Result<()>)
      requires forall p :: p in watched ==> p == dir || StrictlyUnder(root, p)
      modifies this
      ensures watching == old(watching)
      ensures var stop := StopBelow(old(watched), root, dir, |dir|);
        stop.None? ==> r.Err? && watched == old(watched) && watchCalls == old(watchCalls)
      ensures var stop := StopBelow(old(watched), root, dir, |dir|);
        stop.Some? ==>
          var plan := Plan(dir, stop.value);
          var n := FirstFailure(plan, watchFails);
          && (r.Ok? <==> n == |plan|)
          && watched == old(watched) + (set i | 0 <= i < n :: plan[i])
          && watchCalls == old(watchCalls) + plan[..if n < |plan| then n + 1 else n]
    {
      var stop := WalkAncestors(dir);
      if stop.None? {
        return Err("failed to find the fs root");
      }
      var k := stop.value;
      var plan := Plan(dir, k);
      forall i | 0 <= i < |plan|
        ensures plan[i] != root
      {
        if dir[..k] != root {
          assert dir[..k] in watched && dir[..k] != dir;
        }
        assert |plan[i]| > k;
      }
      r := WatchInOrder(plan);
    }

    /** The walk over the proper ancestors of `dir`, from the longest down,
        until the root or a watched one. */
    method WalkAncestors(dir: Path) returns (stop: Option<nat>)
      ensures stop == StopBelow(watched, root, dir, |dir|)
    {
      var k: nat := |dir|;
      var found := false;
      while k > 0 && !found
        invariant k <= |dir|
        invariant found ==> StopBelow(watched, root, dir, |dir|) == Some(k)
        invariant !found ==> StopBelow(watched, root, dir, |dir|) == StopBelow(watched, root, dir, k)
      {
        k := k - 1;
        found := dir[..k] == root || dir[..k] in watched;
      }
      return if found then Some(k) else None;
    }

    /** Watches and records each directory of `plan` in order, stopping at
        the first failing watch. */
    method WatchInOrder(plan: seq<Path>) returns (r: Result<()>)
      requires forall i :: 0 <= i < |plan| ==> plan[i] != root
      modifies this
      ensures watching == old(watching)
      ensures var n := FirstFailure(plan, watchFails);
        && (r.Ok? <==> n == |plan|)
        && watched == old(watched) + (set i | 0 <= i < n :: plan[i])
        && watchCalls == old(watchCalls) + plan[..if n < |plan| then n + 1 else n]
    {
      ghost var n := FirstFailure(plan, watchFails);
      for j := 0 to |plan|
        invariant j <= n
        invariant watched == old(watched) + (set i | 0 <= i < j :: plan[i])
        invariant watchCalls == old(watchCalls) + plan[..j]
        invariant watching == old(watching)
      {
        r := StartWatchingDir(plan[j]);
        assert plan[..j + 1] == plan[..j] + [plan[j]];
        if r.Err? {
          return r;
        }
        watched := watched + {plan[j]};
        assert (set i | 0 <= i < j + 1 :: plan[i]) == (set i | 0 <= i < j :: plan[i]) + {plan[j]};
      }
      assert plan[..|plan|] == plan;
      return Ok(());
    }

    /** `ensure_watched`, with `dir` recorded only once it is watched: the
        root, a stopped watcher and an already watched directory need
        nothing; otherwise the directory and its unwatched parents are
        watched. The invariant holds whether or not a watch fails. */
    method EnsureWatched(dir: Path) returns (r: Result<()>)
      requires Valid()
      modifies this
      ensures Valid()
      ensures watching == old(watching)
      ensures dir == root || !watching || dir in old(watched) ==> r.Ok? && watched == old(watched) && watchCalls == old(watchCalls)
      ensures r.Ok? && watching && dir != root ==> dir in watched && forall j :: |root| < j < |dir| ==> dir[..j] in watched
      ensures watching && dir != root && dir !in old(watched) && !StrictlyUnder(root, dir) ==> r.Err?
      ensures watching && StrictlyUnder(root, dir) && (forall p :: !watchFails(p)) ==> r.Ok?
      ensures forall p :: p in watched && p !in old(watched) ==> |p| <= |dir| && dir[..|p|] == p
    {
      if dir == root || !watching || dir in watched {
        return Ok(());
      }
      WalkStopsBelowRoot(watched, root, dir);
      ghost var before := watched;
      r := StartWatchingDirAndParents(dir);
      var stop := StopBelow(before, root, dir, |dir|);
      if stop.Some? {
        PlanPrefixKeepsInvariant(before, root, dir, FirstFailure(Plan(dir, stop.value), watchFails));
      }
    }

    /** `ensure_watched` as written: `dir` is recorded before the walk, so
        a failed walk leaves it recorded though it, or a parent, is not
        watched. */
    method EnsureWatchedAsWritten(dir: Path) returns (r: Result<()>)
      requires BelowRoot()
      modifies this
      ensures watching == old(watching)
      ensures watching && dir != root && dir !in old(watched) ==> dir in watched
      ensures dir == root || !watching || dir in old(watched) ==> r.Ok? && watched == old(watched) && watchCalls == old(watchCalls)
      ensures watching && dir != root && dir !in old(watched) ==>
        var stop := StopBelow(old(watched) + {dir}, root, dir, |dir|);
        stop.Some? ==>
          var plan := Plan(dir, stop.value);
          var n := FirstFailure(plan, watchFails);
          && (r.Ok? <==> n == |plan|)
          && watched == old(watched) + {dir} + (set i | 0 <= i < n :: plan[i])
    {
      if dir == root || !watching || dir in watched {
        return Ok(());
      }
      watched := watched + {dir};
      r := StartWatchingDirAndParents(dir);
    }

    /** Every watched directory lies below the root. */
    predicate BelowRoot()
      reads this
    {
      forall p :: p in watched ==> StrictlyUnder(root, p)
    }

    /** `restore_if_watched`: a recreated directory that was watched is
        watched again, and so is every watched directory below it,
        stopping at the first failing watch; the watched set is unchanged. */
    method RestoreIfWatched(dir: Path) returns (r: Result<()>, ghost calls: seq<Path>)
      requires Valid()
      modifies this
      ensures watched == old(watched) && watching == old(watching)
      ensures watchCalls == old(watchCalls) + calls
      ensures dir == root || !watching || dir !in watched ==> r.Ok? && calls == []
      ensures r.Ok? && watching && dir != root && dir in watched ==>
        && dir in calls
        && forall p :: p in watched && StrictlyUnder(dir, p) ==> p in calls
      ensures forall p :: p in calls ==> p == dir || (p in watched && StrictlyUnder(dir, p))
    {
      calls := [];
      if dir == root || !watching || dir !in watched {
        return Ok(()), calls;
      }
      r := StartWatchingDir(dir);
      calls := [dir];
      if r.Err? {
        return r, calls;
      }
      var children := set p | p in watched && StrictlyUnder(dir, p);
      var pending := children;
      while pending != {}
        invariant pending <= children
        invariant watched == old(watched) && watching == old(watching)
        invariant watchCalls == old(watchCalls) + calls
        invariant dir in calls
        invariant forall p :: p in children && p !in pending ==> p in calls
        invariant forall p :: p in calls ==> p == dir || p in children
        decreases pending
      {
        var child :| child in pending;
        assert child != root;
        r := StartWatchingDir(child);
        calls := calls + [child];
        if r.Err? {
          return r, calls;
        }
        pending := pending - {child};
      }
    }

    /** `restore_all_watched_ignore_errors`: after a rescan every watched
        directory is watched again, whatever fails; the watched set is
        unchanged. */
    method RestoreAllWatched() returns (ghost calls: seq<Path>)
      requires Valid()
      modifies this
      ensures watched == old(watched) && watching == old(watching)
      ensures watchCalls == old(watchCalls) + calls
      ensures watching ==> forall p :: p in watched <==> p in calls
      ensures !watching ==> calls == []
    {
      calls := [];
      if !watching {
        return calls;
      }
      var pending := watched;
      while pending != {}
        invariant pending <= watched
        invariant watched == old(watched) && watching == old(watching)
        invariant watchCalls == old(watchCalls) + calls
        invariant forall p :: p in calls <==> p in watched && p !in pending
        decreases pending
      {
        var dir :| dir in pending;
        var _ := StartWatchingDir(dir);
        calls := calls + [dir];
        pending := pending - {dir};
      }
    }

    /** `ensure_watched_file`: in non-recursive mode the file's parent
        directory is watched (with its parents); the file itself never is,
        and recursive mode needs nothing. */
    method EnsureWatchedFile(path: Path) returns (r: Result<()>)
      requires Valid()
      modifies this
      ensures Valid()
      ensures path !in watched - old(watched)
      ensures !nonRecursive || path == [] ==> r.Ok? && watched == old(watched) && watchCalls == old(watchCalls)
      ensures nonRecursive && path != [] && r.Ok? && watching && Parent(path).value != root ==> Parent(path).value in watched
    {
      if !nonRecursive || path == [] {
        return Ok(());
      }
      r := EnsureWatched(path[..|path| - 1]);
    }

    /** `ensure_watched_dir`: in non-recursive mode the directory itself is
        watched. */
    method EnsureWatchedDir(dir: Path) returns (r: Result<()>)
      requires Valid()
      modifies this
      ensures Valid()
      ensures !nonRecursive ==> r.Ok? && watched == old(watched) && watchCalls == old(watchCalls)
      ensures nonRecursive && r.Ok? && watching && dir != root ==> dir in watched
    {
      if !nonRecursive {
        return Ok(());
      }
      r := EnsureWatched(dir);
    }
  }

  /** A failed watch under `ensure_watched` as written: the parent cannot
      be watched, the walk fails, yet the directory stays recorded while
      its parent is not, and a second call takes the fast path without
      watching anything. */
  method FailedWatchBreaksInvariant() returns (w: DiskWatcher, first: Result<()>, second: Result<()>)
    ensures first.Err? && second.Ok?
    ensures ["r", "a", "b"] in w.watched && ["r", "a"] !in w.watched
    ensures !w.Valid()
  {
    w := new DiskWatcher(true, ["r"], (p: Path) => p == ["r", "a"]);
    var started := w.StartWatching();
    assert StopBelow(w.watched, ["r"], ["r", "a", "b"], 3) == Some(1) by {
      assert ["r", "a", "b"][..2] == ["r", "a"];
      assert ["r", "a", "b"][..1] == ["r"];
    }
    assert Plan(["r", "a", "b"], 1)[0] == ["r", "a"];
    first := w.EnsureWatchedAsWritten(["r", "a", "b"]);
    second := w.EnsureWatchedAsWritten(["r", "a", "b"]);
    assert ["r", "a", "b"][..2] == ["r", "a"];
  }

  // ---------------------------------------------------------------------------
  // Event batches

  datatype ModifyKind = ModifyAny | Data | MetadataAny | MetadataOther | NameBoth | NameOther | ModifyOther

  /** The kinds of notify event the watcher distinguishes. */
  datatype EventKind = AnyKind | Access | Create | Modify(modifyKind: ModifyKind) | Remove | OtherKind

  /** Kinds that invalidate nothing. */
  predicate Ignored(kind: EventKind) {
    kind.Access? || kind.OtherKind? || (kind.Modify? && (kind.modifyKind.MetadataOther? || kind.modifyKind.ModifyOther?))
  }

  /** The parents of the paths that have one. */
  function Parents(paths: seq<Path>): (r: set<Path>)
    ensures forall p :: p in paths && p != [] ==> Parent(p).value in r
    ensures forall q :: q in r ==> exists p :: p in paths && p != [] && Parent(p).value == q
  {
    set p | p in paths && p != [] :: Parent(p).value
  }

  /** What one event adds to each batch: paths to invalidate, directories
      to invalidate, paths to invalidate with their children (as files and
      as directories), and paths that may be recreated watched
      directories. */
  datatype BatchDelta = BatchDelta(path: set<Path>, pathDir: set<Path>, pathAndChildren: set<Path>, pathAndChildrenDir: set<Path>, newPaths: set<Path>)

  const NoDelta := BatchDelta({}, {}, {}, {}, {})

  /** The classification of an event with a non-empty list of paths; a
      rename with both paths that lists fewer than two is the panic of the
      watcher thread. */
  function Classify(kind: EventKind, paths: seq<Path>): (r: Result<BatchDelta>)
    requires paths != []
    ensures r.Err? <==> kind == Modify(NameBoth) && |paths| < 2
    ensures Ignored(kind) ==> r == Ok(NoDelta)
    ensures r.Ok? && !Ignored(kind) && kind != Modify(NameBoth) ==>
      forall p :: p in paths ==> p in r.value.path || (p in r.value.pathAndChildren && p in r.value.pathAndChildrenDir)
    ensures r.Ok? && kind == Modify(NameBoth) ==>
      && paths[0] in r.value.pathAndChildren && paths[1] in r.value.pathAndChildren
      && r.value.newPaths == {paths[1]}
    ensures r.Ok? && (kind == Create || kind == Remove || kind == Modify(NameBoth) || kind == AnyKind || kind == Modify(ModifyAny) || kind == Modify(NameOther)) ==>
      forall p :: p in paths[..if kind == Modify(NameBoth) then 2 else |paths|] && p != [] ==> Parent(p).value in r.value.pathDir
    ensures r.Ok? && r.value.newPaths != {} ==> kind == Create || kind == Modify(NameBoth)
    ensures r.Ok? ==> forall p :: p in r.value.path + r.value.pathAndChildren + r.value.pathAndChildrenDir ==> p in paths
  {
    var all := set p | p in paths;
    match kind
    case Modify(Data) => Ok(BatchDelta(all, {}, {}, {}, {}))
    case Modify(MetadataAny) => Ok(BatchDelta(all, {}, {}, {}, {}))
    case Create => Ok(BatchDelta({}, Parents(paths), all, all, all))
    case Remove => Ok(BatchDelta({}, Parents(paths), all, all, {}))
    case Modify(NameBoth) =>
      if |paths| < 2 then Err("Rename event does not contain source and destination paths")
      else Ok(BatchDelta({}, Parents(paths[..2]), {paths[0], paths[1]}, {}, {paths[1]}))
    case AnyKind => Ok(BatchDelta(all, Parents(paths), all, all, {}))
    case Modify(ModifyAny) => Ok(BatchDelta(all, Parents(paths), all, all, {}))
    case Modify(NameOther) => Ok(BatchDelta(all, Parents(paths), all, all, {}))
    case _ => Ok(NoDelta)
  }

  /** A remove is a create without the new paths: the same paths are
      invalidated either way. */
  lemma CreateAndRemoveInvalidateAlike(paths: seq<Path>)
    requires paths != []
    ensures Classify(Create, paths).value.(newPaths := {}) == Classify(Remove, paths).value
    ensures Classify(Create, paths).value.newPaths == set p | p in paths
  {
  }

  /** The batch sets of the watcher thread. */
  class Batches {
    var path: set<Path>
    var pathDir: set<Path>
    var pathAndChildren: set<Path>
    var pathAndChildrenDir: set<Path>
    /** Only kept in non-recursive mode. */
    var newPaths: Option<set<Path>>

    constructor (nonRecursive: bool)
      ensures path == {} && pathDir == {} && pathAndChildren == {} && pathAndChildrenDir == {}
      ensures newPaths == if nonRecursive then Some({}) else None
    {
      path, pathDir, pathAndChildren, pathAndChildrenDir := {}, {}, {}, {};
      newPaths := if nonRecursive then Some({}) else None;
    }

    predicate Empty()
      reads this
    {
      path == {} && pathDir == {} && pathAndChildren == {} && pathAndChildrenDir == {} && (newPaths.Some? ==> newPaths.value == {})
    }

    /** One event of a batch: an event without paths is skipped; otherwise
        its classification extends every batch. */
    method AddEvent(kind: EventKind, paths: seq<Path>) returns (r: Result<()>)
      modifies this
      ensures paths == [] ==> r.Ok? && path == old(path) && pathDir == old(pathDir)
      ensures paths == [] ==> pathAndChildren == old(pathAndChildren) && pathAndChildrenDir == old(pathAndChildrenDir) && newPaths == old(newPaths)
      ensures paths != [] ==> (r.Ok? <==> Classify(kind, paths).Ok?)
      ensures paths != [] && r.Ok? ==>
        var d := Classify(kind, paths).value;
        && path == old(path) + d.path && pathDir == old(pathDir) + d.pathDir
        && pathAndChildren == old(pathAndChildren) + d.pathAndChildren
        && pathAndChildrenDir == old(pathAndChildrenDir) + d.pathAndChildrenDir
        && newPaths == (if old(newPaths).Some? then Some(old(newPaths).value + d.newPaths) else None)
    {
      if paths == [] {
        return Ok(());
      }
      var c := Classify(kind, paths);
      if c.Err? {
        return Err(c.msg);
      }
      var d := c.value;
      path, pathDir := path + d.path, pathDir + d.pathDir;
      pathAndChildren, pathAndChildrenDir := pathAndChildren + d.pathAndChildren, pathAndChildrenDir + d.pathAndChildrenDir;
      if newPaths.Some? {
        newPaths := Some(newPaths.value + d.newPaths);
      }
      return Ok(());
    }

    /** An error reported by the notify watcher: its paths, or the root
        when it names none, are invalidated with their children. */
    method AddWatchError(paths: seq<Path>, root: Path)
      modifies this
      ensures var named := if paths == [] then {root} else set p | p in paths;
        pathAndChildren == old(pathAndChildren) + named && pathAndChildrenDir == old(pathAndChildrenDir) + named
      ensures path == old(path) && pathDir == old(pathDir) && newPaths == old(newPaths)
    {
      var named := if paths == [] then {root} else set p | p in paths;
      pathAndChildren := pathAndChildren + named;
      pathAndChildrenDir := pathAndChildrenDir + named;
    }

    /** The end of a batch: every new path that was a watched directory is
        watched again (errors ignored), then the four batches are handed
        over for invalidation and cleared. */
    method Flush(watcher: DiskWatcher) returns (invalidate: BatchDelta)
      requires watcher.Valid()
      modifies this, watcher
      ensures invalidate == BatchDelta(old(path), old(pathDir), old(pathAndChildren), old(pathAndChildrenDir), {})
      ensures Empty() && (newPaths.Some? <==> old(newPaths).Some?)
      ensures watcher.watched == old(watcher.watched) && watcher.watching == old(watcher.watching)
      ensures watcher.Valid()
    {
      if newPaths.Some? {
        var pending := newPaths.value;
        while pending != {}
          invariant watcher.Valid() && watcher.watched == old(watcher.watched) && watcher.watching == old(watcher.watching)
          invariant path == old(path) && pathDir == old(pathDir) && pathAndChildren == old(pathAndChildren) && pathAndChildrenDir == old(pathAndChildrenDir)
          invariant newPaths.Some? && old(newPaths).Some?
          decreases pending
        {
          var p :| p in pending;
          var _, _ := watcher.RestoreIfWatched(p);
          pending := pending - {p};
        }
        newPaths := Some({});
      }
      invalidate := BatchDelta(path, pathDir, pathAndChildren, pathAndChildrenDir, {});
      path, pathDir, pathAndChildren, pathAndChildrenDir := {}, {}, {}, {};
    }
  }

  /** A rescan event: in non-recursive mode every watched directory is
      watched again, and every pending batch is dropped, since everything
      is invalidated anyway. */
  method Rescan(batches: Batches, watcher: DiskWatcher)
    requires watcher.Valid()
    modifies batches, watcher
    ensures batches.Empty() && (batches.newPaths.Some? <==> old(batches.newPaths).Some?)
    ensures watcher.watched == old(watcher.watched) && watcher.watching == old(watcher.watching)
    ensures watcher.nonRecursive && watcher.watching ==> forall p :: p in watcher.watched ==> p in watcher.watchCalls
  {
    if watcher.nonRecursive {
      var _ := watcher.RestoreAllWatched();
    }
    // new paths are only kept in non-recursive mode
    if batches.newPaths.Some? {
      batches.newPaths := Some({});
    }
    batches.path, batches.pathDir, batches.pathAndChildren, batches.pathAndChildrenDir := {}, {}, {}, {};
  }
}
