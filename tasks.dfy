/**
 * The simulated RTOS task pool: task ids handed out in order, the set of
 * tasks at the highest priority, round-robin switching among them, and the
 * per-task cells (errno, thread-local storage) allocated on first use.
 */
module Tasks {
  import opened Common
  import opened Interface
  import opened Memory
  import opened ThreadLocal

  datatype TaskState = Running | Idle | Finished

  /**
   * `WasmAllocator::memalign`: `ptr` is what the sandbox's allocator
   * answered; the host panics when it answers 0.
   */
  function Memalign(ptr: u32): (r: Fatal<u32>)
    ensures r.Returns? <==> ptr != 0
    ensures r.Returns? ==> r.value == ptr
  {
    if ptr == 0 then Aborts else Returns(ptr)
  }

  /** The sandbox cell that holds one task's `errno`. */
  datatype Errno = Errno(address: u32)
  {
    /** The memory after `set(code)`: the code's four little-endian two's-complement bytes at `address`. */
    function Written(m: seq<u8>, code: i32): (r: Fatal<seq<u8>>)
      ensures r.Returns? <==> address + 4 <= |m|
      ensures r.Returns? ==> |r.value| == |m|
    {
      if address + 4 > |m| then Aborts else Returns(Splice(m, address, U32ToLe(I32Bits(code))))
    }

    /** The `errno` the robot code reads from memory `m`. */
    function Value(m: seq<u8>): Option<i32>
    {
      if address + 4 > |m| then None else Some(I32FromBits(U32FromLe(m[address..address + 4])))
    }

    /** `Errno::set`: write the code; a write outside memory panics. */
    method Set(mem: array<u8>, code: i32) returns (r: Fatal<()>)
      modifies mem
      ensures r.Returns? <==> Written(old(mem[..]), code).Returns?
      ensures r.Returns? ==> mem[..] == Written(old(mem[..]), code).value
      ensures r.Aborts? ==> mem[..] == old(mem[..])
    {
      var written := WriteRelaxed(mem, address, U32ToLe(I32Bits(code)));
      if written.Err? {
        return Aborts;
      }
      r := Returns(());
    }
  }

  /** After `set(code)` the cell reads back as `code`, and no byte outside the cell changed. */
  lemma ErrnoReadBack(e: Errno, m: seq<u8>, code: i32)
    requires e.Written(m, code).Returns?
    ensures e.Value(e.Written(m, code).value) == Some(code)
    ensures forall j :: 0 <= j < |m| && !(e.address <= j < e.address + 4) ==> e.Written(m, code).value[j] == m[j]
  {
    var bytes := U32ToLe(I32Bits(code));
    LeRoundTrip(I32Bits(code), bytes);
    SpliceReadBack(m, e.address, bytes);
  }

  /**
   * The storage block `local_storage` hands back: the block allocated
   * earlier, else a new one at the allocator's answer when that is not 0.
   */
  function StorageAfter(cached: Option<TaskStorage>, allocation: u32): Option<TaskStorage>
  {
    if cached.Some? then cached else if allocation == 0 then None else Some(TaskStorage(allocation))
  }

  /** The errno cell `errno` hands back, by the same first-use rule as `StorageAfter`. */
  function ErrnoCellAfter(cached: Option<Errno>, allocation: u32): Option<Errno>
  {
    if cached.Some? then cached else if allocation == 0 then None else Some(Errno(allocation))
  }

  /**
   * Whether an error code can be written through task `t`: there is a task,
   * it has (or can allocate) an errno cell, and the cell lies inside a
   * memory of `length` bytes.
   */
  ghost predicate ErrnoWritable(t: Task?, allocation: u32, length: nat)
    reads t
  {
    t != null && ErrnoCellAfter(t.errno, allocation).Some? &&
    ErrnoCellAfter(t.errno, allocation).value.address + 4 <= length
  }

  class Task {
    const id: nat
    const priority: u32
    var localStorage: Option<TaskStorage>
    var errno: Option<Errno>
    var isFinished: bool

    /** `Task::new`: priority 0, nothing allocated yet, not finished. */
    constructor (id: nat)
      ensures this.id == id && priority == 0
      ensures localStorage == None && errno == None && !isFinished
    {
      this.id := id;
      priority := 0;
      localStorage := None;
      errno := None;
      isFinished := false;
    }

    /**
     * `local_storage`: the block allocated on the first call is returned by
     * every later call; `allocation` is the allocator's answer, consulted
     * only on the first call.
     */
    method LocalStorage(allocation: u32) returns (r: Fatal<TaskStorage>)
      modifies this`localStorage
      ensures old(localStorage).Some? ==> r == Returns(old(localStorage).value) && localStorage == old(localStorage)
      ensures old(localStorage).None? ==> r == (if allocation == 0 then Aborts else Returns(TaskStorage(allocation)))
      ensures r.Returns? ==> localStorage == Some(r.value)
      ensures r.Aborts? ==> localStorage == old(localStorage)
      ensures localStorage == StorageAfter(old(localStorage), allocation)
      ensures r.Returns? <==> localStorage.Some?
    {
      if localStorage.Some? {
        return Returns(localStorage.value);
      }
      var basePtr := Memalign(allocation);
      if basePtr.Aborts? {
        return Aborts;
      }
      var storage := TaskStorage(basePtr.value);
      localStorage := Some(storage);
      r := Returns(storage);
    }

    /** `errno`: allocated on the first call and the same cell on every later call. */
    method ErrnoCell(allocation: u32) returns (r: Fatal<Errno>)
      modifies this`errno
      ensures old(errno).Some? ==> r == Returns(old(errno).value) && errno == old(errno)
      ensures old(errno).None? ==> r == (if allocation == 0 then Aborts else Returns(Errno(allocation)))
      ensures r.Returns? ==> errno == Some(r.value)
      ensures r.Aborts? ==> errno == old(errno)
      ensures errno == ErrnoCellAfter(old(errno), allocation)
      ensures r.Returns? <==> errno.Some?
    {
      if errno.Some? {
        return Returns(errno.value);
      }
      var address := Memalign(allocation);
      if address.Aborts? {
        return Aborts;
      }
      var cell := Errno(address.value);
      errno := Some(cell);
      r := Returns(cell);
    }
  }

  /** Two calls to `local_storage` agree, whatever the allocator would answer the second time. */
  method LocalStorageIsMemoised(task: Task, first: u32, second: u32) returns (a: Fatal<TaskStorage>, b: Fatal<TaskStorage>)
    modifies task
    ensures a.Returns? ==> b == a
  {
    a := task.LocalStorage(first);
    b := task.LocalStorage(second);
  }

  /** Strictly increasing, hence also free of duplicates. */
  predicate StrictlyIncreasing(s: seq<nat>)
  {
    forall i, j :: 0 <= i < j < |s| ==> s[i] < s[j]
  }

  predicate Distinct(s: seq<nat>)
  {
    forall i, j :: 0 <= i < j < |s| ==> s[i] != s[j]
  }

  function Elements(s: seq<nat>): set<nat>
  {
    set v | v in s
  }

  /** Insert `x` at its place in an increasing sequence that does not hold it yet. */
  function Insert(x: nat, s: seq<nat>): (r: seq<nat>)
    requires StrictlyIncreasing(s) && x !in s
    ensures StrictlyIncreasing(r)
    ensures Elements(r) == Elements(s) + {x}
    ensures |r| == |s| + 1
  {
    if s == [] || x < s[0] then [x] + s
    else
      var rest := Insert(x, s[1..]);
      assert forall k :: 0 <= k < |rest| ==> rest[k] in Elements(s[1..]) + {x};
      [s[0]] + rest
  }

  /** `Vec::sort` on a vector without duplicates: the same elements, in increasing order. */
  function Sort(s: seq<nat>): (r: seq<nat>)
    requires Distinct(s)
    ensures StrictlyIncreasing(r)
    ensures Elements(r) == Elements(s)
    ensures |r| == |s|
  {
    if s == [] then []
    else
      var rest := Sort(s[1..]);
      assert s[0] !in Elements(s[1..]);
      assert Elements(s) == Elements(s[1..]) + {s[0]};
      Insert(s[0], rest)
  }

  /** Two increasing sequences with the same elements are equal: the sorted order is unique. */
  lemma {:induction false} SortedUnique(a: seq<nat>, b: seq<nat>)
    requires StrictlyIncreasing(a) && StrictlyIncreasing(b)
    requires Elements(a) == Elements(b)
    ensures a == b
    decreases |a|
  {
    if a != [] {
      assert a[0] in Elements(a);
    }
    if b != [] {
      assert b[0] in Elements(b);
    }
    if a != [] && b != [] {
      // Both heads are the least element of the common set.
      assert a[0] in Elements(b) && b[0] in Elements(a);
      assert a[0] == b[0];
      assert Elements(a[1..]) == Elements(a) - {a[0]};
      assert Elements(b[1..]) == Elements(b) - {b[0]};
      SortedUnique(a[1..], b[1..]);
      assert a == [a[0]] + a[1..] && b == [b[0]] + b[1..];
    }
  }

  /** The ids whose priority no task in `prios` exceeds. */
  function Candidates(prios: map<nat, u32>): set<nat>
  {
    set id | id in prios && forall j :: j in prios ==> prios[j] <= prios[id]
  }

  /** A non-empty pool always has a task of maximal priority. */
  lemma {:induction false} CandidatesNonEmpty(prios: map<nat, u32>)
    ensures Candidates(prios) == {} <==> prios == map[]
    decreases |prios.Keys|
  {
    if prios != map[] {
      var k :| k in prios;
      var rest := prios - {k};
      assert rest.Keys == prios.Keys - {k};
      assert forall j :: j in prios ==> j == k || j in rest.Keys;
      if rest.Keys == {} {
        assert k in Candidates(prios);
      } else {
        CandidatesNonEmpty(rest);
        var m :| m in Candidates(rest);
        forall j | j in prios && j != k
          ensures prios[j] <= prios[m]
        {
          assert j in rest;
          assert rest[j] <= rest[m];
        }
        if prios[k] <= prios[m] {
          assert m in Candidates(prios);
        } else {
          assert k in Candidates(prios);
        }
      }
    }
  }

  /**
   * The round-robin rule of `cycle_tasks`: the least candidate above the
   * current id, or, when there is none, the least candidate.
   */
  ghost predicate IsRoundRobinChoice(candidates: set<nat>, current: nat, v: nat)
  {
    v in candidates &&
    if exists c :: c in candidates && c > current then
      current < v && forall c :: c in candidates && c > current ==> v <= c
    else
      forall c :: c in candidates ==> v <= c
  }

  /** There is at most one round-robin choice. */
  lemma RoundRobinChoiceUnique(candidates: set<nat>, current: nat, v: nat, w: nat)
    requires IsRoundRobinChoice(candidates, current, v) && IsRoundRobinChoice(candidates, current, w)
    ensures v == w
  {
  }

  /** The priority of each task of a pool. */
  function PrioritiesOf(pool: map<nat, Task>): map<nat, u32>
  {
    map id | id in pool :: pool[id].priority
  }

  /** The ids removed by the first `polls` turns of `run_to_completion`: those whose poll was ready. */
  ghost function ReadyIds(chosen: seq<nat>, ready: seq<bool>, polls: nat): set<nat>
    requires polls <= |chosen| && polls <= |ready|
  {
    set k | 0 <= k < polls && ready[k] :: chosen[k]
  }

  /**
   * The turns of `run_to_completion`: turn `k` starts from `pools[k]`,
   * polls `chosen[k]`, the round-robin choice after the task polled last
   * (`first` before the first turn), and leaves `pools[k + 1]`, which has
   * lost that task exactly when its poll was ready.
   */
  ghost predicate PollTrace(first: nat, chosen: seq<nat>, pools: seq<map<nat, Task>>, ready: seq<bool>)
    requires |pools| == |chosen| + 1 && |chosen| <= |ready|
  {
    forall k :: 0 <= k < |chosen| ==>
      chosen[k] in pools[k] &&
      IsRoundRobinChoice(Candidates(PrioritiesOf(pools[k])), if k == 0 then first else chosen[k - 1], chosen[k]) &&
      pools[k + 1] == if ready[k] then pools[k] - {chosen[k]} else pools[k]
  }

  /** One more turn extends the trace. */
  lemma PollTraceSnoc(first: nat, chosen: seq<nat>, pools: seq<map<nat, Task>>, ready: seq<bool>, id: nat)
    requires |pools| == |chosen| + 1 && |chosen| < |ready|
    requires PollTrace(first, chosen, pools, ready)
    requires id in pools[|chosen|]
    requires IsRoundRobinChoice(Candidates(PrioritiesOf(pools[|chosen|])), if chosen == [] then first else chosen[|chosen| - 1], id)
    ensures var next := if ready[|chosen|] then pools[|chosen|] - {id} else pools[|chosen|];
      PollTrace(first, chosen + [id], pools + [next], ready)
  {
    var n := |chosen|;
    var next := if ready[n] then pools[n] - {id} else pools[n];
    var chosen', pools' := chosen + [id], pools + [next];
    forall k | 0 <= k < n + 1
      ensures chosen'[k] in pools'[k]
      ensures IsRoundRobinChoice(Candidates(PrioritiesOf(pools'[k])), if k == 0 then first else chosen'[k - 1], chosen'[k])
      ensures pools'[k + 1] == if ready[k] then pools'[k] - {chosen'[k]} else pools'[k]
    {
      assert pools'[k] == pools[k];
      if k < n {
        assert chosen'[k] == chosen[k] && pools'[k + 1] == pools[k + 1];
      } else {
        assert chosen'[k] == id && pools'[k + 1] == next;
      }
      if 0 < k {
        assert chosen'[k - 1] == chosen[k - 1];
      }
    }
    assert |chosen'| == n + 1;
    assert PollTrace(first, chosen', pools', ready);
  }

  /** After one more turn, the pool is still the starting pool less the ready ids. */
  lemma ReadyIdsSnoc(start: map<nat, Task>, chosen: seq<nat>, ready: seq<bool>, id: nat, pool: map<nat, Task>)
    requires |chosen| < |ready|
    requires pool == start - ReadyIds(chosen, ready, |chosen|)
    ensures (if ready[|chosen|] then pool - {id} else pool) == start - ReadyIds(chosen + [id], ready, |chosen| + 1)
  {
    var n := |chosen|;
    assert ReadyIds(chosen + [id], ready, n + 1) == ReadyIds(chosen, ready, n) + (if ready[n] then {id} else {});
  }

  /** The id of the running task, 0 when there is none. */
  function CurrentId(t: Task?): nat
  {
    if t == null then 0 else t.id
  }

  /** One import of the robot-code module. */
  datatype ImportName = ImportName(moduleName: string, name: string)

  /**
   * The message of the warning for an import the host does not provide:
   * the import's name quoted between a fixed prefix and a fixed suffix.
   */
  function UnimplementedMessage(name: string): (m: string)
    ensures |m| == |name| + 60
    ensures m[..19] == "Unimplemented API `" && m[19..19 + |name|] == name
  {
    "Unimplemented API `" + name + "` (Robot code will crash if this is used)"
  }

  /** The import's name can be read back from its warning, so different imports give different warnings. */
  lemma UnimplementedMessageNames(a: string, b: string)
    requires UnimplementedMessage(a) == UnimplementedMessage(b)
    ensures a == b
  {
    var m := UnimplementedMessage(a);
    assert a == m[19..19 + |a|];
  }

  /** The warnings `instantiate` sends: one per import the linker does not define, in import order. */
  function ImportWarnings(imports: seq<ImportName>, linked: set<ImportName>): seq<SimulatorEvent>
  {
    if imports == [] then []
    else
      (if imports[0] in linked then [] else [Warning(UnimplementedMessage(imports[0].name))])
      + ImportWarnings(imports[1..], linked)
  }

  /** The warnings for a list of imports are those of its parts, in order. */
  lemma {:induction false} ImportWarningsAppend(a: seq<ImportName>, b: seq<ImportName>, linked: set<ImportName>)
    ensures ImportWarnings(a + b, linked) == ImportWarnings(a, linked) + ImportWarnings(b, linked)
    decreases |a|
  {
    if a != [] {
      var head := if a[0] in linked then [] else [Warning(UnimplementedMessage(a[0].name))];
      assert (a + b)[0] == a[0];
      assert (a + b)[1..] == a[1..] + b;
      assert ImportWarnings(a, linked) == head + ImportWarnings(a[1..], linked);
      assert ImportWarnings(a + b, linked) == head + ImportWarnings(a[1..] + b, linked);
      ImportWarningsAppend(a[1..], b, linked);
    } else {
      assert a + b == b;
    }
  }

  /** Every warning names an unlinked import, and when every import is linked there is none. */
  lemma {:induction false} ImportWarningsNameUnlinked(imports: seq<ImportName>, linked: set<ImportName>)
    ensures |ImportWarnings(imports, linked)| <= |imports|
    ensures forall e :: e in ImportWarnings(imports, linked) ==>
      exists i :: (0 <= i < |imports| && imports[i] !in linked && e == Warning(UnimplementedMessage(imports[i].name)))
    ensures (forall i :: 0 <= i < |imports| ==> imports[i] in linked) ==> ImportWarnings(imports, linked) == []
    decreases |imports|
  {
    if imports != [] {
      ImportWarningsNameUnlinked(imports[1..], linked);
      forall e | e in ImportWarnings(imports, linked)
        ensures exists i :: (0 <= i < |imports| && imports[i] !in linked &&
          e == Warning(UnimplementedMessage(imports[i].name)))
      {
        if e !in ImportWarnings(imports[1..], linked) {
          assert imports[0] !in linked && e == Warning(UnimplementedMessage(imports[0].name));
        } else {
          var i :| 0 <= i < |imports[1..]| && imports[1..][i] !in linked &&
            e == Warning(UnimplementedMessage(imports[1..][i].name));
          assert imports[i + 1] == imports[1..][i];
        }
      }
    }
  }

  /** The import loop of `instantiate`: warn about each import the linker lacks. */
  method WarnUnimplementedImports(imports: seq<ImportName>, linked: set<ImportName>, interface: SimulatorInterface)
    modifies interface
    ensures interface.sent == old(interface.sent) + ImportWarnings(imports, linked)
  {
    for i := 0 to |imports|
      invariant interface.sent == old(interface.sent) + ImportWarnings(imports[..i], linked)
    {
      ImportWarningsAppend(imports[..i], [imports[i]], linked);
      assert imports[..i + 1] == imports[..i] + [imports[i]];
      if imports[i] !in linked {
        interface.Send(Warning(UnimplementedMessage(imports[i].name)));
      }
    }
    assert imports[..|imports|] == imports;
  }

  class TaskPool {
    var pool: map<nat, Task>
    var newestTaskId: nat
    var currentTask: Task?

    /** Every pooled task is filed under its own id, and ids come from `1..=newestTaskId`. */
    ghost predicate Valid()
      reads this
    {
      forall id :: id in pool ==> 1 <= id <= newestTaskId && pool[id].id == id
    }

    /** `TaskPool::new`. */
    constructor ()
      ensures Valid()
      ensures pool == map[] && newestTaskId == 0 && currentTask == null
    {
      pool := map[];
      newestTaskId := 0;
      currentTask := null;
    }

    /** `spawn`: the next id, one above every id handed out before, names a fresh task. */
    method Spawn() returns (task: Task)
      requires Valid()
      modifies this`pool, this`newestTaskId
      ensures Valid()
      ensures newestTaskId == old(newestTaskId) + 1 && task.id == newestTaskId
      ensures task.id !in old(pool)
      ensures pool == old(pool)[task.id := task]
      ensures fresh(task) && task.priority == 0
      ensures task.localStorage == None && task.errno == None && !task.isFinished
    {
      newestTaskId := newestTaskId + 1;
      var id := newestTaskId;
      task := new Task(id);
      pool := pool[id := task];
    }

    /** `current`: the running task; asking while none runs panics. */
    function Current(): (r: Fatal<Task>)
      reads this
      ensures r.Aborts? <==> currentTask == null
      ensures r.Returns? ==> r.value == currentTask
    {
      if currentTask == null then Aborts else Returns(currentTask)
    }

    /** `by_id`: id 0 stands for the current task (and panics without one); any other id is looked up. */
    function ById(taskId: nat): (r: Fatal<Option<Task>>)
      reads this
      ensures taskId == 0 ==> r == (if currentTask == null then Aborts else Returns(Some(currentTask)))
      ensures taskId != 0 ==> r.Returns? && (r.value.Some? <==> taskId in pool)
      ensures taskId != 0 && taskId in pool ==> r.value == Some(pool[taskId])
    {
      if taskId == 0 then
        match Current()
        case Aborts => Aborts
        case Returns(t) => Returns(Some(t))
      else Returns(if taskId in pool then Some(pool[taskId]) else None)
    }

    /**
     * `highest_priority_task_ids`: one pass over the pool keeping the
     * highest priority so far, then a sort. The result is the set of
     * maximal-priority ids in increasing order, whatever order the pass
     * visits the pool in.
     */
    method HighestPriorityTaskIds() returns (ids: seq<nat>)
      requires Valid()
      ensures StrictlyIncreasing(ids)
      ensures Elements(ids) == Candidates(PrioritiesOf(pool))
    {
      var highestPriority: u32 := 0;
      var highestPriorityTasks: seq<nat> := [];
      var remaining := pool.Keys;
      ghost var seen: set<nat> := {};
      ghost var top: nat := 0;
      while remaining != {}
        invariant remaining <= pool.Keys && seen == pool.Keys - remaining
        invariant forall j :: j in seen ==> pool[j].priority <= highestPriority
        invariant seen == {} ==> highestPriority == 0
        invariant seen != {} ==> top in seen && pool[top].priority == highestPriority
        invariant Distinct(highestPriorityTasks)
        invariant forall j :: j in highestPriorityTasks <==> j in seen && pool[j].priority == highestPriority
        decreases remaining
      {
        var key :| key in remaining;
        var task := pool[key];
        assert task.id == key && key !in highestPriorityTasks;
        if task.priority > highestPriority {
          highestPriority := task.priority;
          highestPriorityTasks := [];
        }
        if task.priority == highestPriority {
          highestPriorityTasks := highestPriorityTasks + [task.id];
          top := key;
        }
        remaining := remaining - {key};
        seen := seen + {key};
      }
      ids := Sort(highestPriorityTasks);
      assert Elements(ids) == Candidates(PrioritiesOf(pool)) by {
        forall j | j in Candidates(PrioritiesOf(pool))
          ensures j in highestPriorityTasks
        {
          assert PrioritiesOf(pool)[top] <= PrioritiesOf(pool)[j];
        }
      }
    }

    /**
     * `cycle_tasks`: switch to the round-robin successor of the current
     * task among the highest-priority tasks; with no tasks left, switch to
     * none and report that nothing runs.
     */
    method CycleTasks() returns (running: bool)
      requires Valid()
      modifies this`currentTask
      ensures running <==> currentTask != null
      ensures currentTask == null <==> pool == map[]
      ensures currentTask != null ==>
        currentTask.id in pool && pool[currentTask.id] == currentTask &&
        IsRoundRobinChoice(Candidates(PrioritiesOf(pool)), CurrentId(old(currentTask)), currentTask.id)
      ensures currentTask != null ==> forall j :: j in pool ==> pool[j].priority <= currentTask.priority
    {
      var candidates := HighestPriorityTaskIds();
      CandidatesNonEmpty(PrioritiesOf(pool));
      assert PrioritiesOf(pool).Keys == pool.Keys;
      var currentTaskId := CurrentId(currentTask);
      var i := 0;
      while i < |candidates| && candidates[i] <= currentTaskId
        invariant i <= |candidates|
        invariant forall k :: 0 <= k < i ==> candidates[k] <= currentTaskId
      {
        i := i + 1;
      }
      var nextId: Option<nat> := None;
      if i < |candidates| {
        nextId := Some(candidates[i]);
      } else if candidates != [] {
        nextId := Some(candidates[0]);
      }
      if nextId.Some? {
        assert candidates[0] in Elements(candidates);
        var v := nextId.value;
        assert v in Elements(candidates);
        forall c | c in Candidates(PrioritiesOf(pool)) && c > currentTaskId
          ensures v <= c
        {
          var k :| 0 <= k < |candidates| && candidates[k] == c;
        }
        assert (exists c :: c in Candidates(PrioritiesOf(pool)) && c > currentTaskId) ==> i < |candidates|;
        var found := ById(v);
        currentTask := found.value.value;
      } else {
        currentTask := null;
      }
      running := currentTask != null;
    }

    /**
     * The errno half of `unwrap_or_errno`: find the current task (none
     * running panics), take its errno cell (allocated on first use) and
     * write `code` there (a cell outside memory panics).
     */
    method SetCurrentErrno(mem: array<u8>, code: i32, allocation: u32) returns (r: Fatal<()>)
      modifies mem, currentTask
      ensures r.Returns? <==> old(ErrnoWritable(currentTask, allocation, mem.Length))
      ensures currentTask != null ==> currentTask.errno == ErrnoCellAfter(old(currentTask.errno), allocation)
      ensures currentTask != null ==>
        currentTask.localStorage == old(currentTask.localStorage) && currentTask.isFinished == old(currentTask.isFinished)
      ensures r.Returns? ==>
        currentTask != null && currentTask.errno.Some? &&
        currentTask.errno.value.Written(old(mem[..]), code) == Returns(mem[..]) &&
        currentTask.errno.value.Value(mem[..]) == Some(code)
      ensures r.Aborts? ==> mem[..] == old(mem[..])
    {
      var current := Current();
      if current.Aborts? {
        return Aborts;
      }
      var errno := current.value.ErrnoCell(allocation);
      if errno.Aborts? {
        return Aborts;
      }
      ghost var before := mem[..];
      r := errno.value.Set(mem, code);
      if r.Returns? {
        ErrnoReadBack(errno.value, before, code);
      }
    }

    /**
     * `task_state`: the current task is `Running` (compared by identity);
     * any other is `Finished` or `Idle` according to its flag.
     */
    function TaskStateOf(task: Task): (s: TaskState)
      reads this, task
      ensures s == Running <==> task == currentTask
      ensures s == Finished <==> task != currentTask && task.isFinished
    {
      if currentTask == task then Running
      else if task.isFinished then Finished
      else Idle
    }

    /** The tasks reachable through the pool or as the current task. */
    ghost function Tasks(): set<Task>
      reads this
    {
      (set id | id in pool :: pool[id]) + (if currentTask == null then {} else {currentTask})
    }

    /**
     * `task_storage`: resolve the handle (an unknown handle panics) and
     * return that task's storage block, allocating it on first use.
     */
    method TaskStorageOf(handle: nat, allocation: u32) returns (r: Fatal<TaskStorage>)
      modifies Tasks()
      ensures ById(handle).Aborts? || ById(handle).value.None? ==> r.Aborts?
      ensures ById(handle).Returns? && ById(handle).value.Some? ==>
        var t := ById(handle).value.value;
        r.Returns? <==> old(t.localStorage).Some? || allocation != 0
      ensures ById(handle).Returns? && ById(handle).value.Some? && old(ById(handle).value.value.localStorage).Some? ==>
        r == Returns(old(ById(handle).value.value.localStorage).value)
      ensures ById(handle).Returns? && ById(handle).value.Some? ==>
        var t := ById(handle).value.value;
        t.localStorage == StorageAfter(old(t.localStorage), allocation) &&
        (r.Returns? <==> t.localStorage.Some?) &&
        (r.Returns? ==> t.localStorage == Some(r.value))
      ensures forall t :: t in old(Tasks()) && (ById(handle).Aborts? || ById(handle).value != Some(t)) ==> unchanged(t)
    {
      var task := ById(handle);
      if task.Aborts? || task.value.None? {
        return Aborts;
      }
      r := task.value.value.LocalStorage(allocation);
    }

    /**
     * The `run_to_completion` loop: switch tasks, poll the chosen one, and
     * drop it from the pool once it has finished. `ready` is the outcome of
     * each poll in turn. `chosen` records the task polled at each turn and
     * `pools` the pool before each turn: every turn polls the round-robin
     * choice among the highest-priority tasks, and exactly the tasks whose
     * poll was ready leave the pool. The loop stops early only when the pool
     * is empty.
     */
    method RunToCompletion(ready: seq<bool>) returns (polls: nat, ghost chosen: seq<nat>, ghost pools: seq<map<nat, Task>>)
      requires Valid()
      modifies this`pool, this`currentTask
      ensures Valid()
      ensures polls <= |ready| && |chosen| == polls && |pools| == polls + 1
      ensures pools[0] == old(pool) && pools[polls] == pool
      ensures PollTrace(CurrentId(old(currentTask)), chosen, pools, ready)
      ensures pool == old(pool) - ReadyIds(chosen, ready, polls)
      ensures polls < |ready| ==> pool == map[] && currentTask == null
    {
      polls := 0;
      chosen := [];
      pools := [pool];
      while polls < |ready|
        invariant Valid()
        invariant polls <= |ready| && |chosen| == polls && |pools| == polls + 1
        invariant pools[0] == old(pool) && pools[polls] == pool
        invariant PollTrace(CurrentId(old(currentTask)), chosen, pools, ready)
        invariant pool == old(pool) - ReadyIds(chosen, ready, polls)
        invariant polls == 0 ==> currentTask == old(currentTask)
        invariant polls > 0 ==> CurrentId(currentTask) == chosen[polls - 1]
      {
        var running := CycleTasks();
        if !running {
          return;
        }
        var task := Current().value;
        var id := task.id;
        PollTraceSnoc(CurrentId(old(currentTask)), chosen, pools, ready, id);
        ReadyIdsSnoc(old(pool), chosen, ready, id, pool);
        if ready[polls] {
          pool := pool - {id};
        }
        chosen := chosen + [id];
        pools := pools + [pool];
        polls := polls + 1;
      }
    }
  }
}
