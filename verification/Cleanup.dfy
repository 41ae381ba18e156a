/** Deleting everything that belongs to a content hash, over services that may fail at any call. */
module Cleanup {
  import opened Wrappers
  import opened Media
  import opened TaskQueue
  import LruSpec

  // ---- Safety of a partly done cleanup ----

  ghost predicate TrackedObject(w: World, hash: string, key: string) {
    key != "" && exists row <- w.index :: row.hash == hash && row.storageKey == key
  }

  ghost predicate TrackedItem(w: World, hash: string, cacheKey: string) {
    exists row <- w.index :: row.hash == hash && row.cacheKey == cacheKey
  }

  /** The objects that a cleanup started in w must remove. */
  ghost predicate Owned(w: World, hash: string, key: string) {
    UnderPrefixes(hash, key) || TrackedObject(w, hash, key)
  }

  /** Nothing is left in w' of what a cleanup started in w must remove. */
  ghost predicate Gone(hash: string, w: World, w': World) {
    && (forall key | key in w'.objects :: !Owned(w, hash, key))
    && (forall cacheKey :: LruSpec.Find(w'.memory, cacheKey).Some? ==> !TrackedItem(w, hash, cacheKey))
  }

  /** Where a cleanup of this hash that started in w may be interrupted. */
  ghost predicate Safe(hash: string, w: World, w': World) {
    && OnlyOwnedRemoved(hash, w, w')
    && (w'.index == w.index || w'.index == RowsNotOf(w.index, hash))
    && RowsCover(hash, w, w')
    && (w'.jobs == w.jobs || (w'.jobs == JobsNotOf(w.jobs, hash) && Gone(hash, w, w')))
    && (w'.keyHashes == w.keyHashes || (w'.keyHashes == w.keyHashes - {hash} && Gone(hash, w, w')))
  }

  /** Objects and memory entries only disappear, and only those of this hash. */
  ghost predicate OnlyOwnedRemoved(hash: string, w: World, w': World) {
    && (forall key | key in w'.objects :: key in w.objects && w'.objects[key] == w.objects[key])
    && (forall key | key in w.objects :: key in w'.objects || Owned(w, hash, key))
    && (forall cacheKey :: LruSpec.Find(w'.memory, cacheKey) == LruSpec.Find(w.memory, cacheKey)
                           || (LruSpec.Find(w'.memory, cacheKey).None? && TrackedItem(w, hash, cacheKey)))
  }

  /** What is still cached still has its index row. */
  ghost predicate RowsCover(hash: string, w: World, w': World) {
    forall row <- w.index :: row.hash == hash ==>
      && (row.storageKey != "" && row.storageKey in w'.objects ==> row in w'.index)
      && (LruSpec.Find(w'.memory, row.cacheKey).Some? ==> row in w'.index)
  }

  lemma SafeStart(hash: string, w: World)
    ensures Safe(hash, w, w)
  {
  }

  lemma SafeAfterObject(hash: string, w: World, w': World, key: string)
    requires Safe(hash, w, w') && Owned(w, hash, key)
    ensures Safe(hash, w, w'.(objects := w'.objects - {key}))
  {
  }

  lemma SafeAfterItem(hash: string, w: World, w': World, cacheKey: string)
    requires Safe(hash, w, w') && TrackedItem(w, hash, cacheKey)
    ensures Safe(hash, w, w'.(memory := LruSpec.Delete(w'.memory, cacheKey)))
  {
    forall other
      ensures LruSpec.Find(LruSpec.Delete(w'.memory, cacheKey), other) == if other == cacheKey then None else LruSpec.Find(w'.memory, other)
    {
      LruSpec.FindWithout(w'.memory, cacheKey, other);
    }
  }

  /** Nothing that the row tracks is cached. */
  predicate Dropped(w: World, row: IndexRow) {
    (row.storageKey == "" || row.storageKey !in w.objects) && LruSpec.Find(w.memory, row.cacheKey).None?
  }

  /** The index rows may go once nothing they track is cached. */
  lemma SafeAfterRows(hash: string, w: World, w': World)
    requires Safe(hash, w, w') && w'.index == w.index
    requires forall row <- w.index :: row.hash == hash ==> Dropped(w', row)
    ensures Safe(hash, w, w'.(index := RowsNotOf(w.index, hash)))
  {
  }

  lemma AllDropped(w: World, w': World, hash: string, rows: seq<IndexRow>)
    requires rows == RowsOf(w.index, hash) && forall i | 0 <= i < |rows| :: Dropped(w', rows[i])
    ensures forall row <- w.index :: row.hash == hash ==> Dropped(w', row)
    ensures forall key | key in w'.objects :: !TrackedObject(w, hash, key)
    ensures forall cacheKey :: LruSpec.Find(w'.memory, cacheKey).Some? ==> !TrackedItem(w, hash, cacheKey)
  {
    assert forall row <- rows :: Dropped(w', row);
  }

  lemma {:induction false} NoRowsToDrop(index: seq<IndexRow>, hash: string)
    requires forall i | 0 <= i < |index| :: index[i].hash != hash
    ensures RowsNotOf(index, hash) == index
  {
    if index != [] {
      NoRowsToDrop(index[1..], hash);
    }
  }

  lemma {:induction false} NoJobsToDrop(jobs: seq<JobRow>, hash: string)
    requires forall i | 0 <= i < |jobs| :: jobs[i].hash != hash
    ensures JobsNotOf(jobs, hash) == jobs
  {
    if jobs != [] {
      NoJobsToDrop(jobs[1..], hash);
    }
  }

  /** What an interrupted run leaves behind stays in reach of the next one: a later run that removes everything it can
      see removes everything the first one could see. */
  lemma GoneReachesBack(hash: string, w: World, w': World, w'': World)
    requires Safe(hash, w, w') && OnlyOwnedRemoved(hash, w', w'') && Gone(hash, w', w'')
    ensures Gone(hash, w, w'')
  {
    assert forall row <- w.index :: row.hash == hash && LruSpec.Find(w''.memory, row.cacheKey).Some? ==> row in w'.index;
  }

  lemma OnlyOwnedRemovedTwice(hash: string, w: World, w': World, w'': World)
    requires Safe(hash, w, w') && Safe(hash, w', w'')
    ensures OnlyOwnedRemoved(hash, w, w'')
  {
    forall key | key in w.objects
      ensures key in w''.objects || Owned(w, hash, key)
    {
      if key in w'.objects && key !in w''.objects && TrackedObject(w', hash, key) {
        var row :| row in w'.index && row.hash == hash && row.storageKey == key;
        assert row in w.index;
      }
    }
    forall cacheKey
      ensures LruSpec.Find(w''.memory, cacheKey) == LruSpec.Find(w.memory, cacheKey)
              || (LruSpec.Find(w''.memory, cacheKey).None? && TrackedItem(w, hash, cacheKey))
    {
      if TrackedItem(w', hash, cacheKey) {
        var row :| row in w'.index && row.hash == hash && row.cacheKey == cacheKey;
        assert row in w.index;
      }
    }
  }

  /** Runs compose: every state of a later run is one where the earlier run might have been interrupted. */
  lemma SafeTwice(hash: string, w: World, w': World, w'': World)
    requires Safe(hash, w, w') && Safe(hash, w', w'')
    ensures Safe(hash, w, w'')
  {
    hide Gone, RowsCover, OnlyOwnedRemoved;
    OnlyOwnedRemovedTwice(hash, w, w', w'');
    RowsCoverTwice(hash, w, w', w'');
    DroppingTwice(w, hash);
    if Gone(hash, w', w'') {
      GoneReachesBack(hash, w, w', w'');
    }
    if Gone(hash, w, w') {
      GoneStays(hash, w, w', w'');
    }
  }

  lemma DroppingTwice(w: World, hash: string)
    ensures RowsNotOf(RowsNotOf(w.index, hash), hash) == RowsNotOf(w.index, hash)
    ensures JobsNotOf(JobsNotOf(w.jobs, hash), hash) == JobsNotOf(w.jobs, hash)
  {
    var rows, jobs := RowsNotOf(w.index, hash), JobsNotOf(w.jobs, hash);
    assert forall i | 0 <= i < |rows| :: rows[i] in rows;
    NoRowsToDrop(rows, hash);
    assert forall i | 0 <= i < |jobs| :: jobs[i] in jobs;
    NoJobsToDrop(jobs, hash);
  }

  lemma RowsCoverTwice(hash: string, w: World, w': World, w'': World)
    requires Safe(hash, w, w') && Safe(hash, w', w'')
    ensures RowsCover(hash, w, w'')
  {
  }

  lemma GoneStays(hash: string, w: World, w': World, w'': World)
    requires Gone(hash, w, w') && OnlyOwnedRemoved(hash, w', w'')
    ensures Gone(hash, w, w'')
  {
  }

  /** After any number of interrupted runs, one run that removes everything it can see leaves nothing of what the first
      run could see. */
  lemma {:induction false} RetriesConverge(hash: string, states: seq<World>, last: World)
    requires |states| > 0
    requires forall i | 0 < i < |states| :: Safe(hash, states[i - 1], states[i])
    requires Safe(hash, states[|states| - 1], last) && Gone(hash, states[|states| - 1], last)
    ensures Gone(hash, states[0], last) && Safe(hash, states[0], last)
  {
    if |states| > 1 {
      var rest := states[1..];
      forall i | 0 < i < |rest|
        ensures Safe(hash, rest[i - 1], rest[i])
      {
        assert Safe(hash, states[i], states[i + 1]);
      }
      RetriesConverge(hash, rest, last);
      GoneReachesBack(hash, states[0], states[1], last);
      SafeTwice(hash, states[0], states[1], last);
    }
  }

  // ---- Results ----

  datatype Status = Pending | Done | Failed

  datatype CleanupResult = CleanupResult(
    taskCancellation: Status,
    mediaObjects: Status,
    trackedCacheObjects: Status,
    encryptionKey: Status,
    imageCacheIndex: Status,
    jobRows: Status)
  {
    predicate ConfirmedGone() {
      taskCancellation.Done? && mediaObjects.Done? && trackedCacheObjects.Done?
    }

    predicate HasWarnings() {
      encryptionKey.Failed? || imageCacheIndex.Failed? || jobRows.Failed?
    }
  }

  // ---- The cleaner ----

  /** The states recorded since t lead from before to after, and all of them are safe points of a cleanup started in w. */
  ghost predicate Recorded(hash: string, w: World, t: seq<World>, t': seq<World>, before: World, after: World) {
    && t <= t' && (forall i | |t| <= i < |t'| :: Safe(hash, w, t'[i]))
    && (if |t'| == |t| then after == before else t'[|t'| - 1] == after)
  }

  lemma NothingRecorded(hash: string, w: World, t: seq<World>, before: World)
    ensures Recorded(hash, w, t, t, before, before)
  {
  }

  lemma RecordedTwice(hash: string, w: World, t: seq<World>, t': seq<World>, t'': seq<World>, a: World, b: World, c: World)
    requires Recorded(hash, w, t, t', a, b) && Recorded(hash, w, t', t'', b, c)
    ensures Recorded(hash, w, t, t'', a, c)
  {
  }

  /** Of the jobs of a hash that are neither completed nor canceled, none has its task left, if it sat in one of the three
      queues that the program uses. */
  ghost predicate NoUnendedTask(jobs: seq<JobRow>, hash: string, start: Tasks, tasks: Tasks) {
    forall job <- jobs ::
      job.hash == hash && job.status != "completed" && job.status != "canceled" && Known(start, job.id, ["critical", "default", "video:large"]) ==>
        !Present(tasks, job.id)
  }

  /** Tasks of ids that have only completed or canceled jobs of the hash, or none, are as they were. */
  ghost predicate OtherTasksKept(jobs: seq<JobRow>, hash: string, start: Tasks, tasks: Tasks) {
    forall k | k in start && (forall job <- jobs :: job.hash == hash && job.id == k.1 ==> job.status == "completed" || job.status == "canceled") ::
      k in tasks && tasks[k] == start[k]
  }

  lemma TasksByStatus(o: Oracle, s: Service, hasInspector: bool, names: seq<string>, jobs: seq<JobRow>, hash: string)
    ensures var e := CancelStage(o, s, hasInspector, names, JobsOf(jobs, hash));
            (e.ok && hasInspector && ReadsFine(o, s.clock) ==> NoUnendedTask(jobs, hash, s.tasks, e.after.tasks)) &&
            OtherTasksKept(jobs, hash, s.tasks, e.after.tasks)
  {
    hide CancelStage, Known, Present, ReadsFine;
    StageByStatus(o, s, hasInspector, names, JobsOf(jobs, hash));
  }

  class Cleaner {
    const faults: Oracle
    const hasInspector: bool
    const serviceQueues: seq<string>
    var clock: nat
    var world: World
    var tasks: Tasks
    /** The world after every call that may change it. */
    ghost var trace: seq<World>

    constructor (faults: Oracle, hasInspector: bool, serviceQueues: seq<string>, world: World, tasks: Tasks)
      ensures this.faults == faults && this.hasInspector == hasInspector && this.serviceQueues == serviceQueues
      ensures this.world == world && this.tasks == tasks && clock == 0 && trace == []
    {
      this.faults, this.hasInspector, this.serviceQueues := faults, hasInspector, serviceQueues;
      this.world, this.tasks, clock, trace := world, tasks, 0, [];
    }

    /** From now on no call to the media bucket or the database fails. */
    ghost predicate StoresQuiet()
      reads this
    {
      forall n: nat | n >= clock :: faults.stores(n) == Fine
    }

    ghost function Queue(): Service
      reads this
    {
      Service(clock, tasks)
    }

    /** How the cancellation of the tasks of a hash would end if it started now. */
    ghost function Stage(hash: string): Ended
      reads this
    {
      CancelStage(faults, Queue(), hasInspector, serviceQueues, JobsOf(world.jobs, hash))
    }

    method NextFault() returns (f: Fault)
      modifies this`clock
      ensures f == faults.stores(old(clock)) && clock == old(clock) + 1
    {
      f := faults.stores(clock);
      clock := clock + 1;
    }

    // ---- Calls to the media bucket ----

    method ListObjects(prefix: string) returns (r: Result<seq<string>>)
      modifies this`clock
      ensures r.Ok? ==> forall key :: key in r.value <==> key in world.objects && HasPrefix(key, prefix)
      ensures clock == old(clock) + 1 && (r.Ok? <==> faults.stores(old(clock)) == Fine)
    {
      var f := NextFault();
      if f != Fine {
        return Err;
      }
      var left, keys := set key | key in world.objects && HasPrefix(key, prefix), [];
      ghost var all := left;
      while left != {}
        invariant forall key :: key in all <==> key in left || key in keys
        decreases left
      {
        var key :| key in left;
        left, keys := left - {key}, keys + [key];
      }
      return Ok(keys);
    }

    method DeleteObject(ghost hash: string, ghost w: World, key: string) returns (ok: bool)
      requires Safe(hash, w, world) && Owned(w, hash, key)
      modifies this`clock, this`world, this`trace
      ensures Safe(hash, w, world) && Recorded(hash, w, old(trace), trace, old(world), world)
      ensures world == old(world) || world == old(world).(objects := old(world).objects - {key})
      ensures ok ==> key !in world.objects
      ensures clock == old(clock) + 1 && (ok <==> faults.stores(old(clock)) == Fine)
    {
      SafeAfterObject(hash, w, world, key);
      var f := NextFault();
      if f != Before {
        world := world.(objects := world.objects - {key});
      }
      trace := trace + [world];
      ok := f == Fine;
    }

    /** LRU.Delete on this server's memory cache; it cannot fail. */
    method DeleteItem(ghost hash: string, ghost w: World, cacheKey: string)
      requires Safe(hash, w, world) && TrackedItem(w, hash, cacheKey)
      modifies this`world, this`trace
      ensures Safe(hash, w, world) && Recorded(hash, w, old(trace), trace, old(world), world)
      ensures world == old(world).(memory := LruSpec.Delete(old(world).memory, cacheKey))
      ensures forall k :: k == cacheKey || LruSpec.Find(old(world).memory, k).None? ==> LruSpec.Find(world.memory, k).None?
    {
      SafeAfterItem(hash, w, world, cacheKey);
      world := world.(memory := LruSpec.Delete(world.memory, cacheKey));
      trace := trace + [world];
      forall k
        ensures LruSpec.Find(world.memory, k) == if k == cacheKey then None else LruSpec.Find(old(world).memory, k)
      {
        LruSpec.FindWithout(old(world).memory, cacheKey, k);
      }
    }

    // ---- Calls to the database ----

    method ListJobs(hash: string) returns (r: Result<seq<JobRow>>)
      modifies this`clock
      ensures r.Ok? ==> r.value == JobsOf(world.jobs, hash)
      ensures clock == old(clock) + 1 && (r.Ok? <==> faults.stores(old(clock)) == Fine)
    {
      var f := NextFault();
      r := if f == Fine then Ok(JobsOf(world.jobs, hash)) else Err;
    }

    method ListRows(hash: string) returns (r: Result<seq<IndexRow>>)
      modifies this`clock
      ensures r.Ok? ==> r.value == RowsOf(world.index, hash)
      ensures clock == old(clock) + 1 && (r.Ok? <==> faults.stores(old(clock)) == Fine)
    {
      var f := NextFault();
      r := if f == Fine then Ok(RowsOf(world.index, hash)) else Err;
    }

    method DeleteRows(hash: string, ghost w: World) returns (ok: bool)
      requires Safe(hash, w, world) && world.index == w.index
      requires Safe(hash, w, world.(index := RowsNotOf(w.index, hash)))
      modifies this`clock, this`world, this`trace
      ensures Safe(hash, w, world) && Recorded(hash, w, old(trace), trace, old(world), world)
      ensures world == old(world) || world == old(world).(index := RowsNotOf(w.index, hash))
      ensures ok ==> world.index == RowsNotOf(w.index, hash)
      ensures clock == old(clock) + 1 && (ok <==> faults.stores(old(clock)) == Fine)
    {
      var f := NextFault();
      if f != Before {
        world := world.(index := RowsNotOf(world.index, hash));
      }
      trace := trace + [world];
      ok := f == Fine;
    }

    method DeleteKeys(hash: string, ghost w: World) returns (ok: bool)
      requires Safe(hash, w, world) && Gone(hash, w, world)
      modifies this`clock, this`world, this`trace
      ensures Safe(hash, w, world) && Gone(hash, w, world) && Recorded(hash, w, old(trace), trace, old(world), world)
      ensures world == old(world) || world == old(world).(keyHashes := old(world).keyHashes - {hash})
      ensures ok ==> hash !in world.keyHashes
      ensures clock == old(clock) + 1 && (ok <==> faults.stores(old(clock)) == Fine)
    {
      var f := NextFault();
      if f != Before {
        assert world.keyHashes - {hash} == w.keyHashes - {hash};
        world := world.(keyHashes := world.keyHashes - {hash});
      }
      trace := trace + [world];
      ok := f == Fine;
    }

    method DeleteJobRows(hash: string, ghost w: World) returns (ok: bool)
      requires Safe(hash, w, world) && Gone(hash, w, world) && world.jobs == w.jobs
      modifies this`clock, this`world, this`trace
      ensures Safe(hash, w, world) && Gone(hash, w, world) && Recorded(hash, w, old(trace), trace, old(world), world)
      ensures world == old(world) || world == old(world).(jobs := JobsNotOf(old(world).jobs, hash))
      ensures ok ==> world.jobs == JobsNotOf(w.jobs, hash)
      ensures clock == old(clock) + 1 && (ok <==> faults.stores(old(clock)) == Fine)
    {
      var f := NextFault();
      if f != Before {
        world := world.(jobs := JobsNotOf(world.jobs, hash));
      }
      trace := trace + [world];
      ok := f == Fine;
    }

    // ---- Calls to the task service ----

    method Queues() returns (r: Result<seq<string>>)
      modifies this`clock
      ensures clock == old(clock) + 1
      ensures r == if faults.calls(old(clock)) == Fine then Ok(serviceQueues) else Err
    {
      r := if faults.calls(clock) == Fine then Ok(serviceQueues) else Err;
      clock := clock + 1;
    }

    method CancelProcessing(id: string)
      modifies this`clock, this`tasks
      ensures Queue() == Signal(faults, old(Queue()), id)
    {
      if faults.calls(clock) != Before {
        tasks := SignalAll(tasks, id);
      }
      clock := clock + 1;
    }

    method GetTaskInfo(queue: string, id: string) returns (info: Option<TaskState>)
      modifies this`clock
      ensures clock == old(clock) + 1 && info == TaskInfo(faults, old(Queue()), (queue, id))
    {
      info := if faults.infos(clock) == Fine && (queue, id) in tasks then Some(tasks[(queue, id)]) else None;
      clock := clock + 1;
    }

    method DeleteTask(queue: string, id: string) returns (ok: bool)
      modifies this`clock, this`tasks
      ensures clock == old(clock) + 1 && (ok <==> faults.calls(old(clock)) == Fine)
      ensures tasks == if faults.calls(old(clock)) != Before then old(tasks) - {(queue, id)} else old(tasks)
    {
      var f := faults.calls(clock);
      if f != Before {
        tasks := tasks - {(queue, id)};
      }
      clock := clock + 1;
      ok := f == Fine;
    }

    // ---- The stages ----

    method QueueNames() returns (queues: seq<string>)
      modifies this`clock
      ensures clock == if hasInspector then old(clock) + 1 else old(clock)
      ensures queues == if hasInspector then TaskQueue.QueueNames(faults, old(clock), serviceQueues) else KNOWN_QUEUES
    {
      queues := KNOWN_QUEUES;
      if !hasInspector {
        return;
      }
      var actual := Queues();
      if actual.Err? {
        return;
      }
      for i := 0 to |actual.value|
        invariant queues == WithNames(actual.value[..i])
      {
        assert actual.value[..i + 1][..i] == actual.value[..i];
        var name := actual.value[i];
        if name == "" || name in queues {
          continue;
        }
        queues := queues + [name];
      }
      assert actual.value[..|actual.value|] == actual.value;
    }

    /** The loop over the queues in cancelTask. */
    method Sweep(id: string, queues: seq<string>) returns (found: bool, deleted: bool)
      modifies this`clock, this`tasks
      ensures Seen(Queue(), found, deleted) == TaskQueue.Sweep(faults, old(Queue()), id, queues)
    {
      found, deleted := false, false;
      for i := 0 to |queues|
        invariant Seen(Queue(), found, deleted) == TaskQueue.Sweep(faults, old(Queue()), id, queues[..i])
      {
        assert queues[..i + 1][..i] == queues[..i];
        var info := GetTaskInfo(queues[i], id);
        if info.None? {
          continue;
        }
        found := true;
        if info.value.Active? {
          continue;
        }
        var ok := DeleteTask(queues[i], id);
        if !ok {
          continue;
        }
        deleted := true;
      }
      assert queues[..|queues|] == queues;
    }

    /** cancelTask. Under any faults a reported success is wrong exactly when the task is overlooked, which is settled
        before the call; when reads work it is right. Without faults it succeeds exactly when the task stops in time, and
        while the task service is down it always reports success. */
    method CancelTask(id: string, queues: seq<string>) returns (ok: bool)
      requires Distinct(queues)
      modifies this`clock, this`tasks
      ensures Ended(Queue(), ok) == if hasInspector then Cancel(faults, old(Queue()), id, queues, ATTEMPTS) else Ended(old(Queue()), true)
      ensures hasInspector && Single(old(tasks), id) ==> (ok && Present(tasks, id) <==> Overlooks(faults, old(Queue()), id, queues))
      ensures hasInspector && Known(old(tasks), id, queues) && ReadsFine(faults, old(clock)) && ok ==> !Present(tasks, id)
      ensures hasInspector && Known(old(tasks), id, queues) && TasksQuiet(faults, old(clock)) ==>
                (ok <==> Stops(old(tasks), id)) && (ok ==> !Present(tasks, id))
      ensures Outage(faults, old(clock)) ==> ok && tasks.Keys == old(tasks).Keys
    {
      hide Overlooks, Known, Single, Present, Stops, TaskQueue.Sweep, Distinct, ReadsFine, TasksQuiet, Outage;
      if !hasInspector {
        return true;
      }
      ghost var start := Queue();
      CancelMeans(faults, start, id, queues);
      for attempt := 0 to ATTEMPTS
        invariant Cancel(faults, Queue(), id, queues, ATTEMPTS - attempt) == Cancel(faults, start, id, queues, ATTEMPTS)
      {
        CancelProcessing(id);
        var found, deleted := Sweep(id, queues);
        if !found || deleted {
          return true;
        }
      }
      return false;
    }

    /** The loop over the jobs in cancelTasks. */
    method CancelEach(jobs: seq<JobRow>, queues: seq<string>) returns (ok: bool)
      requires Distinct(queues)
      modifies this`clock, this`tasks
      ensures Ended(Queue(), ok) == if hasInspector then CancelJobs(faults, old(Queue()), jobs, queues) else Ended(old(Queue()), true)
    {
      hide Cancel, CancelJobs, Overlooks, Known, Single, Present, Stops, Distinct, ReadsFine, TasksQuiet, Outage;
      ghost var start := Queue();
      NoJobs(faults, start, jobs, queues);
      for i := 0 to |jobs|
        invariant hasInspector ==> Ended(Queue(), true) == CancelJobs(faults, start, jobs[..i], queues)
        invariant !hasInspector ==> Queue() == start
      {
        CancelJobsStep(faults, start, jobs, i, queues);
        StopsAtFailure(faults, start, jobs, i, queues);
        var job := jobs[i];
        if job.status == "completed" || job.status == "canceled" {
          continue;
        }
        ok := CancelTask(job.id, queues);
        if !ok {
          return;
        }
      }
      assert jobs[..|jobs|] == jobs;
      return true;
    }

    /** cancelTasks ends as CancelStage says; StageMeans tells what that means. */
    method CancelTasks(hash: string) returns (r: Status)
      modifies this`clock, this`tasks
      ensures Queue() == old(Stage(hash)).after && r == if old(Stage(hash)).ok then Done else Failed
    {
      hide CancelJobs, TaskQueue.QueueNames, Distinct;
      var jobs := ListJobs(hash);
      if jobs.Err? {
        return Failed;
      }
      QueueNamesMeans(faults, clock, serviceQueues);
      KnownAreDistinct();
      var queues := QueueNames();
      var ok := CancelEach(jobs.value, queues);
      return if ok then Done else Failed;
    }

    /** deletePrefix */
    method DeletePrefix(ghost hash: string, ghost w: World, prefix: string) returns (ok: bool)
      requires Safe(hash, w, world)
      requires forall key :: HasPrefix(key, prefix) ==> UnderPrefixes(hash, key)
      modifies this`clock, this`world, this`trace
      ensures Safe(hash, w, world) && Recorded(hash, w, old(trace), trace, old(world), world)
      ensures world == old(world).(objects := world.objects) && world.objects.Keys <= old(world).objects.Keys
      ensures ok ==> forall key | key in world.objects :: !HasPrefix(key, prefix)
      ensures clock >= old(clock) && (old(StoresQuiet()) ==> ok)
    {
      hide Safe, Recorded;
      NothingRecorded(hash, w, trace, world);
      var keys := ListObjects(prefix);
      if keys.Err? {
        return false;
      }
      for i := 0 to |keys.value|
        invariant Safe(hash, w, world) && Recorded(hash, w, old(trace), trace, old(world), world)
        invariant world == old(world).(objects := world.objects) && world.objects.Keys <= old(world).objects.Keys
        invariant forall j | 0 <= j < i :: keys.value[j] !in world.objects
        invariant clock >= old(clock)
      {
        assert keys.value[i] in keys.value;
        ghost var traceBefore, before := trace, world;
        var deleted := DeleteObject(hash, w, keys.value[i]);
        RecordedTwice(hash, w, old(trace), traceBefore, trace, old(world), before, world);
        if !deleted {
          return false;
        }
      }
      return true;
    }

    method DeleteMediaObjects(hash: string, ghost w: World) returns (r: Status)
      requires Safe(hash, w, world)
      modifies this`clock, this`world, this`trace
      ensures Safe(hash, w, world) && Recorded(hash, w, old(trace), trace, old(world), world)
      ensures world == old(world).(objects := world.objects) && world.objects.Keys <= old(world).objects.Keys
      ensures r != Pending && (r == Done ==> forall key | key in world.objects :: !UnderPrefixes(hash, key))
      ensures clock >= old(clock) && (old(StoresQuiet()) ==> r == Done)
    {
      hide Recorded, Safe, UnderPrefixes, HashPrefix, HasPrefix;
      NothingRecorded(hash, w, trace, world);
      var kinds := ["images", "videos", "audio"];
      for i := 0 to |kinds|
        invariant Safe(hash, w, world) && Recorded(hash, w, old(trace), trace, old(world), world)
        invariant world == old(world).(objects := world.objects) && world.objects.Keys <= old(world).objects.Keys
        invariant forall j | 0 <= j < i :: forall key | key in world.objects :: !HasPrefix(key, HashPrefix(hash, kinds[j]))
        invariant clock >= old(clock)
      {
        ghost var traceBefore, before := trace, world;
        PrefixOfKind(hash, kinds[i]);
        var ok := DeletePrefix(hash, w, HashPrefix(hash, kinds[i]));
        RecordedTwice(hash, w, old(trace), traceBefore, trace, old(world), before, world);
        if !ok {
          return Failed;
        }
      }
      assert kinds[0] == "images" && kinds[1] == "videos" && kinds[2] == "audio";
      PrefixesOfKinds(hash);
      return Done;
    }

    /** One round of the loop in deleteTrackedImageCaches. */
    method DropEntry(hash: string, ghost w: World, entry: IndexRow) returns (ok: bool)
      requires Safe(hash, w, world) && entry in w.index && entry.hash == hash
      modifies this`clock, this`world, this`trace
      ensures Safe(hash, w, world) && Recorded(hash, w, old(trace), trace, old(world), world)
      ensures world == old(world).(objects := world.objects, memory := world.memory)
      ensures world.objects.Keys <= old(world).objects.Keys
      ensures forall row :: Dropped(old(world), row) ==> Dropped(world, row)
      ensures ok ==> Dropped(world, entry)
      ensures clock >= old(clock) && (old(StoresQuiet()) ==> ok)
    {
      hide Safe, Recorded;
      DeleteItem(hash, w, entry.cacheKey);
      ghost var traceBefore, before := trace, world;
      if entry.storageKey == "" {
        return true;
      }
      ok := DeleteObject(hash, w, entry.storageKey);
      RecordedTwice(hash, w, old(trace), traceBefore, trace, old(world), before, world);
    }

    /** deleteTrackedImageCaches: the statuses of the tracked objects and of the index rows. */
    method DeleteTrackedImageCaches(hash: string, ghost w: World) returns (tracked: Status, rows: Status)
      requires Safe(hash, w, world) && world.index == w.index
      modifies this`clock, this`world, this`trace
      ensures Safe(hash, w, world) && Recorded(hash, w, old(trace), trace, old(world), world)
      ensures world == old(world).(objects := world.objects, memory := world.memory, index := world.index)
      ensures world.objects.Keys <= old(world).objects.Keys
      ensures tracked != Pending
      ensures tracked == Done ==>
                && (forall key | key in world.objects :: !TrackedObject(w, hash, key))
                && (forall cacheKey :: LruSpec.Find(world.memory, cacheKey).Some? ==> !TrackedItem(w, hash, cacheKey))
      ensures rows == Done ==> world.index == RowsNotOf(w.index, hash)
      ensures clock >= old(clock) && (old(StoresQuiet()) ==> tracked == Done && rows == Done)
    {
      hide Safe, Dropped, TrackedObject, TrackedItem, Recorded;
      NothingRecorded(hash, w, trace, world);
      var entries := ListRows(hash);
      if entries.Err? {
        return Failed, Failed;
      }
      for i := 0 to |entries.value|
        invariant Safe(hash, w, world) && Recorded(hash, w, old(trace), trace, old(world), world)
        invariant world == old(world).(objects := world.objects, memory := world.memory)
        invariant world.objects.Keys <= old(world).objects.Keys
        invariant forall j | 0 <= j < i :: Dropped(world, entries.value[j])
        invariant clock >= old(clock)
      {
        assert entries.value[i] in entries.value;
        ghost var traceBefore, before := trace, world;
        var ok := DropEntry(hash, w, entries.value[i]);
        RecordedTwice(hash, w, old(trace), traceBefore, trace, old(world), before, world);
        if !ok {
          return Failed, Pending;
        }
      }
      AllDropped(w, world, hash, entries.value);
      SafeAfterRows(hash, w, world);
      ghost var traceBefore, before := trace, world;
      var ok := DeleteRows(hash, w);
      RecordedTwice(hash, w, old(trace), traceBefore, trace, old(world), before, world);
      return Done, if ok then Done else Failed;
    }

    /** The stages of Cleanup that come before the confirmation. */
    method Remove(hash: string, ghost w: World) returns (r: CleanupResult)
      requires w == world
      modifies this
      ensures clock >= old(Stage(hash)).after.clock && tasks == old(Stage(hash)).after.tasks
      ensures r.taskCancellation == if old(Stage(hash)).ok then Done else Failed
      ensures Safe(hash, w, world) && Recorded(hash, w, old(trace), trace, old(world), world)
      ensures world.jobs == w.jobs && world.keyHashes == w.keyHashes && r.encryptionKey == r.jobRows == Pending
      ensures r.ConfirmedGone() ==> Gone(hash, w, world)
      ensures r.imageCacheIndex == Done ==> world.index == RowsNotOf(w.index, hash)
      ensures old(StoresQuiet()) && clock >= old(clock) ==> r.imageCacheIndex == r.mediaObjects == r.trackedCacheObjects == Done
    {
      hide CancelStage, RowsCover, OnlyOwnedRemoved, Safe, Recorded;
      r := CleanupResult(Pending, Pending, Pending, Pending, Pending, Pending);
      SafeStart(hash, w);
      StageMeans(faults, Queue(), hasInspector, serviceQueues, JobsOf(world.jobs, hash));
      var cancelled := CancelTasks(hash);
      var media := DeleteMediaObjects(hash, w);
      ghost var traceBefore, before := trace, world;
      var tracked, rows := DeleteTrackedImageCaches(hash, w);
      RecordedTwice(hash, w, old(trace), traceBefore, trace, old(world), before, world);
      r := r.(taskCancellation := cancelled, mediaObjects := media, trackedCacheObjects := tracked, imageCacheIndex := rows);
    }

    /** The stages of Cleanup that come after the confirmation. */
    method Forget(hash: string, ghost w: World) returns (keys: Status, jobs: Status)
      requires Safe(hash, w, world) && Gone(hash, w, world) && world.jobs == w.jobs
      modifies this`clock, this`world, this`trace
      ensures clock == old(clock) + 2
      ensures Safe(hash, w, world) && Gone(hash, w, world) && Recorded(hash, w, old(trace), trace, old(world), world)
      ensures world == old(world).(keyHashes := world.keyHashes, jobs := world.jobs)
      ensures keys != Pending && jobs != Pending && (old(StoresQuiet()) ==> keys == jobs == Done)
      ensures keys == Done ==> hash !in world.keyHashes
      ensures jobs == Done ==> JobsOf(world.jobs, hash) == []
    {
      hide Safe, Gone, Recorded;
      var ok := DeleteKeys(hash, w);
      keys := if ok then Done else Failed;
      ghost var traceBefore, before := trace, world;
      ok := DeleteJobRows(hash, w);
      jobs := if ok then Done else Failed;
      RecordedTwice(hash, w, old(trace), traceBefore, trace, old(world), before, world);
      NoneLeft(world, hash);
    }

    /** Cleanup. Every state it passes through is safe to be interrupted in; it confirms only when nothing is left, and
        only then touches keys and job rows. Under any faults confirmation leaves exactly the tasks that were overlooked,
        which is settled before the call, and none when reads of tasks work. Without faults it confirms exactly when every
        task stops in time, and then nothing of the hash remains; with the task service alone down it confirms and leaves
        every task where it was. */
    method Cleanup(hash: string) returns (r: CleanupResult)
      modifies this
      ensures clock > old(clock) && Eased(old(tasks), tasks)
      ensures tasks == old(Stage(hash)).after.tasks && r.taskCancellation == if old(Stage(hash)).ok then Done else Failed
      ensures Safe(hash, old(world), world) && Recorded(hash, old(world), old(trace), trace, old(world), world)
      ensures r.ConfirmedGone() ==> Gone(hash, old(world), world)
      ensures !r.ConfirmedGone() ==> world.jobs == old(world).jobs && world.keyHashes == old(world).keyHashes
      ensures r.ConfirmedGone() <==> r.encryptionKey != Pending
      ensures r.ConfirmedGone() <==> r.jobRows != Pending
      ensures r.imageCacheIndex == Done ==> RowsOf(world.index, hash) == []
      ensures r.encryptionKey == Done ==> hash !in world.keyHashes
      ensures r.jobRows == Done ==> JobsOf(world.jobs, hash) == []
      ensures r.ConfirmedGone() && hasInspector ==>
                OnlyOverlookedLeft(faults, Listed(old(Queue())), JobsOf(old(world).jobs, hash),
                                   TaskQueue.QueueNames(faults, old(clock) + 1, serviceQueues), tasks)
      ensures r.ConfirmedGone() && hasInspector && ReadsFine(faults, old(clock)) &&
              AllKnown(old(tasks), JobsOf(old(world).jobs, hash), KNOWN_QUEUES) ==>
                AllGone(tasks, JobsOf(old(world).jobs, hash))
      ensures r.ConfirmedGone() && hasInspector && ReadsFine(faults, old(clock)) ==>
                NoUnendedTask(old(world).jobs, hash, old(tasks), tasks)
      ensures OtherTasksKept(old(world).jobs, hash, old(tasks), tasks)
      ensures old(StoresQuiet()) && (!hasInspector || Outage(faults, old(clock))) ==> r.ConfirmedGone() && tasks.Keys == old(tasks).Keys
      ensures old(StoresQuiet()) && TasksQuiet(faults, old(clock)) && hasInspector && "" !in serviceQueues &&
              AllKnown(old(tasks), JobsOf(old(world).jobs, hash), serviceQueues) ==>
                (r.ConfirmedGone() <==> AllStop(old(tasks), JobsOf(old(world).jobs, hash)))
      ensures old(StoresQuiet()) && r.ConfirmedGone() ==>
                !r.HasWarnings() && r.imageCacheIndex == Done && r.encryptionKey == Done && r.jobRows == Done
    {
      hide CancelStage, OnlyOverlookedLeft, AllKnown, AllStop, AllGone, Eased, ReadsFine, TasksQuiet, Outage, Safe, Gone, Recorded,
        TaskQueue.QueueNames, NoUnendedTask, OtherTasksKept;
      ghost var w := world;
      TasksByStatus(faults, Queue(), hasInspector, serviceQueues, world.jobs, hash);
      StageMeans(faults, Queue(), hasInspector, serviceQueues, JobsOf(world.jobs, hash));
      r := Remove(hash, w);
      NoneLeft(world, hash);
      if !r.ConfirmedGone() {
        return;
      }
      ghost var traceBefore, before := trace, world;
      var keys, jobs := Forget(hash, w);
      RecordedTwice(hash, w, old(trace), traceBefore, trace, old(world), before, world);
      r := r.(encryptionKey := keys, jobRows := jobs);
    }

    /** A caller that repeats the cleanup n more times. When reads of tasks work, whatever else fails, a confirmation at the
        end leaves no task of a job that the first run could see. And if the faults end within the first n calls to the
        services, then the last run confirms without a warning, and nothing is left of what the first run could see. */
    method CleanupRepeatedly(hash: string, n: nat) returns (r: CleanupResult)
      modifies this
      ensures Safe(hash, old(world), world) && Eased(old(tasks), tasks)
      ensures r.ConfirmedGone() ==> Gone(hash, old(world), world)
      ensures r.ConfirmedGone() && hasInspector && ReadsFine(faults, old(clock)) &&
              AllKnown(old(tasks), JobsOf(old(world).jobs, hash), KNOWN_QUEUES) ==>
                AllGone(tasks, JobsOf(old(world).jobs, hash))
      ensures (forall m: nat | m >= old(clock) + n :: faults.stores(m) == faults.infos(m) == faults.calls(m) == Fine) &&
              (hasInspector ==> "" !in serviceQueues && AllKnown(old(tasks), JobsOf(old(world).jobs, hash), serviceQueues) &&
                                AllStop(old(tasks), JobsOf(old(world).jobs, hash))) ==>
                r.ConfirmedGone() && !r.HasWarnings() && RowsOf(world.index, hash) == [] && JobsOf(world.jobs, hash) == [] &&
                hash !in world.keyHashes
    {
      hide Safe, Gone, Eased, AllKnown, AllStop, AllGone, OnlyOverlookedLeft, CancelStage, Recorded;
      ghost var w, start, began, ids := world, tasks, clock, JobsOf(world.jobs, hash);
      ghost var readable := hasInspector && ReadsFine(faults, clock) && AllKnown(tasks, ids, KNOWN_QUEUES);
      SafeStart(hash, w);
      FollowsItself(Queue(), hash);
      EasedItself(tasks);
      for i := 0 to n
        invariant Safe(hash, w, world) && Eased(start, tasks) && clock >= began + i
        invariant readable && world.jobs != w.jobs ==> AllGone(tasks, ids)
      {
        ghost var before, tasksBefore := world, tasks;
        EasingKeepsJobs(start, tasks, ids, KNOWN_QUEUES);
        var _ := Cleanup(hash);
        SafeTwice(hash, w, before, world);
        EasedTwice(start, tasksBefore, tasks);
        EasingKeepsJobs(tasksBefore, tasks, ids, KNOWN_QUEUES);
      }
      ghost var before, tasksBefore := world, tasks;
      SafeKeepsJobs(hash, w, before);
      NoJobsToKeep(tasksBefore, serviceQueues);
      EasingKeepsJobs(start, tasksBefore, ids, KNOWN_QUEUES);
      EasingKeepsJobs(start, tasksBefore, ids, serviceQueues);
      r := Cleanup(hash);
      SafeTwice(hash, w, before, world);
      EasedTwice(start, tasksBefore, tasks);
      EasingKeepsJobs(tasksBefore, tasks, ids, KNOWN_QUEUES);
      if r.ConfirmedGone() {
        SafeRemovesOnly(hash, before, world);
        GoneReachesBack(hash, w, before, world);
      }
    }
  }

  lemma PrefixOfKind(hash: string, kind: string)
    requires kind in ["images", "videos", "audio"]
    ensures forall key :: HasPrefix(key, HashPrefix(hash, kind)) ==> UnderPrefixes(hash, key)
  {
  }

  lemma PrefixesOfKinds(hash: string)
    ensures forall key :: UnderPrefixes(hash, key) <==>
              HasPrefix(key, HashPrefix(hash, "images")) || HasPrefix(key, HashPrefix(hash, "videos")) || HasPrefix(key, HashPrefix(hash, "audio"))
  {
  }

  lemma SafeKeepsJobs(hash: string, w: World, w': World)
    requires Safe(hash, w, w')
    ensures w'.jobs == w.jobs || JobsOf(w'.jobs, hash) == []
  {
    NoneLeft(w', hash);
  }

  lemma NoJobsToKeep(tasks: Tasks, queues: seq<string>)
    ensures AllKnown(tasks, [], queues) && AllStop(tasks, [])
  {
  }

  lemma SafeRemovesOnly(hash: string, w: World, w': World)
    requires Safe(hash, w, w')
    ensures OnlyOwnedRemoved(hash, w, w')
  {
  }

  /** With the task service down every cleanup of a hash confirms, and its tasks are all still there: here a video job
      that is running and would have stopped at the first signal. */
  method UnreadableTaskSurvives() returns (c: Cleaner, r: CleanupResult)
    ensures r.ConfirmedGone() && !r.HasWarnings() && c.world.jobs == [] && ("default", "j") in c.tasks
  {
    var world := World(map[], [], [JobRow("j", "h", "processing")], {}, []);
    var down := Oracle(_ => Fine, _ => Before, _ => Before);
    c := new Cleaner(down, true, KNOWN_QUEUES, world, map[("default", "j") := Active(0)]);
    r := c.Cleanup("h");
    assert ("default", "j") in c.tasks.Keys;
  }

  /** A queued job loses its task, and then its row. */
  method QueuedTaskIsDeleted() returns (c: Cleaner, r: CleanupResult)
    ensures r.ConfirmedGone() && !r.HasWarnings() && c.world.jobs == [] && c.tasks == map[]
  {
    var world := World(map[], [], [JobRow("j", "h", "queued")], {}, []);
    var fine := Oracle(_ => Fine, _ => Fine, _ => Fine);
    c := new Cleaner(fine, true, KNOWN_QUEUES, world, map[("default", "j") := Idle]);
    hide OnlyOverlookedLeft, CancelStage, Gone, Recorded, RowsCover, OnlyOwnedRemoved, OtherTasksKept, Outage, TaskQueue.QueueNames;
    ghost var job := world.jobs[0];
    assert KNOWN_QUEUES[1] == "default" && job in world.jobs;
    r := c.Cleanup("h");
    assert !Present(c.tasks, "j");
    forall k | k in c.tasks
      ensures k.1 == "j"
    {
    }
    assert c.tasks == map[];
  }

  lemma NoneLeft(w: World, hash: string)
    ensures (forall row <- w.index :: row.hash != hash) ==> RowsOf(w.index, hash) == []
    ensures (forall job <- w.jobs :: job.hash != hash) ==> JobsOf(w.jobs, hash) == []
  {
    var rows, jobs := RowsOf(w.index, hash), JobsOf(w.jobs, hash);
    if rows != [] {
      assert rows[0] in rows;
    }
    if jobs != [] {
      assert jobs[0] in jobs;
    }
  }
}
