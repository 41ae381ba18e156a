/** Cancelling queued tasks, call by call, over services that may fail at any call. */
module TaskQueue {
  import opened Wrappers
  import opened Media

  // ---- The service ----

  /** How a call ends: it works, or it reports an error before or after it took effect. */
  datatype Fault = Fine | Before | After

  /** How the n-th call ends: a call to the media bucket or the database, one that reads a task, and any other call to the
      task service. */
  datatype Oracle = Oracle(stores: nat -> Fault, infos: nat -> Fault, calls: nat -> Fault)

  /** A queued task. An active one ignores that many cancel signals before it stops. */
  datatype TaskState = Idle | Active(stubborn: nat)

  type Tasks = map<(string, string), TaskState>

  /** The number of calls made so far, and the tasks by queue and id. */
  datatype Service = Service(clock: nat, tasks: Tasks)

  const ATTEMPTS := 5

  /** The queues that the program puts jobs into. */
  const KNOWN_QUEUES := ["critical", "default", "video:large"]

  function Signalled(state: TaskState): TaskState {
    match state
    case Idle => Idle
    case Active(n) => if n == 0 then Idle else Active(n - 1)
  }

  /** Every task with this id receives a cancel signal. */
  function SignalAll(tasks: Tasks, id: string): Tasks {
    map k | k in tasks :: if k.1 == id then Signalled(tasks[k]) else tasks[k]
  }

  // ---- Cancelling ----

  datatype Seen = Seen(after: Service, found: bool, deleted: bool)

  datatype Ended = Ended(after: Service, ok: bool)

  /** CancelProcessing */
  function Signal(o: Oracle, s: Service, id: string): Service {
    Service(s.clock + 1, if o.calls(s.clock) != Before then SignalAll(s.tasks, id) else s.tasks)
  }

  /** GetTaskInfo: an error and an absent task look the same. */
  function TaskInfo(o: Oracle, s: Service, k: (string, string)): Option<TaskState> {
    if k in s.tasks && o.infos(s.clock) == Fine then Some(s.tasks[k]) else None
  }

  /** One look into one queue: the task is deleted where it is found and not active. */
  function Look(o: Oracle, s: Service, id: string, queue: string): Seen {
    var k := (queue, id);
    if TaskInfo(o, s, k).None? then Seen(Service(s.clock + 1, s.tasks), false, false)
    else if s.tasks[k].Active? then Seen(Service(s.clock + 1, s.tasks), true, false)
    else Seen(Service(s.clock + 2, if o.calls(s.clock + 1) != Before then s.tasks - {k} else s.tasks), true, o.calls(s.clock + 1) == Fine)
  }

  /** One look into every queue. */
  function Sweep(o: Oracle, s: Service, id: string, queues: seq<string>): Seen {
    if queues == [] then Seen(s, false, false)
    else
      var before := Sweep(o, s, id, queues[..|queues| - 1]);
      var last := Look(o, before.after, id, queues[|queues| - 1]);
      Seen(last.after, before.found || last.found, before.deleted || last.deleted)
  }

  function Attempt(o: Oracle, s: Service, id: string, queues: seq<string>): Seen {
    Sweep(o, Signal(o, s, id), id, queues)
  }

  /** cancelTask with some attempts left. */
  function Cancel(o: Oracle, s: Service, id: string, queues: seq<string>, attempts: nat): Ended
    decreases attempts
  {
    if attempts == 0 then Ended(s, false)
    else
      var seen := Attempt(o, s, id, queues);
      if !seen.found || seen.deleted then Ended(seen.after, true) else Cancel(o, seen.after, id, queues, attempts - 1)
  }

  predicate NeedsCancel(job: JobRow) {
    job.status != "completed" && job.status != "canceled"
  }

  /** The loop of cancelTasks: it stops at the first job that cannot be cancelled. */
  function CancelJobs(o: Oracle, s: Service, jobs: seq<JobRow>, queues: seq<string>): Ended {
    if jobs == [] then Ended(s, true)
    else
      var before, last := CancelJobs(o, s, jobs[..|jobs| - 1], queues), jobs[|jobs| - 1];
      if !before.ok || !NeedsCancel(last) then before else Cancel(o, before.after, last.id, queues, ATTEMPTS)
  }

  /** The known queues and the other named ones of a list, each once. */
  function WithNames(names: seq<string>): seq<string> {
    if names == [] then KNOWN_QUEUES
    else
      var before, last := WithNames(names[..|names| - 1]), names[|names| - 1];
      if last == "" || last in before then before else before + [last]
  }

  /** queueNames, when the list is asked for at this time. */
  function QueueNames(o: Oracle, clock: nat, names: seq<string>): seq<string> {
    if o.calls(clock) == Fine then WithNames(names) else KNOWN_QUEUES
  }

  /** cancelTasks: the jobs are listed, then the queues, and then the jobs are cancelled. */
  function CancelStage(o: Oracle, s: Service, hasInspector: bool, names: seq<string>, jobs: seq<JobRow>): Ended {
    if o.stores(s.clock) != Fine then Ended(Service(s.clock + 1, s.tasks), false)
    else if !hasInspector then Ended(Service(s.clock + 1, s.tasks), true)
    else CancelJobs(o, Service(s.clock + 2, s.tasks), jobs, QueueNames(o, s.clock + 1, names))
  }

  // ---- Tasks of an id ----

  /** The only task with this id. */
  ghost predicate Sole(tasks: Tasks, k: (string, string)) {
    k in tasks && forall k' | k' in tasks && k'.1 == k.1 :: k' == k
  }

  /** At most one task has this id. */
  ghost predicate Single(tasks: Tasks, id: string) {
    forall k | k in tasks && k.1 == id :: Sole(tasks, k)
  }

  ghost predicate Present(tasks: Tasks, id: string) {
    exists k | k in tasks :: k.1 == id
  }

  /** The task with this id sits in one queue, one of those given. */
  ghost predicate Known(tasks: Tasks, id: string, queues: seq<string>) {
    forall k | k in tasks && k.1 == id :: k.0 in queues && Sole(tasks, k)
  }

  /** The task is absent, or stops within the five cancellation attempts. */
  ghost predicate Stops(tasks: Tasks, id: string) {
    forall k | k in tasks && k.1 == id :: tasks[k].Idle? || tasks[k].stubborn < 5
  }

  predicate Distinct(queues: seq<string>) {
    forall i, j | 0 <= i < j < |queues| :: queues[i] != queues[j]
  }

  predicate Easier(a: TaskState, b: TaskState) {
    a == b || (b.Active? && (a.Idle? || a.stubborn <= b.stubborn))
  }

  /** Tasks only disappear or come closer to stopping. */
  ghost predicate Eased(start: Tasks, tasks: Tasks) {
    forall k | k in tasks :: k in start && Easier(tasks[k], start[k])
  }

  /** tasks differs from before only in the tasks with this id. */
  ghost predicate OthersKept(before: Tasks, tasks: Tasks, id: string) {
    && (forall k | k in tasks :: k in before && (k.1 != id ==> tasks[k] == before[k]))
    && (forall k | k in before :: k.1 != id ==> k in tasks)
  }

  /** From this time on no read of a task fails; no call to the task service fails; every one fails. */
  ghost predicate ReadsFine(o: Oracle, clock: nat) {
    forall n: nat | n >= clock :: o.infos(n) == Fine
  }

  ghost predicate TasksQuiet(o: Oracle, clock: nat) {
    forall n: nat | n >= clock :: o.infos(n) == Fine && o.calls(n) == Fine
  }

  ghost predicate Outage(o: Oracle, clock: nat) {
    forall n: nat | n >= clock :: o.infos(n) != Fine && o.calls(n) != Fine
  }

  // ---- What every step keeps ----

  /** s' comes after s by calls about one id. */
  ghost predicate Follows(s: Service, s': Service, id: string) {
    s'.clock >= s.clock && OthersKept(s.tasks, s'.tasks, id) && Eased(s.tasks, s'.tasks)
  }

  lemma FollowsTwice(s: Service, s': Service, s'': Service, id: string)
    requires Follows(s, s', id) && Follows(s', s'', id)
    ensures Follows(s, s'', id)
  {
  }

  lemma FollowsItself(s: Service, id: string)
    ensures Follows(s, s, id)
  {
  }

  lemma {:induction false} SweepFollows(o: Oracle, s: Service, id: string, queues: seq<string>)
    ensures Follows(s, Sweep(o, s, id, queues).after, id)
    ensures Sweep(o, s, id, queues).after.clock >= s.clock + |queues|
  {
    FollowsItself(s, id);
    if queues != [] {
      var init := queues[..|queues| - 1];
      SweepFollows(o, s, id, init);
      LookFollows(o, Sweep(o, s, id, init).after, id, queues[|queues| - 1]);
      FollowsTwice(s, Sweep(o, s, id, init).after, Sweep(o, s, id, queues).after, id);
    }
  }

  lemma LookFollows(o: Oracle, s: Service, id: string, queue: string)
    ensures Follows(s, Look(o, s, id, queue).after, id) && Look(o, s, id, queue).after.clock > s.clock
  {
  }

  lemma SignalFollows(o: Oracle, s: Service, id: string)
    ensures Follows(s, Signal(o, s, id), id) && Signal(o, s, id).tasks.Keys == s.tasks.Keys
  {
  }

  lemma AttemptFollows(o: Oracle, s: Service, id: string, queues: seq<string>)
    ensures Follows(s, Attempt(o, s, id, queues).after, id)
  {
    hide Follows, Signal, Sweep;
    SignalFollows(o, s, id);
    SweepFollows(o, Signal(o, s, id), id, queues);
    FollowsTwice(s, Signal(o, s, id), Attempt(o, s, id, queues).after, id);
  }

  lemma {:induction false} CancelFollows(o: Oracle, s: Service, id: string, queues: seq<string>, attempts: nat)
    ensures Follows(s, Cancel(o, s, id, queues, attempts).after, id)
    decreases attempts
  {
    hide Follows, Attempt;
    FollowsItself(s, id);
    if attempts > 0 {
      var next := Attempt(o, s, id, queues).after;
      AttemptFollows(o, s, id, queues);
      CancelFollows(o, next, id, queues, attempts - 1);
      FollowsTwice(s, next, Cancel(o, next, id, queues, attempts - 1).after, id);
    }
  }

  // ---- How a cancellation ends ----

  /** How a sweep of the first n queues ends when the only task of the id sits in queue number j. */
  function SoleSeen(o: Oracle, s: Service, k: (string, string), j: nat, n: nat): Seen
    requires k in s.tasks
  {
    if n <= j || o.infos(s.clock + j) != Fine then Seen(Service(s.clock + n, s.tasks), false, false)
    else if s.tasks[k].Active? then Seen(Service(s.clock + n, s.tasks), true, false)
    else
      var f := o.calls(s.clock + j + 1);
      Seen(Service(s.clock + n + 1, if f != Before then s.tasks - {k} else s.tasks), true, f == Fine)
  }

  lemma {:induction false} SweepOfSole(o: Oracle, s: Service, k: (string, string), queues: seq<string>, j: nat, n: nat)
    requires Sole(s.tasks, k) && Distinct(queues) && j < |queues| && queues[j] == k.0 && n <= |queues|
    ensures Sweep(o, s, k.1, queues[..n]) == SoleSeen(o, s, k, j, n)
  {
    if n > 0 {
      SweepOfSole(o, s, k, queues, j, n - 1);
      assert queues[..n][..n - 1] == queues[..n - 1];
      if n - 1 != j {
        assert queues[n - 1] != k.0;
        assert (queues[n - 1], k.1) !in s.tasks;
      }
    }
  }

  lemma {:induction false} SweepOfNone(o: Oracle, s: Service, id: string, queues: seq<string>, n: nat)
    requires n <= |queues| && forall k | k in s.tasks && k.1 == id :: k.0 !in queues
    ensures Sweep(o, s, id, queues[..n]) == Seen(Service(s.clock + n, s.tasks), false, false)
  {
    if n > 0 {
      SweepOfNone(o, s, id, queues, n - 1);
      assert queues[..n][..n - 1] == queues[..n - 1];
      assert queues[n - 1] in queues;
    }
  }

  datatype Fate = Overlooked | Removed | GivenUp

  /** What becomes of a task in this state, in queue number j of n, when it is cancelled from this time on: it is
      overlooked exactly when its read fails in an attempt that finds it still there. */
  function FateOf(o: Oracle, clock: nat, state: TaskState, j: nat, n: nat, attempts: nat): Fate
    decreases attempts
  {
    if attempts == 0 then GivenUp
    else
      var signalled := if o.calls(clock) != Before then Signalled(state) else state;
      var read := clock + 1 + j;
      if o.infos(read) != Fine then Overlooked
      else if signalled.Active? then FateOf(o, clock + 1 + n, signalled, j, n, attempts - 1)
      else
        match o.calls(read + 1)
        case Fine => Removed
        case After => if attempts == 1 then GivenUp else Removed
        case Before => FateOf(o, clock + 2 + n, signalled, j, n, attempts - 1)
  }

  /** The cancellation of the only task of an id ends as its fate says. */
  ghost predicate EndsAs(e: Ended, k: (string, string), fate: Fate) {
    match fate
    case Overlooked => e.ok && k in e.after.tasks
    case Removed => e.ok && k !in e.after.tasks
    case GivenUp => !e.ok
  }

  lemma SoleSignalled(o: Oracle, s: Service, k: (string, string))
    requires Sole(s.tasks, k)
    ensures Sole(Signal(o, s, k.1).tasks, k)
    ensures Signal(o, s, k.1).tasks[k] == if o.calls(s.clock) != Before then Signalled(s.tasks[k]) else s.tasks[k]
  {
  }

  /** How one attempt ends for the only task of an id. */
  lemma AttemptOfSole(o: Oracle, s: Service, k: (string, string), queues: seq<string>, j: nat)
    requires Sole(s.tasks, k) && Distinct(queues) && j < |queues| && queues[j] == k.0
    ensures Sole(Signal(o, s, k.1).tasks, k)
    ensures Attempt(o, s, k.1, queues) == SoleSeen(o, Signal(o, s, k.1), k, j, |queues|)
  {
    hide Sweep, Signal;
    SoleSignalled(o, s, k);
    SweepOfSole(o, Signal(o, s, k.1), k, queues, j, |queues|);
    assert queues[..|queues|] == queues;
  }

  /** A task that is not in the queues is neither found nor touched. */
  lemma CancelOfNone(o: Oracle, s: Service, id: string, queues: seq<string>, attempts: nat)
    requires attempts > 0 && forall k | k in s.tasks && k.1 == id :: k.0 !in queues
    ensures Cancel(o, s, id, queues, attempts).ok && Cancel(o, s, id, queues, attempts).after.tasks.Keys == s.tasks.Keys
  {
    hide Sweep, Signal;
    SignalFollows(o, s, id);
    SweepOfNone(o, Signal(o, s, id), id, queues, |queues|);
    assert queues[..|queues|] == queues;
  }

  lemma SignalTakesOneCall(o: Oracle, s: Service, id: string)
    ensures Signal(o, s, id).clock == s.clock + 1
  {
  }

  lemma NoneIsLeft(before: Tasks, tasks: Tasks, k: (string, string))
    requires Sole(before, k) && tasks == before - {k}
    ensures forall k' | k' in tasks :: k'.1 != k.1
  {
  }

  lemma {:induction false} CancelOfSole(o: Oracle, s: Service, k: (string, string), queues: seq<string>, j: nat, attempts: nat)
    requires Sole(s.tasks, k) && Distinct(queues) && j < |queues| && queues[j] == k.0
    ensures EndsAs(Cancel(o, s, k.1, queues, attempts), k, FateOf(o, s.clock, s.tasks[k], j, |queues|, attempts))
    decreases attempts
  {
    hide Attempt, Signal, Sole, Distinct;
    if attempts > 0 {
      var signalled := Signal(o, s, k.1);
      SignalTakesOneCall(o, s, k.1);
      AttemptOfSole(o, s, k, queues, j);
      SoleSignalled(o, s, k);
      var seen := Attempt(o, s, k.1, queues);
      if seen.found && !seen.deleted {
        if k in seen.after.tasks {
          CancelOfSole(o, seen.after, k, queues, j, attempts - 1);
        } else if attempts > 1 {
          NoneIsLeft(signalled.tasks, seen.after.tasks, k);
          CancelOfNone(o, seen.after, k.1, queues, attempts - 1);
        }
      }
    }
  }

  function IndexOf(queues: seq<string>, queue: string): (j: nat)
    requires queue in queues
    ensures j < |queues| && queues[j] == queue
  {
    if queues[|queues| - 1] == queue then |queues| - 1
    else
      assert queues == queues[..|queues| - 1] + [queues[|queues| - 1]];
      IndexOf(queues[..|queues| - 1], queue)
  }

  /** A cancellation that starts here overlooks the task of an id: the task sits in a queue that is not looked into, or a
      read of it fails while it is there. */
  ghost predicate Overlooks(o: Oracle, s: Service, id: string, queues: seq<string>) {
    exists k | k in s.tasks && k.1 == id ::
      k.0 !in queues || FateOf(o, s.clock, s.tasks[k], IndexOf(queues, k.0), |queues|, ATTEMPTS) == Overlooked
  }

  /** Whatever fails, a cancellation reports success for a task that is still there exactly when it overlooks the task,
      which is settled by the tasks and the faults before it starts. */
  lemma WrongSuccessIff(o: Oracle, s: Service, id: string, queues: seq<string>)
    requires Distinct(queues) && Single(s.tasks, id)
    ensures var e := Cancel(o, s, id, queues, ATTEMPTS);
            e.ok && Present(e.after.tasks, id) <==> Overlooks(o, s, id, queues)
  {
    hide Cancel, FateOf;
    var e := Cancel(o, s, id, queues, ATTEMPTS);
    CancelFollows(o, s, id, queues, ATTEMPTS);
    if k :| k in s.tasks && k.1 == id {
      assert Sole(s.tasks, k);
      assert forall k' | k' in e.after.tasks && k'.1 == id :: k' == k;
      if k.0 in queues {
        CancelOfSole(o, s, k, queues, IndexOf(queues, k.0), ATTEMPTS);
      } else {
        CancelOfNone(o, s, id, queues, ATTEMPTS);
        assert k in e.after.tasks.Keys;
      }
    }
  }

  lemma {:induction false} ReadsFineOverlooksNone(o: Oracle, clock: nat, state: TaskState, j: nat, n: nat, attempts: nat)
    requires ReadsFine(o, clock)
    ensures FateOf(o, clock, state, j, n, attempts) != Overlooked
    decreases attempts
  {
    if attempts > 0 {
      var signalled := if o.calls(clock) != Before then Signalled(state) else state;
      ReadsFineOverlooksNone(o, clock + 1 + n, signalled, j, n, attempts - 1);
      ReadsFineOverlooksNone(o, clock + 2 + n, signalled, j, n, attempts - 1);
    }
  }

  /** With working reads, whatever else fails, a reported success is right for a task in the queues. */
  lemma ReadsFineIsRight(o: Oracle, s: Service, id: string, queues: seq<string>)
    requires Distinct(queues) && Known(s.tasks, id, queues) && ReadsFine(o, s.clock)
    ensures var e := Cancel(o, s, id, queues, ATTEMPTS); e.ok ==> !Present(e.after.tasks, id)
  {
    hide Cancel, FateOf;
    WrongSuccessIff(o, s, id, queues);
    forall k | k in s.tasks && k.1 == id
      ensures k.0 in queues && FateOf(o, s.clock, s.tasks[k], IndexOf(queues, k.0), |queues|, ATTEMPTS) != Overlooked
    {
      ReadsFineOverlooksNone(o, s.clock, s.tasks[k], IndexOf(queues, k.0), |queues|, ATTEMPTS);
    }
  }

  lemma {:induction false} QuietFate(o: Oracle, clock: nat, state: TaskState, j: nat, n: nat, attempts: nat)
    requires TasksQuiet(o, clock)
    ensures FateOf(o, clock, state, j, n, attempts) ==
            if attempts > 0 && (state.Idle? || state.stubborn < attempts) then Removed else GivenUp
    decreases attempts
  {
    if attempts > 0 && state.Active? && state.stubborn > 0 {
      QuietFate(o, clock + 1 + n, Signalled(state), j, n, attempts - 1);
    }
  }

  /** Without faults a cancellation succeeds exactly when the task stops in time, and then the task is gone. */
  lemma QuietCancel(o: Oracle, s: Service, id: string, queues: seq<string>)
    requires Distinct(queues) && Known(s.tasks, id, queues) && TasksQuiet(o, s.clock)
    ensures var e := Cancel(o, s, id, queues, ATTEMPTS);
            (e.ok <==> Stops(s.tasks, id)) && (e.ok ==> !Present(e.after.tasks, id))
  {
    hide Cancel, FateOf;
    var e := Cancel(o, s, id, queues, ATTEMPTS);
    CancelFollows(o, s, id, queues, ATTEMPTS);
    if k :| k in s.tasks && k.1 == id {
      assert Sole(s.tasks, k);
      CancelOfSole(o, s, k, queues, IndexOf(queues, k.0), ATTEMPTS);
      QuietFate(o, s.clock, s.tasks[k], IndexOf(queues, k.0), |queues|, ATTEMPTS);
    } else {
      CancelOfNone(o, s, id, queues, ATTEMPTS);
    }
  }

  lemma {:induction false} SweepInOutage(o: Oracle, s: Service, id: string, queues: seq<string>)
    requires Outage(o, s.clock)
    ensures !Sweep(o, s, id, queues).found && Sweep(o, s, id, queues).after.tasks == s.tasks
  {
    if queues != [] {
      var init := queues[..|queues| - 1];
      SweepInOutage(o, s, id, init);
      SweepFollows(o, s, id, init);
    }
  }

  /** While the task service is down every cancellation reports success and leaves the task. */
  lemma OutageCancel(o: Oracle, s: Service, id: string, queues: seq<string>)
    requires Outage(o, s.clock)
    ensures var e := Cancel(o, s, id, queues, ATTEMPTS); e.ok && e.after.tasks.Keys == s.tasks.Keys
  {
    hide Sweep, Signal;
    SignalFollows(o, s, id);
    assert Signal(o, s, id).clock >= s.clock;
    SweepInOutage(o, Signal(o, s, id), id, queues);
  }

  lemma CancelMeans(o: Oracle, s: Service, id: string, queues: seq<string>)
    requires Distinct(queues)
    ensures var e := Cancel(o, s, id, queues, ATTEMPTS);
            (Single(s.tasks, id) ==> (e.ok && Present(e.after.tasks, id) <==> Overlooks(o, s, id, queues))) &&
            (Known(s.tasks, id, queues) && ReadsFine(o, s.clock) && e.ok ==> !Present(e.after.tasks, id)) &&
            (Known(s.tasks, id, queues) && TasksQuiet(o, s.clock) ==>
               (e.ok <==> Stops(s.tasks, id)) && (e.ok ==> !Present(e.after.tasks, id))) &&
            (Outage(o, s.clock) ==> e.ok && e.after.tasks.Keys == s.tasks.Keys)
  {
    hide Cancel, Single, Present, Known, Overlooks, Stops, Distinct, ReadsFine, TasksQuiet, Outage;
    if Single(s.tasks, id) {
      WrongSuccessIff(o, s, id, queues);
    }
    if Known(s.tasks, id, queues) && ReadsFine(o, s.clock) {
      ReadsFineIsRight(o, s, id, queues);
    }
    if Known(s.tasks, id, queues) && TasksQuiet(o, s.clock) {
      QuietCancel(o, s, id, queues);
    }
    if Outage(o, s.clock) {
      OutageCancel(o, s, id, queues);
    }
  }

  // ---- The jobs of a hash ----

  /** The state in which the cancellation of job number i starts. */
  function Reached(o: Oracle, s: Service, jobs: seq<JobRow>, i: nat, queues: seq<string>): Service
    requires i <= |jobs|
  {
    CancelJobs(o, s, jobs[..i], queues).after
  }

  /** Some of the first n jobs is to be cancelled and has this id. */
  predicate Named(jobs: seq<JobRow>, n: nat, id: string)
    requires n <= |jobs|
  {
    exists i | 0 <= i < n :: NeedsCancel(jobs[i]) && jobs[i].id == id
  }

  /** Job number i is the last one of its id that is to be cancelled. */
  predicate LastOf(jobs: seq<JobRow>, i: nat)
    requires i < |jobs|
  {
    NeedsCancel(jobs[i]) && forall j | i < j < |jobs| :: NeedsCancel(jobs[j]) ==> jobs[j].id != jobs[i].id
  }

  lemma CancelJobsStep(o: Oracle, s: Service, jobs: seq<JobRow>, n: nat, queues: seq<string>)
    requires n < |jobs|
    ensures var before := CancelJobs(o, s, jobs[..n], queues);
            CancelJobs(o, s, jobs[..n + 1], queues) ==
            if !before.ok || !NeedsCancel(jobs[n]) then before else Cancel(o, before.after, jobs[n].id, queues, ATTEMPTS)
  {
    assert jobs[..n + 1][..n] == jobs[..n];
  }

  /** Going through more jobs only eases tasks, and leaves those of other ids as they are. */
  lemma {:induction false} JobsEase(o: Oracle, s: Service, jobs: seq<JobRow>, i: nat, n: nat, queues: seq<string>)
    requires i <= n <= |jobs|
    ensures Reached(o, s, jobs, n, queues).clock >= Reached(o, s, jobs, i, queues).clock
    ensures Eased(Reached(o, s, jobs, i, queues).tasks, Reached(o, s, jobs, n, queues).tasks)
    ensures CancelJobs(o, s, jobs[..n], queues).ok ==> CancelJobs(o, s, jobs[..i], queues).ok
    ensures forall k | k in Reached(o, s, jobs, i, queues).tasks && (forall j | i <= j < n :: NeedsCancel(jobs[j]) ==> jobs[j].id != k.1) ::
              k in Reached(o, s, jobs, n, queues).tasks &&
              Reached(o, s, jobs, n, queues).tasks[k] == Reached(o, s, jobs, i, queues).tasks[k]
  {
    hide Cancel, CancelJobs;
    if i < n {
      JobsEase(o, s, jobs, i, n - 1, queues);
      CancelJobsStep(o, s, jobs, n - 1, queues);
      CancelFollows(o, Reached(o, s, jobs, n - 1, queues), jobs[n - 1].id, queues, ATTEMPTS);
    }
  }

  lemma KnownAreDistinct()
    ensures Distinct(KNOWN_QUEUES)
  {
  }

  /** A failed job is the last one that is tried. */
  lemma {:induction false} StopsAtFailure(o: Oracle, s: Service, jobs: seq<JobRow>, n: nat, queues: seq<string>)
    requires n < |jobs|
    ensures !CancelJobs(o, s, jobs[..n + 1], queues).ok ==> CancelJobs(o, s, jobs, queues) == CancelJobs(o, s, jobs[..n + 1], queues)
    decreases |jobs| - n
  {
    hide CancelJobs, Cancel;
    if n + 1 < |jobs| {
      StopsAtFailure(o, s, jobs, n + 1, queues);
      CancelJobsStep(o, s, jobs, n + 1, queues);
    } else {
      assert jobs[..n + 1] == jobs;
    }
  }

  lemma NoJobs(o: Oracle, s: Service, jobs: seq<JobRow>, queues: seq<string>)
    ensures CancelJobs(o, s, jobs[..0], queues) == Ended(s, true) && Reached(o, s, jobs, 0, queues) == s
  {
  }

  lemma EasedKeeps(start: Tasks, tasks: Tasks, id: string, queues: seq<string>)
    requires Eased(start, tasks)
    ensures Single(start, id) ==> Single(tasks, id)
    ensures Known(start, id, queues) ==> Known(tasks, id, queues)
    ensures Present(tasks, id) ==> Present(start, id)
    ensures Stops(start, id) ==> Stops(tasks, id)
  {
    if k :| k in tasks && k.1 == id {
      assert k in start;
    }
  }

  /** Of the jobs gone through, exactly those that were overlooked still have their task. */
  ghost predicate OnlyOverlookedLeft(o: Oracle, s: Service, jobs: seq<JobRow>, queues: seq<string>, tasks: Tasks) {
    forall i | 0 <= i < |jobs| :: LastOf(jobs, i) && Single(s.tasks, jobs[i].id) ==>
      (Present(tasks, jobs[i].id) <==> Overlooks(o, Reached(o, s, jobs, i, queues), jobs[i].id, queues))
  }

  lemma LeftBehind(o: Oracle, s: Service, jobs: seq<JobRow>, i: nat, queues: seq<string>)
    requires Distinct(queues) && CancelJobs(o, s, jobs, queues).ok && i < |jobs| && LastOf(jobs, i) && Single(s.tasks, jobs[i].id)
    ensures Present(CancelJobs(o, s, jobs, queues).after.tasks, jobs[i].id) <==>
            Overlooks(o, Reached(o, s, jobs, i, queues), jobs[i].id, queues)
  {
    hide Cancel, CancelJobs, Overlooks;
    var id, at := jobs[i].id, Reached(o, s, jobs, i, queues);
    assert jobs[..|jobs|] == jobs;
    NoJobs(o, s, jobs, queues);
    JobsEase(o, s, jobs, 0, i, queues);
    EasedKeeps(s.tasks, at.tasks, id, queues);
    JobsEase(o, s, jobs, i + 1, |jobs|, queues);
    JobsEase(o, s, jobs, i, |jobs|, queues);
    CancelJobsStep(o, s, jobs, i, queues);
    WrongSuccessIff(o, at, id, queues);
    var next, end := Reached(o, s, jobs, i + 1, queues), CancelJobs(o, s, jobs, queues).after;
    EasedKeeps(next.tasks, end.tasks, id, queues);
    if k :| k in next.tasks && k.1 == id {
      assert k in end.tasks;
    }
  }

  /** Whatever fails, when all jobs were gone through exactly the overlooked ones still have their task. */
  lemma JobsLeftIff(o: Oracle, s: Service, jobs: seq<JobRow>, queues: seq<string>)
    requires Distinct(queues)
    ensures var e := CancelJobs(o, s, jobs, queues);
            Eased(s.tasks, e.after.tasks) && e.after.clock >= s.clock && (e.ok ==> OnlyOverlookedLeft(o, s, jobs, queues, e.after.tasks))
  {
    hide Cancel, CancelJobs, Overlooks, Single, Present;
    assert jobs[..|jobs|] == jobs;
    NoJobs(o, s, jobs, queues);
    JobsEase(o, s, jobs, 0, |jobs|, queues);
    if CancelJobs(o, s, jobs, queues).ok {
      forall i | 0 <= i < |jobs| && LastOf(jobs, i) && Single(s.tasks, jobs[i].id)
        ensures Present(CancelJobs(o, s, jobs, queues).after.tasks, jobs[i].id) <==>
                Overlooks(o, Reached(o, s, jobs, i, queues), jobs[i].id, queues)
      {
        LeftBehind(o, s, jobs, i, queues);
      }
    }
  }

  /** The task of every job to cancel sits in one of the queues; stops in time; is gone. */
  ghost predicate AllKnown(tasks: Tasks, jobs: seq<JobRow>, queues: seq<string>) {
    forall i | 0 <= i < |jobs| :: NeedsCancel(jobs[i]) ==> Known(tasks, jobs[i].id, queues)
  }

  ghost predicate AllStop(tasks: Tasks, jobs: seq<JobRow>) {
    forall i | 0 <= i < |jobs| :: NeedsCancel(jobs[i]) ==> Stops(tasks, jobs[i].id)
  }

  ghost predicate AllGone(tasks: Tasks, jobs: seq<JobRow>) {
    forall i | 0 <= i < |jobs| :: NeedsCancel(jobs[i]) ==> !Present(tasks, jobs[i].id)
  }

  /** With working reads, whatever else fails, the task of a job to cancel is gone when all jobs were gone through. */
  lemma JobWithWorkingReads(o: Oracle, s: Service, jobs: seq<JobRow>, i: nat, queues: seq<string>)
    requires i < |jobs| && NeedsCancel(jobs[i]) && Known(s.tasks, jobs[i].id, queues)
    requires Distinct(queues) && ReadsFine(o, s.clock) && CancelJobs(o, s, jobs, queues).ok
    ensures !Present(CancelJobs(o, s, jobs, queues).after.tasks, jobs[i].id)
  {
    hide Cancel, CancelJobs, Known, Present;
    assert jobs[..|jobs|] == jobs;
    NoJobs(o, s, jobs, queues);
    var id, at := jobs[i].id, Reached(o, s, jobs, i, queues);
    JobsEase(o, s, jobs, 0, i, queues);
    JobsEase(o, s, jobs, i, |jobs|, queues);
    JobsEase(o, s, jobs, i + 1, |jobs|, queues);
    EasedKeeps(s.tasks, at.tasks, id, queues);
    CancelJobsStep(o, s, jobs, i, queues);
    ReadsFineIsRight(o, at, id, queues);
    EasedKeeps(Reached(o, s, jobs, i + 1, queues).tasks, CancelJobs(o, s, jobs, queues).after.tasks, id, queues);
  }

  lemma JobsWithWorkingReads(o: Oracle, s: Service, jobs: seq<JobRow>, queues: seq<string>)
    requires Distinct(queues) && AllKnown(s.tasks, jobs, queues) && ReadsFine(o, s.clock) && CancelJobs(o, s, jobs, queues).ok
    ensures AllGone(CancelJobs(o, s, jobs, queues).after.tasks, jobs)
  {
    hide CancelJobs, Known, Present;
    forall i | 0 <= i < |jobs| && NeedsCancel(jobs[i])
      ensures !Present(CancelJobs(o, s, jobs, queues).after.tasks, jobs[i].id)
    {
      JobWithWorkingReads(o, s, jobs, i, queues);
    }
  }

  /** Without faults the first n jobs are gone through exactly when their tasks stop in time. */
  lemma {:induction false} QuietJobs(o: Oracle, s: Service, jobs: seq<JobRow>, n: nat, queues: seq<string>)
    requires n <= |jobs| && Distinct(queues) && AllKnown(s.tasks, jobs, queues) && TasksQuiet(o, s.clock)
    ensures CancelJobs(o, s, jobs[..n], queues).ok <==> forall i | 0 <= i < n :: NeedsCancel(jobs[i]) ==> Stops(s.tasks, jobs[i].id)
    ensures CancelJobs(o, s, jobs[..n], queues).ok ==>
              forall i | 0 <= i < n :: NeedsCancel(jobs[i]) ==> !Present(Reached(o, s, jobs, n, queues).tasks, jobs[i].id)
  {
    hide Cancel, CancelJobs, Known, Present, Stops;
    NoJobs(o, s, jobs, queues);
    if n > 0 {
      QuietJobs(o, s, jobs, n - 1, queues);
      CancelJobsStep(o, s, jobs, n - 1, queues);
      var id, at, next := jobs[n - 1].id, Reached(o, s, jobs, n - 1, queues), Reached(o, s, jobs, n, queues);
      JobsEase(o, s, jobs, 0, n - 1, queues);
      JobsEase(o, s, jobs, n - 1, n, queues);
      EasedKeeps(s.tasks, at.tasks, id, queues);
      forall i | 0 <= i < n
        ensures Present(next.tasks, jobs[i].id) ==> Present(at.tasks, jobs[i].id)
      {
        EasedKeeps(at.tasks, next.tasks, jobs[i].id, queues);
      }
      if NeedsCancel(jobs[n - 1]) && CancelJobs(o, s, jobs[..n - 1], queues).ok {
        QuietCancel(o, at, id, queues);
        if !Named(jobs, n - 1, id) {
          SameStops(s.tasks, at.tasks, id);
        }
      }
    }
  }

  lemma SameStops(start: Tasks, tasks: Tasks, id: string)
    requires forall k | k in start && k.1 == id :: k in tasks && tasks[k] == start[k]
    ensures Stops(tasks, id) ==> Stops(start, id)
  {
  }

  lemma {:induction false} OutageJobs(o: Oracle, s: Service, jobs: seq<JobRow>, n: nat, queues: seq<string>)
    requires n <= |jobs| && Outage(o, s.clock)
    ensures CancelJobs(o, s, jobs[..n], queues).ok && Reached(o, s, jobs, n, queues).tasks.Keys == s.tasks.Keys
  {
    hide Cancel, CancelJobs;
    NoJobs(o, s, jobs, queues);
    if n > 0 {
      OutageJobs(o, s, jobs, n - 1, queues);
      CancelJobsStep(o, s, jobs, n - 1, queues);
      JobsEase(o, s, jobs, 0, n - 1, queues);
      OutageCancel(o, Reached(o, s, jobs, n - 1, queues), jobs[n - 1].id, queues);
    }
  }

  // ---- The queues ----

  lemma {:induction false} WithNamesMeans(names: seq<string>)
    ensures Distinct(WithNames(names)) && KNOWN_QUEUES <= WithNames(names)
    ensures forall queue :: queue in WithNames(names) <==> queue in KNOWN_QUEUES || (queue in names && queue != "")
  {
    if names != [] {
      WithNamesMeans(names[..|names| - 1]);
      assert names == names[..|names| - 1] + [names[|names| - 1]];
    }
  }

  lemma QueueNamesMeans(o: Oracle, clock: nat, names: seq<string>)
    ensures var queues := QueueNames(o, clock, names);
            Distinct(queues) && ["critical", "default", "video:large"] <= queues && (forall queue <- KNOWN_QUEUES :: queue in queues) &&
            (o.calls(clock) == Fine ==> forall queue <- names :: queue != "" ==> queue in queues)
  {
    hide WithNames;
    WithNamesMeans(names);
  }

  lemma KnownInMore(tasks: Tasks, jobs: seq<JobRow>, some: seq<string>, queues: seq<string>)
    requires AllKnown(tasks, jobs, some) && forall q <- some :: q in queues
    ensures AllKnown(tasks, jobs, queues)
  {
  }

  // ---- The stage ----

  /** Where the jobs are gone through, after the two listings. */
  function Listed(s: Service): Service {
    Service(s.clock + 2, s.tasks)
  }

  /** What the end of cancelTasks says of the tasks: under any faults success leaves exactly the overlooked ones, and none
      that could be found when reads work; without faults it is success exactly when all tasks stop in time; while the
      task service alone is down it is always success, and no task is gone. */
  lemma StageMeans(o: Oracle, s: Service, hasInspector: bool, names: seq<string>, jobs: seq<JobRow>)
    ensures var e, queues := CancelStage(o, s, hasInspector, names, jobs), QueueNames(o, s.clock + 1, names);
            Eased(s.tasks, e.after.tasks) && e.after.clock > s.clock &&
            (e.ok && hasInspector ==> OnlyOverlookedLeft(o, Listed(s), jobs, queues, e.after.tasks)) &&
            (e.ok && hasInspector && ReadsFine(o, s.clock) && AllKnown(s.tasks, jobs, KNOWN_QUEUES) ==> AllGone(e.after.tasks, jobs)) &&
            (o.stores(s.clock) == Fine && TasksQuiet(o, s.clock) && hasInspector && "" !in names && AllKnown(s.tasks, jobs, names) ==>
               (e.ok <==> AllStop(s.tasks, jobs)) && (e.ok ==> AllGone(e.after.tasks, jobs))) &&
            (o.stores(s.clock) == Fine && (!hasInspector || Outage(o, s.clock)) ==> e.ok && e.after.tasks.Keys == s.tasks.Keys)
  {
    hide CancelJobs, Known, Present, Stops, OnlyOverlookedLeft, AllKnown, AllGone;
    var queues := QueueNames(o, s.clock + 1, names);
    FollowsItself(s, "");
    QueueNamesMeans(o, s.clock + 1, names);
    JobsLeftIff(o, Listed(s), jobs, queues);
    assert jobs[..|jobs|] == jobs;
    if AllKnown(s.tasks, jobs, KNOWN_QUEUES) && ReadsFine(o, s.clock) && CancelJobs(o, Listed(s), jobs, queues).ok {
      KnownInMore(s.tasks, jobs, KNOWN_QUEUES, queues);
      JobsWithWorkingReads(o, Listed(s), jobs, queues);
    }
    if TasksQuiet(o, s.clock) && "" !in names && AllKnown(s.tasks, jobs, names) {
      KnownInMore(s.tasks, jobs, names, queues);
      QuietJobs(o, Listed(s), jobs, |jobs|, queues);
      QuietMeans(CancelJobs(o, Listed(s), jobs, queues).after.tasks, jobs);
    }
    if Outage(o, s.clock) {
      OutageJobs(o, Listed(s), jobs, |jobs|, queues);
    }
  }

  lemma QuietMeans(tasks: Tasks, jobs: seq<JobRow>)
    ensures (forall i | 0 <= i < |jobs| :: NeedsCancel(jobs[i]) ==> !Present(tasks, jobs[i].id)) <==> AllGone(tasks, jobs)
  {
  }

  lemma EasedItself(tasks: Tasks)
    ensures Eased(tasks, tasks)
  {
  }

  lemma EasedTwice(start: Tasks, before: Tasks, tasks: Tasks)
    requires Eased(start, before) && Eased(before, tasks)
    ensures Eased(start, tasks)
  {
  }

  /** What can be cancelled in time can still be cancelled in time after an interrupted cancellation, and what is gone
      stays gone. */
  lemma EasingKeepsJobs(start: Tasks, tasks: Tasks, jobs: seq<JobRow>, queues: seq<string>)
    requires Eased(start, tasks)
    ensures AllKnown(start, jobs, queues) ==> AllKnown(tasks, jobs, queues)
    ensures AllStop(start, jobs) ==> AllStop(tasks, jobs)
    ensures AllGone(start, jobs) ==> AllGone(tasks, jobs)
  {
    hide Known, Stops, Present;
    forall i | 0 <= i < |jobs|
      ensures Known(start, jobs[i].id, queues) ==> Known(tasks, jobs[i].id, queues)
      ensures Stops(start, jobs[i].id) ==> Stops(tasks, jobs[i].id)
      ensures Present(tasks, jobs[i].id) ==> Present(start, jobs[i].id)
    {
      EasedKeeps(start, tasks, jobs[i].id, queues);
    }
  }

  /** A job that has ended; only its task is left alone. */
  predicate HasEnded(job: JobRow) {
    job.status == "completed" || job.status == "canceled"
  }

  /** The stage by the statuses of the jobs: with working reads success leaves no task of a job that has not ended, if it
      sits in one of the three queues that the program uses; and whatever fails, tasks without such a job are untouched. */
  lemma StageByStatus(o: Oracle, s: Service, hasInspector: bool, names: seq<string>, jobs: seq<JobRow>)
    ensures var e := CancelStage(o, s, hasInspector, names, jobs);
            (e.ok && hasInspector && ReadsFine(o, s.clock) ==>
               forall job <- jobs :: !HasEnded(job) && Known(s.tasks, job.id, ["critical", "default", "video:large"]) ==>
                 !Present(e.after.tasks, job.id)) &&
            (forall k | k in s.tasks && (forall job <- jobs :: job.id == k.1 ==> HasEnded(job)) ::
               k in e.after.tasks && e.after.tasks[k] == s.tasks[k])
  {
    hide CancelJobs, Known, Present;
    var queues := QueueNames(o, s.clock + 1, names);
    QueueNamesMeans(o, s.clock + 1, names);
    assert jobs[..|jobs|] == jobs;
    NoJobs(o, Listed(s), jobs, queues);
    JobsEase(o, Listed(s), jobs, 0, |jobs|, queues);
    if CancelJobs(o, Listed(s), jobs, queues).ok && ReadsFine(o, s.clock) {
      forall i | 0 <= i < |jobs| && !HasEnded(jobs[i]) && Known(s.tasks, jobs[i].id, ["critical", "default", "video:large"])
        ensures !Present(CancelJobs(o, Listed(s), jobs, queues).after.tasks, jobs[i].id)
      {
        KnownMore(s.tasks, jobs[i].id, ["critical", "default", "video:large"], queues);
        JobWithWorkingReads(o, Listed(s), jobs, i, queues);
      }
    }
    forall k | k in s.tasks && (forall job <- jobs :: job.id == k.1 ==> HasEnded(job))
      ensures forall j | 0 <= j < |jobs| :: NeedsCancel(jobs[j]) ==> jobs[j].id != k.1
    {
    }
  }

  lemma KnownMore(tasks: Tasks, id: string, some: seq<string>, queues: seq<string>)
    requires Known(tasks, id, some) && some <= queues
    ensures Known(tasks, id, queues)
  {
  }
}
