/** The thread pool as a state machine: every step is a stretch of code run under the mutex, and
    waiting on a condition ends a step. */
module PoolMachine {
  import opened PoolQueues

  // how many job cells are kept for reuse; the list stays one below it
  const JOBFREELISTSIZE := 100

  /** Where a worker thread is. */
  datatype Worker =
    | Starting                               // created, not yet counted
    | AtTop(done: Slot, persistent: bool)    // about to lock the mutex at the top of its loop
    | Waiting                                // waiting for a job
    | Running(job: Job, persistent: bool)    // running a job, without the mutex
    | Gone

  /** Where a call of the pool's interface is. */
  datatype Call =
    | Initializing(started: int, target: int)               // in CreateWorker, from ThreadPoolInit
    | Adding(jobs: int, threads: nat, target: int)          // in CreateWorker, from ThreadPoolAdd
    | AddingPersistent(priority: Priority, target: int)     // in CreateWorker, from ThreadPoolAddPersistent
    | Submitted                                             // waiting until a worker takes the job
    | ShuttingDown                                          // waiting until all workers have gone
    | Returned(id: int)
    | Refused

  /** The call is inside CreateWorker. */
  predicate InCreate(call: Call) {
    call.Initializing? || call.Adding? || call.AddingPersistent?
  }

  datatype World = World(
    attr: Attr, now: int, q: Queues, slot: Slot, lastJobId: int, shutdown: bool, destroyed: bool, initialized: bool,
    totalThreads: int, persistentThreads: int, free: seq<nat>, workers: seq<Worker>, calls: seq<Call>,
    // history: how many jobs were accepted, the ids they got, and what became of them
    accepted: nat, ids: seq<int>,
    runs: multiset<nat>, finished: multiset<nat>, removed: multiset<nat>, discarded: multiset<nat>)

  datatype Action =
    | Tick(to: int)
    | Init(created: bool)
    | Register(worker: nat)
    | Top(worker: nat)
    | Wake(worker: nat, timedOut: bool)
    | Finish(worker: nat)
    | Add(priority: Priority, cell: nat, created: bool)
    | AddPersistent(priority: Priority, cell: nat, created: bool)
    | Resume(call: nat, cell: nat, created: bool)
    | Remove(id: int)
    | Shutdown

  /* ---- cells ---- */

  function FreeCell(free: seq<nat>, cell: nat): seq<nat> {
    if |free| + 1 < JOBFREELISTSIZE then [cell] + free else free
  }

  function Rested(free: seq<nat>): seq<nat> {
    if free != [] then free[1..] else free
  }

  function FreeAll(free: seq<nat>, jobs: seq<Job>): seq<nat>
    decreases |jobs|
  {
    if jobs == [] then free else FreeAll(FreeCell(free, jobs[0].cell), jobs[1..])
  }

  /** The jobs in the hands of workers. */
  function Hands(key: Job -> nat, ws: seq<Worker>): multiset<nat> {
    if ws == [] then multiset{}
    else (if ws[0].Running? then multiset{key(ws[0].job)} else multiset{}) + Hands(key, ws[1..])
  }

  /** The cells of jobs that are done and not yet given back. */
  function Done(ws: seq<Worker>): multiset<nat> {
    if ws == [] then multiset{}
    else (if ws[0].AtTop? then SlotBag(CELL, ws[0].done) else multiset{}) + Done(ws[1..])
  }

  /** All cells in use, with multiplicity. */
  function Cells(w: World): multiset<nat> {
    QueueBag(CELL, w.q) + SlotBag(CELL, w.slot) + Hands(CELL, w.workers) + Done(w.workers) + multiset(w.free)
  }

  /** A recycled cell if there is one, otherwise one not in use. */
  predicate CanAllocate(w: World, cell: nat) {
    if w.free != [] then cell == w.free[0] else cell !in Cells(w)
  }

  /* ---- creating workers ---- */

  predicate CanCreate(w: World) {
    w.attr.maxThreads == INFINITE_THREADS || w.totalThreads + 1 <= w.attr.maxThreads
  }

  function Spawned(w: World): World {
    w.(workers := w.workers + [Starting])
  }

  function Answered(w: World, c: nat, call: Call): World
    requires c < |w.calls|
  {
    w.(calls := w.calls[c := call])
  }

  function InitLoop(w: World, c: nat, started: int, created: bool): World
    requires c < |w.calls|
  {
    if started < w.attr.minThreads then
      if CanCreate(w) && created then
        Answered(Spawned(w), c, Initializing(started, w.totalThreads + 1))
      else Answered(w, c, Refused)
    else Answered(w, c, Returned(0)).(initialized := true)
  }

  /** The loop that adds workers while there are too many jobs for each. */
  function AddLoop(w: World, c: nat, jobs: int, threads: nat, created: bool): World
    requires c < |w.calls|
  {
    if (threads == 0 || jobs / threads > w.attr.jobsPerThread) && CanCreate(w) && created then
      Answered(Spawned(w), c, Adding(jobs, threads, w.totalThreads + 1))
    else Answered(w, c, Returned(w.lastJobId)).(lastJobId := w.lastJobId + 1)
  }

  /* ---- adding and removing jobs ---- */

  function NewJob(w: World, priority: Priority, cell: nat): Job {
    Job(w.accepted, cell, w.lastJobId, priority, w.now, w.now)
  }

  /** Threads not running persistent jobs; never negative, as the accounting below shows. */
  function Regular(w: World): nat {
    if w.totalThreads >= w.persistentThreads then w.totalThreads - w.persistentThreads else 0
  }

  function JobQueued(w: World, priority: Priority, cell: nat): World {
    w.(q := Enqueued(w.q, NewJob(w, priority, cell)), free := Rested(w.free), accepted := w.accepted + 1,
        ids := w.ids + [w.lastJobId])
  }

  function JobAdded(w: World, priority: Priority, cell: nat, created: bool): World {
    var w1 := JobQueued(w, priority, cell).(calls := w.calls + [Refused]);
    AddLoop(w1, |w.calls|, |w1.q.high| + |w1.q.low| + |w1.q.med|, Regular(w1), created)
  }

  function PersistentPlaced(w: World, c: nat, priority: Priority, cell: nat): World
    requires c < |w.calls|
  {
    Answered(w, c, Submitted)
      .(slot := OneJob(NewJob(w, priority, cell)), free := Rested(w.free), accepted := w.accepted + 1,
        ids := w.ids + [w.lastJobId])
  }

  function PersistentAdded(w: World, priority: Priority, cell: nat, created: bool): World {
    var w1 := w.(calls := w.calls + [Refused]);
    var c := |w.calls|;
    if w.totalThreads < w.attr.maxThreads then
      if CanCreate(w) && created then
        Answered(Spawned(w1), c, AddingPersistent(priority, w.totalThreads + 1))
      else PersistentPlaced(w1, c, priority, cell)
    else if w.totalThreads - w.persistentThreads - 1 == 0 then w1
    else PersistentPlaced(w1, c, priority, cell)
  }

  function Resumed(w: World, c: nat, cell: nat, created: bool): World
    requires c < |w.calls|
  {
    match w.calls[c]
    case Initializing(started, target) =>
      if w.totalThreads < target then w else InitLoop(w, c, started + 1, created)
    case Adding(jobs, threads, target) =>
      if w.totalThreads < target then w else AddLoop(w, c, jobs, threads + 1, created)
    case AddingPersistent(priority, target) =>
      if w.totalThreads < target then w else PersistentPlaced(w, c, priority, cell)
    case Submitted =>
      if w.slot.OneJob? then w
      else Answered(w, c, Returned(w.lastJobId)).(lastJobId := w.lastJobId + 1)
    case ShuttingDown =>
      if w.totalThreads > 0 then w else Answered(w, c, Returned(0)).(destroyed := true, free := [])
    case _ => w
  }

  function JobRemoved(w: World, id: int): World {
    var r := Removed(w.q, w.slot, id);
    if r.NotFound? then w
    else w.(q := r.q, slot := r.slot, free := FreeCell(w.free, r.job.cell),
        removed := w.removed + multiset{r.job.ticket})
  }

  function SlotJobs(slot: Slot): seq<Job> {
    if slot.OneJob? then [slot.job] else []
  }

  function ShutDown(w: World): World {
    var jobs := w.q.high + w.q.med + w.q.low + SlotJobs(w.slot);
    w.(q := Queues([], [], []), slot := NoJob, free := FreeAll(w.free, jobs), shutdown := true,
       discarded := w.discarded + Bag(TICKET, jobs), calls := w.calls + [ShuttingDown])
  }

  /* ---- workers ---- */

  predicate Idle(w: World) {
    !NonEmpty(w.q) && w.slot.NoJob? && !w.shutdown
  }

  function Left(w: World, i: nat): World
    requires i < |w.workers|
  {
    w.(workers := w.workers[i := Gone], totalThreads := w.totalThreads - 1)
  }

  function Picked(w: World, i: nat, job: Job, persistent: bool): World
    requires i < |w.workers|
  {
    w.(workers := w.workers[i := Running(job, persistent)], runs := w.runs + multiset{job.ticket})
  }

  /** Starved jobs move up, then the worker takes the persistent job or the first one queued. */
  function Proceed(w: World, i: nat): World
    requires i < |w.workers|
  {
    var w1 := w.(q := Bumped(w.q, w.attr, w.now));
    if w.shutdown then Left(w1, i)
    else if w.slot.OneJob? then
      Picked(w1, i, w.slot.job, true).(slot := NoJob, persistentThreads := w.persistentThreads + 1)
    else if NonEmpty(w1.q) then Picked(w1, i, First(w1.q), false).(q := Rest(w1.q))
    else Left(w1, i)
  }

  function Loop(w: World, i: nat, timedOut: bool): World
    requires i < |w.workers|
  {
    if Idle(w) then
      if (timedOut && w.totalThreads > w.attr.minThreads)
         || (w.attr.maxThreads != INFINITE_THREADS && w.totalThreads > w.attr.maxThreads)
      then Left(w, i)
      else w.(workers := w.workers[i := Waiting])
    else Proceed(w, i)
  }

  /** At the top of its loop a worker gives back the cell of the job it has done. */
  function Returning(w: World, i: nat): World
    requires i < |w.workers| && w.workers[i].AtTop?
  {
    var t := w.workers[i];
    w.(workers := w.workers[i := Waiting],
       free := if t.done.OneJob? then FreeCell(w.free, t.done.job.cell) else w.free,
       persistentThreads := if t.persistent then w.persistentThreads - 1 else w.persistentThreads)
  }

  function Finished(w: World, i: nat): World
    requires i < |w.workers| && w.workers[i].Running?
  {
    var r := w.workers[i];
    w.(workers := w.workers[i := AtTop(OneJob(r.job), r.persistent)], finished := w.finished + multiset{r.job.ticket})
  }

  function Registered(w: World, i: nat): World
    requires i < |w.workers|
  {
    w.(workers := w.workers[i := AtTop(NoJob, false)], totalThreads := w.totalThreads + 1)
  }

  /* ---- steps ---- */

  predicate WorkerIs(w: World, i: nat) {
    !w.destroyed && i < |w.workers|
  }

  /** The pool may be called: it has been initialised, and its mutex is not yet destroyed.  Jobs may
      still be added while shutdown waits for the workers to go. */
  predicate Open(w: World) {
    w.initialized && !w.destroyed
  }

  predicate Enabled(w: World, a: Action) {
    match a
    case Tick(to) => to >= w.now
    case Init(_) => w.calls == []
    case Register(i) => WorkerIs(w, i) && w.workers[i].Starting?
    case Top(i) => WorkerIs(w, i) && w.workers[i].AtTop?
    case Wake(i, _) => WorkerIs(w, i) && w.workers[i].Waiting?
    case Finish(i) => WorkerIs(w, i) && w.workers[i].Running?
    case Add(_, cell, _) => Open(w) && CanAllocate(w, cell)
    case AddPersistent(_, cell, _) => Open(w) && CanAllocate(w, cell) && w.slot.NoJob?
    case Resume(c, cell, _) =>
      && c < |w.calls| && !w.destroyed
      && (w.calls[c].AddingPersistent? ==> CanAllocate(w, cell) && w.slot.NoJob?)
    case Remove(_) => Open(w)
    case Shutdown => !w.shutdown && w.calls != [] && !w.calls[0].Initializing?
  }

  function Next(w: World, a: Action): World
    requires Enabled(w, a)
  {
    match a
    case Tick(to) => w.(now := to)
    case Init(created) => InitLoop(w.(calls := [Refused]), 0, 0, created)
    case Register(i) => Registered(w, i)
    case Top(i) => Loop(Returning(w, i), i, false)
    case Wake(i, timedOut) => Loop(w, i, timedOut)
    case Finish(i) => Finished(w, i)
    case Add(priority, cell, created) => JobAdded(w, priority, cell, created)
    case AddPersistent(priority, cell, created) => PersistentAdded(w, priority, cell, created)
    case Resume(c, cell, created) => Resumed(w, c, cell, created)
    case Remove(id) => JobRemoved(w, id)
    case Shutdown => ShutDown(w)
  }

  function Start(attr: Attr, now: int): World {
    World(attr, now, Queues([], [], []), NoJob, 0, false, false, false, 0, 0, [], [], [],
          0, [], multiset{}, multiset{}, multiset{}, multiset{})
  }

  /** ws are the states of a run from an initial state. */
  ghost predicate IsRun(ws: seq<World>, as_: seq<Action>) {
    && |ws| == |as_| + 1
    && ws[0] == Start(ws[0].attr, ws[0].now)
    && forall i :: 0 <= i < |as_| ==> StepOk(ws, as_, i)
  }

  ghost predicate StepOk(ws: seq<World>, as_: seq<Action>, i: nat)
    requires i < |as_| && |ws| == |as_| + 1
  {
    Enabled(ws[i], as_[i]) && ws[i + 1] == Next(ws[i], as_[i])
  }
}
