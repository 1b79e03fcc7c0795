/** Priorities over every run: in which queue a job waits, and which one is taken. */
module PoolPriorities {
  import opened PoolQueues
  import opened PoolMachine
  import opened PoolHeld
  import opened PoolTimes
  import opened PoolWorkers
  import opened PoolIds

  /* ---- a job stays what was asked for ---- */

  ghost function IsJob(ticket: nat, cell: nat, id: int, priority: Priority, at: int): Job -> bool {
    (j: Job) => j.ticket == ticket ==> j.cell == cell && j.jobId == id && j.priority == priority && j.requestTime == at
  }

  /** A job that is about to be accepted is not there yet. */
  lemma NewTicket(w: World, p: Job -> bool)
    requires JobsHave(w) && forall j: Job {:trigger p(j)} :: j.ticket < w.accepted ==> p(j)
    ensures AllHeld(p, w)
  {
    var q := HasIdIn(w.ids);
    assert forall j {:trigger p(j)} :: q(j) ==> p(j);
    hide HasIdIn;
  }

  lemma {:induction false} RunJobs(ws: seq<World>, as_: seq<Action>, i: nat, n: nat)
    requires IsRun(ws, as_) && i < n < |ws| && StepOk(ws, as_, i) && Accepts(ws[i], as_[i])
    ensures AllHeld(IsJob(ws[i].accepted, CellOf(as_[i]), ws[i].lastJobId, Asked(ws[i], as_[i]), ws[i].now), ws[n])
    ensures ws[n].accepted > ws[i].accepted
  {
    hide Next, Enabled, JobsHave, AllHeld, Asked, IdMoves;
    var p := IsJob(ws[i].accepted, CellOf(as_[i]), ws[i].lastJobId, Asked(ws[i], as_[i]), ws[i].now);
    assert StepOk(ws, as_, n - 1);
    if n == i + 1 {
      RunHave(ws, as_, i);
      NewTicket(ws[i], p);
    } else {
      RunJobs(ws, as_, i, n - 1);
    }
    var c := StepIds(ws[n - 1], as_[n - 1]);
    AcceptedGrows(ws[n - 1], as_[n - 1]);
    StepAll(p, ws[n - 1], as_[n - 1]);
  }

  lemma AcceptedGrows(w: World, a: Action)
    requires Enabled(w, a)
    ensures Next(w, a).accepted >= w.accepted
  {
    hide Next, Enabled;
    var c := StepIds(w, a);
  }

  /** A job the pool has. */
  ghost predicate Has(w: World, j: Job) {
    || j in w.q.high || j in w.q.med || j in w.q.low || w.slot == OneJob(j)
    || exists i :: 0 <= i < |w.workers| && w.workers[i].Running? && w.workers[i].job == j
  }

  /** A job keeps the priority it was asked for, its cell, its id and the time of the request, wherever it
      is until it has been run. */
  lemma JobAsAsked(ws: seq<World>, as_: seq<Action>, i: nat, n: nat, j: Job)
    requires IsRun(ws, as_) && i < n < |ws| && StepOk(ws, as_, i) && Accepts(ws[i], as_[i])
    requires Has(ws[n], j) && j.ticket == ws[i].accepted
    ensures j.priority == Asked(ws[i], as_[i]) && j.requestTime == ws[i].now && j.jobId == ws[i].lastJobId
    ensures j.cell == CellOf(as_[i])
  {
    hide Next, Enabled, Asked, Accepts;
    RunJobs(ws, as_, i, n);
    var p := IsJob(ws[i].accepted, CellOf(as_[i]), ws[i].lastJobId, Asked(ws[i], as_[i]), ws[i].now);
    assert p(j);
  }

  /* ---- which queue ---- */

  /** Jobs wait in the queue of their priority, or in a higher one after waiting for so long. */
  ghost predicate Placed(q: Queues, attr: Attr) {
    && (forall j :: j in q.low ==> j.priority == Low)
    && (forall j :: j in q.med ==>
          j.priority == Med || (j.priority == Low && j.entered - j.requestTime >= attr.maxIdleTime))
    && (forall j :: j in q.high ==> j.priority == High || j.entered - j.requestTime >= attr.starvationTime)
  }

  lemma MedBumpedPlaced(q: Queues, attr: Attr, now: int)
    requires Placed(q, attr) && MedStarves(q, attr, now)
    ensures Placed(MedBumped(q, now), attr)
  {
  }

  lemma LowBumpedPlaced(q: Queues, attr: Attr, now: int)
    requires Placed(q, attr) && LowStarves(q, attr, now)
    ensures Placed(LowBumped(q, now), attr)
  {
  }

  lemma {:induction false} BumpedPlaced(q: Queues, attr: Attr, now: int)
    requires Placed(q, attr)
    ensures Placed(Bumped(q, attr, now), attr)
    decreases 2 * |q.low| + |q.med|
  {
    hide Placed;
    if MedStarves(q, attr, now) {
      MedBumpedPlaced(q, attr, now);
      BumpedPlaced(MedBumped(q, now), attr, now);
    } else if LowStarves(q, attr, now) {
      LowBumpedPlaced(q, attr, now);
      BumpedPlaced(LowBumped(q, now), attr, now);
    }
  }

  lemma LoopPlaced(w: World, i: nat, timedOut: bool)
    requires Placed(w.q, w.attr) && i < |w.workers|
    ensures Placed(Loop(w, i, timedOut).q, w.attr)
  {
    hide Bumped;
    BumpedPlaced(w.q, w.attr, w.now);
  }

  lemma RemovedPlaced(q: Queues, slot: Slot, id: int, attr: Attr)
    requires Placed(q, attr)
    ensures var r := Removed(q, slot, id); r.Found? ==> Placed(r.q, attr)
  {
    hide Find;
  }

  lemma AddedPlaced(w: World, priority: Priority, cell: nat, created: bool)
    requires Placed(w.q, w.attr)
    ensures Placed(JobAdded(w, priority, cell, created).q, w.attr)
  {
    hide Rested, Regular;
    assert JobAdded(w, priority, cell, created).q == Enqueued(w.q, NewJob(w, priority, cell));
  }

  lemma StepPlaced(w: World, a: Action)
    requires Placed(w.q, w.attr) && Enabled(w, a)
    ensures Placed(Next(w, a).q, w.attr)
  {
    hide Placed, Loop, JobAdded, Removed, CanAllocate;
    match a
    case Top(i) => LoopPlaced(Returning(w, i), i, false);
    case Wake(i, timedOut) => LoopPlaced(w, i, timedOut);
    case Add(priority, cell, created) => AddedPlaced(w, priority, cell, created);
    case Remove(id) => RemovedPlaced(w.q, w.slot, id, w.attr);
    case Shutdown => NonePlaced(w.attr);
    case Tick(to) =>
    case _ => OtherQueues(w, a);
  }

  lemma NonePlaced(attr: Attr)
    ensures Placed(Queues([], [], []), attr)
  {
  }

  /** In every state of every run a job of the low queue has low priority, one of the medium queue has medium
      or has low priority and had waited the idle time when it came there, and one of the high queue has high
      priority or had waited the starvation time. */
  lemma {:induction false} WhereJobsWait(ws: seq<World>, as_: seq<Action>, n: nat)
    requires IsRun(ws, as_) && n < |ws|
    ensures Placed(ws[n].q, ws[n].attr) && ws[n].attr == ws[0].attr
  {
    hide Next, Enabled, Placed;
    if n == 0 {
      NonePlaced(ws[0].attr);
    } else {
      WhereJobsWait(ws, as_, n - 1);
      assert StepOk(ws, as_, n - 1);
      StepPlaced(ws[n - 1], as_[n - 1]);
      StepAttr(ws[n - 1], as_[n - 1]);
    }
  }

  /** So a job of high priority that waits in a queue waits in the high one. */
  lemma HighInHigh(ws: seq<World>, as_: seq<Action>, n: nat, j: Job)
    requires IsRun(ws, as_) && n < |ws| && j.priority == High
    ensures j !in ws[n].q.med && j !in ws[n].q.low
  {
    hide IsRun;
    WhereJobsWait(ws, as_, n);
  }

  /* ---- which job is taken ---- */

  /** The worker takes the first job of the highest queue that has one, after starved jobs have moved up. */
  ghost predicate TakesHighest(b: Queues, v: World, i: nat) {
    && i < |v.workers| && v.workers[i].Running? && !v.workers[i].persistent
    && var j := v.workers[i].job;
       || (b.high != [] && j == b.high[0] && v.q == b.(high := b.high[1..]))
       || (b.high == [] && b.med != [] && j == b.med[0] && v.q == b.(med := b.med[1..]))
       || (b.high == b.med == [] && b.low != [] && j == b.low[0] && v.q == b.(low := b.low[1..]))
  }

  lemma LoopTakes(w: World, i: nat, timedOut: bool)
    requires i < |w.workers| && !Idle(w) && !w.shutdown && w.slot.NoJob?
    ensures TakesHighest(Bumped(w.q, w.attr, w.now), Loop(w, i, timedOut), i)
  {
    hide Bumped;
    BumpedNonEmpty(w.q, w.attr, w.now);
  }

  lemma StepTakes(w: World, a: Action)
    requires Enabled(w, a) && TakesQueued(w, a)
    ensures (a.Top? || a.Wake?) && TakesHighest(Bumped(w.q, w.attr, w.now), Next(w, a), a.worker)
  {
    hide Loop, Idle, Bumped, TakesHighest;
    match a
    case Top(i) => LoopTakes(Returning(w, i), i, false);
    case Wake(i, timedOut) => LoopTakes(w, i, timedOut);
  }

  /** Over every run, of a job taken from the queues and those that go on waiting: no job of high priority is
      passed over but for one that had waited the starvation time, and a job of low priority is taken while
      others wait only if it had waited as long as that or the idle time. */
  lemma TakenByPriority(ws: seq<World>, as_: seq<Action>, n: nat, k: Job)
    requires IsRun(ws, as_) && n < |as_| && Enabled(ws[n], as_[n]) && TakesQueued(ws[n], as_[n])
    requires k in ws[n + 1].q.high || k in ws[n + 1].q.med || k in ws[n + 1].q.low
    ensures as_[n].Top? || as_[n].Wake?
    ensures TakesHighest(Bumped(ws[n].q, ws[n].attr, ws[n].now), ws[n + 1], as_[n].worker)
    ensures var j := ws[n + 1].workers[as_[n].worker].job;
            var waited := j.entered - j.requestTime;
            && (k.priority == High ==> j.priority == High || waited >= ws[0].attr.starvationTime)
            && (k.priority == Med ==>
                  j.priority != Low || waited >= ws[0].attr.starvationTime || waited >= ws[0].attr.maxIdleTime)
  {
    hide Next, Enabled, Bumped, TakesQueued;
    WhereJobsWait(ws, as_, n);
    assert StepOk(ws, as_, n);
    StepTakes(ws[n], as_[n]);
    BumpedPlaced(ws[n].q, ws[n].attr, ws[n].now);
    hide IsRun;
  }

  /* ---- workers and calls ---- */

  /** There is no regular worker, or there are more jobs for each than there are to be; and the limit and the
      system allow another one. */
  predicate NeedsWorker(attr: Attr, jobs: nat, total: int, regular: nat, created: bool) {
    && (regular == 0 || jobs / regular > attr.jobsPerThread)
    && (attr.maxThreads == -1 || total < attr.maxThreads) && created
  }

  function Queued(w: World): nat {
    |w.q.high| + |w.q.med| + |w.q.low|
  }

  /** Adding a job starts a worker exactly when one is needed, and then waits for it. */
  lemma AddStartsExactly(w: World, priority: Priority, cell: nat, created: bool)
    requires w.persistentThreads <= w.totalThreads
    ensures var v, c := JobAdded(w, priority, cell, created), |w.calls|;
            && |v.calls| == c + 1 && v.calls[..c] == w.calls
            && if NeedsWorker(w.attr, Queued(w) + 1, w.totalThreads, w.totalThreads - w.persistentThreads, created)
               then v.workers == w.workers + [Starting] && v.calls[c].Adding? && v.lastJobId == w.lastJobId
               else v.workers == w.workers && v.calls[c] == Returned(w.lastJobId) && v.lastJobId == w.lastJobId + 1
  {
    hide AddLoop, JobQueued, Regular, Queued, NeedsWorker;
    var w0, c := JobQueued(w, priority, cell), |w.calls|;
    var w1 := w0.(calls := w.calls + [Refused]);
    MoreQueued(w, priority, cell);
    Counted(w1);
    RegularIs(w0, w1);
    LoopShows(w1, c, Queued(w1), Regular(w1), created);
  }

  lemma Counted(w: World)
    ensures |w.q.high| + |w.q.low| + |w.q.med| == Queued(w)
  {
  }

  lemma RegularIs(w: World, v: World)
    requires v == w.(calls := v.calls)
    ensures Regular(v) == Regular(w) && Queued(v) == Queued(w)
  {
  }

  lemma LoopShows(w: World, c: nat, jobs: nat, threads: nat, created: bool)
    requires c + 1 == |w.calls|
    ensures var v := AddLoop(w, c, jobs, threads, created);
            && |v.calls| == c + 1 && v.calls[..c] == w.calls[..c]
            && if NeedsWorker(w.attr, jobs, w.totalThreads, threads, created)
               then v.workers == w.workers + [Starting] && v.calls[c].Adding? && v.lastJobId == w.lastJobId
               else v.workers == w.workers && v.calls[c] == Returned(w.lastJobId) && v.lastJobId == w.lastJobId + 1
  {
  }

  lemma MoreQueued(w: World, priority: Priority, cell: nat)
    requires w.persistentThreads <= w.totalThreads
    ensures var v := JobQueued(w, priority, cell);
            && Queued(v) == Queued(w) + 1 && Regular(v) == w.totalThreads - w.persistentThreads
            && v.workers == w.workers && v.totalThreads == w.totalThreads && v.attr == w.attr
            && v.lastJobId == w.lastJobId
  {
    hide Rested, NewJob;
  }

  /** A persistent job is refused exactly when no thread may be added and just one regular thread is left;
      otherwise it is on offer, at once or when the new worker has started. */
  lemma PersistentAnswers(w: World, priority: Priority, cell: nat, created: bool)
    requires w.slot.NoJob?
    ensures var v, c := PersistentAdded(w, priority, cell, created), |w.calls|;
            && |v.calls| == c + 1 && v.calls[..c] == w.calls
            && if w.totalThreads < w.attr.maxThreads && created then
                 v.workers == w.workers + [Starting] && v.slot.NoJob?
                 && v.calls[c] == AddingPersistent(priority, w.totalThreads + 1)
               else if w.totalThreads >= w.attr.maxThreads && w.totalThreads - w.persistentThreads == 1 then
                 v.workers == w.workers && v.slot.NoJob? && v.calls[c] == Refused
               else
                 v.workers == w.workers && v.slot == OneJob(NewJob(w, priority, cell)) && v.calls[c] == Submitted
  {
    hide PersistentPlaced, NewJob;
    PlacedShows(w, w.(calls := w.calls + [Refused]), priority, cell);
  }

  lemma PlacedShows(w: World, w1: World, priority: Priority, cell: nat)
    requires w1 == w.(calls := w.calls + [Refused])
    ensures var v, c := PersistentPlaced(w1, |w.calls|, priority, cell), |w.calls|;
            && |v.calls| == c + 1 && v.calls[..c] == w.calls && v.calls[c] == Submitted
            && v.workers == w.workers && v.slot == OneJob(NewJob(w, priority, cell))
  {
    hide Rested;
  }

  /** A worker leaves exactly when it finds the pool shut down, or nothing to do and either it has waited in
      vain with more workers than the minimum or there are more than allowed. */
  lemma LeavesExactly(w: World, i: nat, timedOut: bool)
    requires i < |w.workers|
    ensures var v := Loop(w, i, timedOut);
            var nothing := w.q.high == w.q.med == w.q.low == [] && w.slot.NoJob?;
            && (v.workers[i].Gone? <==>
                  || w.shutdown
                  || (nothing && ((timedOut && w.totalThreads > w.attr.minThreads)
                                  || (w.attr.maxThreads != -1 && w.totalThreads > w.attr.maxThreads))))
            && (v.workers[i].Waiting? ==> nothing)
  {
    hide Bumped, First, Rest;
    BumpedNonEmpty(w.q, w.attr, w.now);
  }

  /** Removing by id takes out a job with that id if one waits, and leaves all others; if none does, nothing
      changes. */
  lemma RemovesExactly(q: Queues, slot: Slot, id: int)
    ensures var r := Removed(q, slot, id);
            && (r.Found? <==>
                  exists j :: (j in q.high || j in q.med || j in q.low || slot == OneJob(j)) && j.jobId == id)
            && (r.Found? ==>
                  && r.job.jobId == id
                  && (r.job in q.high || r.job in q.med || r.job in q.low || slot == OneJob(r.job))
                  && forall key :: QueueBag(key, q) + SlotBag(key, slot)
                                   == (QueueBag(key, r.q) + SlotBag(key, r.slot)) + multiset{key(r.job)})
  {
    var r := Removed(q, slot, id);
    FindsExactly(q.high, id);
    FindsExactly(q.med, id);
    FindsExactly(q.low, id);
    forall key ensures r.Found? ==> QueueBag(key, q) + SlotBag(key, slot)
                                    == (QueueBag(key, r.q) + SlotBag(key, r.slot)) + multiset{key(r.job)} {
      RemovedBag(key, q, slot, id);
    }
    hide QueueBag, Cut, Find;
  }

  lemma FindsExactly(s: seq<Job>, id: int)
    ensures Find(s, id) < |s| <==> exists j :: j in s && j.jobId == id
    ensures Find(s, id) < |s| ==> s[Find(s, id)] in s
  {
    hide Find;
    var i := Find(s, id);
    forall k | 0 <= k < |s| && s[k].jobId == id ensures i < |s| {
      assert i <= k;
    }
    if i < |s| {
      assert s[i] in s;
    }
  }
}
