/** What holds of every job as it is accepted holds of every job the pool has, in every state. */
module PoolHeld {
  import opened PoolQueues
  import opened PoolMachine

  /** The property does not depend on when a job joined its queue. */
  ghost predicate Timeless(p: Job -> bool) {
    forall j: Job, t: int {:trigger p(j.(entered := t))} :: p(j.(entered := t)) == p(j)
  }

  ghost predicate QueuesAll(p: Job -> bool, q: Queues) {
    forall j {:trigger p(j)} :: j in q.high || j in q.med || j in q.low ==> p(j)
  }

  /** Every job queued, on offer or running has the property. */
  ghost predicate AllHeld(p: Job -> bool, w: World) {
    && QueuesAll(p, w.q) && (w.slot.OneJob? ==> p(w.slot.job))
    && forall i {:trigger w.workers[i]} :: 0 <= i < |w.workers| && w.workers[i].Running? ==> p(w.workers[i].job)
  }

  /** The priority of the job a step may accept. */
  function Asked(w: World, a: Action): Priority
    requires Enabled(w, a)
  {
    match a
    case Add(priority, _, _) => priority
    case AddPersistent(priority, _, _) => priority
    case Resume(c, _, _) => if w.calls[c].AddingPersistent? then w.calls[c].priority else Low
    case _ => Low
  }

  function CellOf(a: Action): nat {
    if a.Add? || a.AddPersistent? || a.Resume? then a.cell else 0
  }

  lemma MedBumpedAll(p: Job -> bool, q: Queues, now: int)
    requires QueuesAll(p, q) && Timeless(p) && q.med != []
    ensures QueuesAll(p, MedBumped(q, now))
  {
    assert p(q.med[0]);
  }

  lemma LowBumpedAll(p: Job -> bool, q: Queues, now: int)
    requires QueuesAll(p, q) && Timeless(p) && q.low != []
    ensures QueuesAll(p, LowBumped(q, now))
  {
    assert p(q.low[0]);
  }

  lemma {:induction false} BumpedAll(p: Job -> bool, q: Queues, attr: Attr, now: int)
    requires QueuesAll(p, q) && Timeless(p)
    ensures QueuesAll(p, Bumped(q, attr, now))
    decreases 2 * |q.low| + |q.med|
  {
    hide QueuesAll, Timeless;
    if MedStarves(q, attr, now) {
      MedBumpedAll(p, q, now);
      BumpedAll(p, MedBumped(q, now), attr, now);
    } else if LowStarves(q, attr, now) {
      LowBumpedAll(p, q, now);
      BumpedAll(p, LowBumped(q, now), attr, now);
    }
  }

  lemma RestAll(p: Job -> bool, q: Queues)
    requires QueuesAll(p, q) && NonEmpty(q)
    ensures QueuesAll(p, Rest(q)) && p(First(q))
  {
    assert p(First(q));
  }

  lemma RemovedAll(p: Job -> bool, q: Queues, slot: Slot, id: int)
    requires QueuesAll(p, q)
    ensures var r := Removed(q, slot, id);
            r.Found? ==> QueuesAll(p, r.q) && (r.slot.OneJob? ==> r.slot == slot)
  {
    hide Find;
  }

  lemma LoopAll(p: Job -> bool, w: World, i: nat, timedOut: bool)
    requires AllHeld(p, w) && Timeless(p) && i < |w.workers|
    ensures AllHeld(p, Loop(w, i, timedOut))
  {
    hide QueuesAll, Timeless, Bumped, NonEmpty, Proceed;
    ProceedAll(p, w, i);
  }

  lemma ProceedAll(p: Job -> bool, w: World, i: nat)
    requires AllHeld(p, w) && Timeless(p) && i < |w.workers|
    ensures AllHeld(p, Proceed(w, i))
  {
    hide QueuesAll, Timeless, Bumped, NonEmpty, First, Rest;
    var q := Bumped(w.q, w.attr, w.now);
    BumpedAll(p, w.q, w.attr, w.now);
    if NonEmpty(q) {
      RestAll(p, q);
    }
  }

  lemma ReturningAll(p: Job -> bool, w: World, i: nat)
    requires AllHeld(p, w) && i < |w.workers| && w.workers[i].AtTop?
    ensures AllHeld(p, Returning(w, i)) && |Returning(w, i).workers| == |w.workers|
  {
    hide QueuesAll, FreeCell;
  }

  lemma AddedAll(p: Job -> bool, w: World, priority: Priority, cell: nat, created: bool)
    requires AllHeld(p, w) && p(NewJob(w, priority, cell))
    ensures AllHeld(p, JobAdded(w, priority, cell, created))
  {
    hide Rested, Regular, NewJob;
  }

  lemma PlacedAll(p: Job -> bool, w: World, c: nat, priority: Priority, cell: nat)
    requires AllHeld(p, w) && c < |w.calls| && p(NewJob(w, priority, cell))
    ensures AllHeld(p, PersistentPlaced(w, c, priority, cell))
  {
    hide Rested, QueuesAll, NewJob;
  }

  lemma PersistentAll(p: Job -> bool, w: World, priority: Priority, cell: nat, created: bool)
    requires AllHeld(p, w)
    requires PersistentAdded(w, priority, cell, created).accepted > w.accepted ==> p(NewJob(w, priority, cell))
    ensures AllHeld(p, PersistentAdded(w, priority, cell, created))
  {
    hide QueuesAll, PersistentPlaced;
    var w1 := w.(calls := w.calls + [Refused]);
    PlacedAccepts(w1, |w.calls|, priority, cell);
    if p(NewJob(w, priority, cell)) {
      PlacedAll(p, w1, |w.calls|, priority, cell);
    }
  }

  lemma PlacedAccepts(w: World, c: nat, priority: Priority, cell: nat)
    requires c < |w.calls|
    ensures PersistentPlaced(w, c, priority, cell).accepted == w.accepted + 1
  {
    hide Rested;
  }

  lemma AddedAccepts(w: World, priority: Priority, cell: nat, created: bool)
    ensures JobAdded(w, priority, cell, created).accepted == w.accepted + 1
  {
    hide Enqueued, Rested, Regular;
  }

  /** Workers without jobs may be created, or calls go on. */
  ghost predicate NoJobMoves(w: World, v: World) {
    && v.q == w.q && v.slot == w.slot && (v.workers == w.workers || v.workers == w.workers + [Starting])
  }

  lemma NoJobMovesAll(p: Job -> bool, w: World, v: World)
    requires AllHeld(p, w) && NoJobMoves(w, v)
    ensures AllHeld(p, v)
  {
    hide QueuesAll;
  }

  lemma ResumedAll(p: Job -> bool, w: World, c: nat, cell: nat, created: bool)
    requires AllHeld(p, w) && c < |w.calls|
    requires w.calls[c].AddingPersistent? && Resumed(w, c, cell, created).accepted > w.accepted ==>
      p(NewJob(w, w.calls[c].priority, cell))
    ensures AllHeld(p, Resumed(w, c, cell, created))
  {
    hide AllHeld, PersistentPlaced, AddLoop, InitLoop, NoJobMoves, NewJob;
    match w.calls[c]
    case Initializing(started, target) =>
      InitLoopSame(w, c, started + 1, created);
      NoJobMovesAll(p, w, InitLoop(w, c, started + 1, created));
    case Adding(jobs, threads, target) =>
      AddLoopSame(w, c, jobs, threads + 1, created);
      NoJobMovesAll(p, w, AddLoop(w, c, jobs, threads + 1, created));
    case AddingPersistent(priority, target) =>
      PlacedAccepts(w, c, priority, cell);
      if p(NewJob(w, priority, cell)) {
        PlacedAll(p, w, c, priority, cell);
      }
    case _ =>
      OthersSame(w, c, cell, created);
      NoJobMovesAll(p, w, Resumed(w, c, cell, created));
  }

  lemma InitLoopSame(w: World, c: nat, started: int, created: bool)
    requires c < |w.calls|
    ensures NoJobMoves(w, InitLoop(w, c, started, created))
  {
  }

  lemma AddLoopSame(w: World, c: nat, jobs: int, threads: nat, created: bool)
    requires c < |w.calls|
    ensures NoJobMoves(w, AddLoop(w, c, jobs, threads, created))
  {
  }

  lemma OthersSame(w: World, c: nat, cell: nat, created: bool)
    requires c < |w.calls| && !InCreate(w.calls[c])
    ensures NoJobMoves(w, Resumed(w, c, cell, created))
  {
  }

  lemma RemoveAll(p: Job -> bool, w: World, id: int)
    requires AllHeld(p, w)
    ensures AllHeld(p, JobRemoved(w, id))
  {
    RemovedAll(p, w.q, w.slot, id);
    hide QueuesAll, Removed, FreeCell;
  }

  lemma ShutDownAll(p: Job -> bool, w: World)
    requires AllHeld(p, w)
    ensures AllHeld(p, ShutDown(w))
  {
    assert QueuesAll(p, Queues([], [], []));
    hide QueuesAll, FreeAll, Bag;
  }

  /** No worker gets a job. */
  lemma WorkersAll(p: Job -> bool, w: World, v: World)
    requires AllHeld(p, w) && v.q == w.q && v.slot == w.slot && |v.workers| == |w.workers|
    requires forall i :: 0 <= i < |w.workers| && v.workers[i].Running? ==> v.workers[i] == w.workers[i]
    ensures AllHeld(p, v)
  {
    hide QueuesAll;
  }

  /** A step brings no job but the one it accepts. */
  lemma StepAll(p: Job -> bool, w: World, a: Action)
    requires AllHeld(p, w) && Timeless(p) && Enabled(w, a)
    requires Next(w, a).accepted > w.accepted ==> p(NewJob(w, Asked(w, a), CellOf(a)))
    ensures AllHeld(p, Next(w, a))
  {
    hide AllHeld, Timeless, NoJobMoves, InitLoop, Loop, Returning, JobAdded, PersistentAdded, Resumed, JobRemoved,
         ShutDown, CanAllocate, NewJob;
    match a
    case Tick(to) => WorkersAll(p, w, w.(now := to));
    case Init(created) =>
      WorkersAll(p, w, w.(calls := [Refused]));
      InitLoopSame(w.(calls := [Refused]), 0, 0, created);
      NoJobMovesAll(p, w.(calls := [Refused]), Next(w, a));
    case Register(i) => WorkersAll(p, w, Registered(w, i));
    case Finish(i) => WorkersAll(p, w, Finished(w, i));
    case Top(i) =>
      ReturningAll(p, w, i);
      LoopAll(p, Returning(w, i), i, false);
    case Wake(i, timedOut) => LoopAll(p, w, i, timedOut);
    case Add(priority, cell, created) =>
      AddedAccepts(w, priority, cell, created);
      AddedAll(p, w, priority, cell, created);
    case AddPersistent(priority, cell, created) => PersistentAll(p, w, priority, cell, created);
    case Resume(c, cell, created) => ResumedAll(p, w, c, cell, created);
    case Remove(id) => RemoveAll(p, w, id);
    case Shutdown => ShutDownAll(p, w);
  }

  lemma StartAll(p: Job -> bool, attr: Attr, now: int)
    ensures AllHeld(p, Start(attr, now))
  {
  }
}
