/** How many worker threads there are, over every run of the pool. */
module PoolWorkers {
  import opened PoolQueues
  import opened PoolMachine

  function Count(p: Worker -> bool, ws: seq<Worker>): nat {
    if ws == [] then 0 else (if p(ws[0]) then 1 else 0) + Count(p, ws[1..])
  }

  const COUNTED: Worker -> bool := (x: Worker) => x.AtTop? || x.Waiting? || x.Running?
  const PERSISTENT: Worker -> bool := (x: Worker) => (x.AtTop? && x.persistent) || (x.Running? && x.persistent)
  const STARTING: Worker -> bool := (x: Worker) => x.Starting?
  const IDLE: Worker -> bool := (x: Worker) => x.Waiting?
  const WORKING: Worker -> bool := (x: Worker) => x.Running? && !x.persistent
  const BETWEEN: Worker -> bool := (x: Worker) => x.AtTop? && !x.persistent

  lemma {:induction false} CountUpdate(p: Worker -> bool, ws: seq<Worker>, i: nat, x: Worker)
    requires i < |ws|
    ensures Count(p, ws[i := x]) + (if p(ws[i]) then 1 else 0) == Count(p, ws) + (if p(x) then 1 else 0)
  {
    var vs := ws[i := x];
    if i == 0 {
      assert vs[1..] == ws[1..];
    } else {
      CountUpdate(p, ws[1..], i - 1, x);
      assert vs[1..] == ws[1..][i - 1 := x];
    }
  }

  lemma {:induction false} CountAppend(p: Worker -> bool, ws: seq<Worker>, x: Worker)
    ensures Count(p, ws + [x]) == Count(p, ws) + if p(x) then 1 else 0
  {
    if ws == [] {
      assert ws + [x] == [x] && [x][1..] == [];
    } else {
      CountAppend(p, ws[1..], x);
      assert (ws + [x])[1..] == ws[1..] + [x];
    }
  }

  /* ---- the counters ---- */

  /** The counters are the numbers of workers they stand for. */
  ghost predicate Threads(w: World) {
    w.totalThreads == Count(COUNTED, w.workers) && w.persistentThreads == Count(PERSISTENT, w.workers)
  }

  /** What one worker contributes. */
  function One(p: Worker -> bool, x: Worker): nat {
    if p(x) then 1 else 0
  }

  lemma OneChanges(w: World, v: World, i: nat, x: Worker)
    requires Threads(w) && i < |w.workers| && v.workers == w.workers[i := x]
    requires v.totalThreads == w.totalThreads + One(COUNTED, x) - One(COUNTED, w.workers[i])
    requires v.persistentThreads == w.persistentThreads + One(PERSISTENT, x) - One(PERSISTENT, w.workers[i])
    ensures Threads(v)
  {
    CountUpdate(COUNTED, w.workers, i, x);
    CountUpdate(PERSISTENT, w.workers, i, x);
    hide Count;
  }

  lemma OneStarts(w: World, v: World)
    requires Threads(w) && v.workers == w.workers + [Starting]
    requires v.totalThreads == w.totalThreads && v.persistentThreads == w.persistentThreads
    ensures Threads(v)
  {
    CountAppend(COUNTED, w.workers, Starting);
    CountAppend(PERSISTENT, w.workers, Starting);
    hide Count;
  }

  /** A step that is no worker's: workers may only be created. */
  ghost predicate OnlySpawns(w: World, v: World) {
    && (v.workers == w.workers || v.workers == w.workers + [Starting])
    && v.totalThreads == w.totalThreads && v.persistentThreads == w.persistentThreads
  }

  lemma SpawnsKeep(w: World, v: World)
    requires Threads(w) && OnlySpawns(w, v)
    ensures Threads(v)
  {
    hide Count;
    if v.workers != w.workers {
      OneStarts(w, v);
    }
  }

  lemma InitSpawns(w: World, c: nat, started: int, created: bool)
    requires c < |w.calls|
    ensures OnlySpawns(w, InitLoop(w, c, started, created))
  {
  }

  lemma AddSpawns(w: World, priority: Priority, cell: nat, created: bool)
    ensures OnlySpawns(w, JobAdded(w, priority, cell, created))
  {
    hide Enqueued;
  }

  /** Placing a persistent job concerns no thread. */
  lemma PlacedShape(w: World, c: nat, priority: Priority, cell: nat)
    requires c < |w.calls|
    ensures var v := PersistentPlaced(w, c, priority, cell);
            && v.attr == w.attr && v.totalThreads == w.totalThreads && v.persistentThreads == w.persistentThreads
            && v.workers == w.workers && v.calls == w.calls[c := Submitted]
            && v.initialized == w.initialized && v.shutdown == w.shutdown
  {
    hide Rested;
  }

  lemma PersistentSpawns(w: World, priority: Priority, cell: nat, created: bool)
    ensures OnlySpawns(w, PersistentAdded(w, priority, cell, created))
  {
    hide PersistentPlaced;
    PlacedShape(w.(calls := w.calls + [Refused]), |w.calls|, priority, cell);
  }

  lemma ResumeSpawns(w: World, c: nat, cell: nat, created: bool)
    requires c < |w.calls|
    ensures OnlySpawns(w, Resumed(w, c, cell, created))
  {
    hide PersistentPlaced, AddLoop, InitLoop;
    match w.calls[c]
    case Initializing(started, target) => InitSpawns(w, c, started + 1, created);
    case Adding(jobs, threads, target) => LoopSpawns(w, c, jobs, threads + 1, created);
    case AddingPersistent(priority, target) => PlacedSpawns(w, c, priority, cell);
    case _ =>
  }

  lemma LoopSpawns(w: World, c: nat, jobs: int, threads: nat, created: bool)
    requires c < |w.calls|
    ensures OnlySpawns(w, AddLoop(w, c, jobs, threads, created))
  {
  }

  lemma PlacedSpawns(w: World, c: nat, priority: Priority, cell: nat)
    requires c < |w.calls|
    ensures OnlySpawns(w, PersistentPlaced(w, c, priority, cell))
  {
  }

  lemma RemoveSpawns(w: World, id: int)
    ensures OnlySpawns(w, JobRemoved(w, id))
  {
    hide Removed, FreeCell;
  }

  lemma ShutDownSpawns(w: World)
    ensures OnlySpawns(w, ShutDown(w))
  {
    hide FreeAll, Bag;
  }

  /** How the loop of a waiting worker ends: it leaves, waits, or takes a job. */
  lemma LoopEnds(w: World, i: nat, timedOut: bool)
    requires i < |w.workers|
    ensures var v := Loop(w, i, timedOut);
            var x := v.workers[i];
            && |v.workers| == |w.workers| && v.workers == w.workers[i := x] && !x.Starting? && !x.AtTop?
            && (x.Gone? <==> v.totalThreads == w.totalThreads - 1) && (x.Gone? || v.totalThreads == w.totalThreads)
            && v.persistentThreads == w.persistentThreads + One(PERSISTENT, x)
            && v.calls == w.calls && v.attr == w.attr && v.shutdown == w.shutdown && v.initialized == w.initialized
            && (x.Gone? ==> w.shutdown || (timedOut && w.totalThreads > w.attr.minThreads)
                            || (w.attr.maxThreads != INFINITE_THREADS && w.totalThreads > w.attr.maxThreads))
  {
    hide Proceed, Bumped, NonEmpty;
    ProceedEnds(w, i);
    assert Idle(w) || NonEmpty(w.q) || w.slot.OneJob? || w.shutdown;
  }

  lemma ProceedEnds(w: World, i: nat)
    requires i < |w.workers|
    ensures var v := Proceed(w, i);
            var x := v.workers[i];
            && |v.workers| == |w.workers| && v.workers == w.workers[i := x] && !x.Starting? && !x.AtTop?
            && (x.Gone? <==> v.totalThreads == w.totalThreads - 1) && (x.Gone? || v.totalThreads == w.totalThreads)
            && v.persistentThreads == w.persistentThreads + One(PERSISTENT, x)
            && v.calls == w.calls && v.attr == w.attr && v.shutdown == w.shutdown && v.initialized == w.initialized
            && (x.Gone? ==> w.shutdown || (w.slot.NoJob? && !NonEmpty(w.q)))
  {
    hide Bumped, NonEmpty, Rest, First;
    BumpedNonEmpty(w.q, w.attr, w.now);
  }

  lemma LoopThreads(w: World, i: nat, timedOut: bool)
    requires Threads(w) && i < |w.workers| && w.workers[i].Waiting?
    ensures Threads(Loop(w, i, timedOut))
  {
    hide Loop, Threads;
    LoopEnds(w, i, timedOut);
    OneChanges(w, Loop(w, i, timedOut), i, Loop(w, i, timedOut).workers[i]);
  }

  lemma ReturningThreads(w: World, i: nat)
    requires Threads(w) && i < |w.workers| && w.workers[i].AtTop?
    ensures Threads(Returning(w, i)) && Returning(w, i).workers == w.workers[i := Waiting]
  {
    hide Threads, FreeCell;
    OneChanges(w, Returning(w, i), i, Waiting);
  }

  lemma StepThreads(w: World, a: Action)
    requires Threads(w) && Enabled(w, a)
    ensures Threads(Next(w, a))
  {
    hide Threads, Loop, Returning, InitLoop, JobAdded, PersistentAdded, Resumed, JobRemoved, ShutDown, CanAllocate,
         OnlySpawns;
    match a
    case Tick(to) => SameThreads(w, w.(now := to));
    case Init(created) =>
      var w1 := w.(calls := [Refused]);
      SameThreads(w, w1);
      InitSpawns(w1, 0, 0, created);
      SpawnsKeep(w1, InitLoop(w1, 0, 0, created));
    case Register(i) => OneChanges(w, Registered(w, i), i, AtTop(NoJob, false));
    case Top(i) =>
      ReturningThreads(w, i);
      LoopThreads(Returning(w, i), i, false);
    case Wake(i, timedOut) => LoopThreads(w, i, timedOut);
    case Finish(i) => OneChanges(w, Finished(w, i), i, Finished(w, i).workers[i]);
    case Add(priority, cell, created) =>
      AddSpawns(w, priority, cell, created);
      SpawnsKeep(w, JobAdded(w, priority, cell, created));
    case AddPersistent(priority, cell, created) =>
      PersistentSpawns(w, priority, cell, created);
      SpawnsKeep(w, PersistentAdded(w, priority, cell, created));
    case Resume(c, cell, created) =>
      ResumeSpawns(w, c, cell, created);
      SpawnsKeep(w, Resumed(w, c, cell, created));
    case Remove(id) =>
      RemoveSpawns(w, id);
      SpawnsKeep(w, JobRemoved(w, id));
    case Shutdown =>
      ShutDownSpawns(w);
      SpawnsKeep(w, ShutDown(w));
  }

  lemma SameThreads(w: World, v: World)
    requires Threads(w) && v.workers == w.workers && v.totalThreads == w.totalThreads
    requires v.persistentThreads == w.persistentThreads
    ensures Threads(v)
  {
  }

  lemma {:induction false} CountSplits(ws: seq<Worker>)
    ensures Count(COUNTED, ws) == Count(IDLE, ws) + Count(WORKING, ws) + Count(PERSISTENT, ws) + Count(BETWEEN, ws)
  {
    if ws != [] {
      CountSplits(ws[1..]);
    }
  }

  /** In every state of every run totalThreads counts the idle, the working, the persistent and the
      workers between two jobs, those just registered among them. */
  lemma {:induction false} ThreadsCounted(ws: seq<World>, as_: seq<Action>, i: nat)
    requires IsRun(ws, as_) && i < |ws|
    ensures var w := ws[i];
            && w.totalThreads == Count(IDLE, w.workers) + Count(WORKING, w.workers) + Count(PERSISTENT, w.workers)
                                 + Count(BETWEEN, w.workers)
            && w.persistentThreads == Count(PERSISTENT, w.workers) <= w.totalThreads
            && Threads(w)
  {
    hide Next, Enabled;
    if i > 0 {
      ThreadsCounted(ws, as_, i - 1);
      assert StepOk(ws, as_, i - 1);
      StepThreads(ws[i - 1], as_[i - 1]);
    }
    CountSplits(ws[i].workers);
  }

  /* ---- the upper bound ---- */

  /** At most one caller is inside CreateWorker. */
  ghost predicate OneCreator(w: World) {
    forall c, d :: 0 <= c < |w.calls| && 0 <= d < |w.calls| && InCreate(w.calls[c]) && InCreate(w.calls[d]) ==> c == d
  }

  /** With the threads started and not yet counted there are no more than allowed. */
  ghost predicate Bounded(w: World) {
    var s := Count(STARTING, w.workers);
    && w.totalThreads + s <= w.attr.maxThreads
    && (s > 0 ==> exists c :: 0 <= c < |w.calls| && InCreate(w.calls[c]))
    && forall c {:trigger w.calls[c]} :: 0 <= c < |w.calls| && InCreate(w.calls[c]) ==>
         w.totalThreads + s <= w.calls[c].target
  }

  /** A caller creates a worker, or none is created. */
  ghost predicate Creates(w: World, v: World, c: nat) {
    && v.attr == w.attr && v.totalThreads == w.totalThreads && c < |v.calls|
    && v.workers == w.workers + [Starting] && InCreate(v.calls[c]) && v.calls[c].target == w.totalThreads + 1
    && CanCreate(w)
  }

  /** No caller but perhaps c is inside CreateWorker before, and none starts. */
  lemma CreatesBounded(w: World, v: World, c: nat)
    requires Count(STARTING, w.workers) == 0 && Creates(w, v, c) && OneCreator(v) && w.attr.maxThreads >= 0
    ensures Bounded(v)
  {
    CountAppend(STARTING, w.workers, Starting);
    hide Count;
    assert InCreate(v.calls[c]);
  }

  /** Nothing is created, and callers leave or stay. */
  lemma QuietBounded(w: World, v: World)
    requires Bounded(w) && v.attr == w.attr && v.totalThreads <= w.totalThreads
    requires Count(STARTING, v.workers) == Count(STARTING, w.workers)
    requires forall c :: 0 <= c < |w.calls| && InCreate(w.calls[c]) ==> c < |v.calls| && v.calls[c] == w.calls[c]
    requires forall c :: 0 <= c < |v.calls| && InCreate(v.calls[c]) ==> c < |w.calls| && v.calls[c] == w.calls[c]
    ensures Bounded(v)
  {
    hide Count;
    if Count(STARTING, v.workers) > 0 {
      var c :| 0 <= c < |w.calls| && InCreate(w.calls[c]);
      assert InCreate(v.calls[c]);
    }
  }

  /** The one caller that was inside CreateWorker leaves it. */
  lemma LeavesBounded(w: World, v: World, c: nat)
    requires Bounded(w) && OneCreator(w) && v.attr == w.attr && v.totalThreads == w.totalThreads
    requires c < |w.calls| && InCreate(w.calls[c]) && w.totalThreads >= w.calls[c].target
    requires v.workers == w.workers && |v.calls| == |w.calls|
    requires !InCreate(v.calls[c]) && forall d :: 0 <= d < |w.calls| && d != c ==> v.calls[d] == w.calls[d]
    ensures Bounded(v) && Count(STARTING, w.workers) == 0
  {
    hide Count;
  }

  /** One call is new, or one goes on; either it is now inside CreateWorker having created a worker,
      or it is not and none was created. */
  ghost predicate CallMoves(w: World, v: World, c: nat) {
    && v.attr == w.attr && v.totalThreads == w.totalThreads && c < |v.calls| && |w.calls| <= |v.calls|
    && (|v.calls| == |w.calls| || (c == |w.calls| && |v.calls| == c + 1))
    && (forall d :: 0 <= d < |w.calls| && d != c ==> v.calls[d] == w.calls[d])
    && if InCreate(v.calls[c]) then
         v.workers == w.workers + [Starting] && v.calls[c].target == w.totalThreads + 1 && CanCreate(w)
       else v.workers == w.workers
  }

  lemma CallMovesBounded(w: World, v: World, c: nat)
    requires Bounded(w) && OneCreator(w) && OneCreator(v) && w.attr.maxThreads >= 0 && CallMoves(w, v, c)
    requires c < |w.calls| && InCreate(w.calls[c]) ==> w.totalThreads >= w.calls[c].target
    ensures Bounded(v)
  {
    hide Count, Bounded, OneCreator;
    if c < |w.calls| && InCreate(w.calls[c]) {
      StartedAll(w, c);
      if InCreate(v.calls[c]) {
        CreatesBounded(w, v, c);
      } else {
        LeavesBounded(w, v, c);
      }
    } else if InCreate(v.calls[c]) {
      NoOtherInside(w, v, c);
      CreatesBounded(w, v, c);
    } else {
      QuietBounded(w, v);
    }
  }

  lemma StartedAll(w: World, c: nat)
    requires Bounded(w) && c < |w.calls| && InCreate(w.calls[c]) && w.totalThreads >= w.calls[c].target
    ensures Count(STARTING, w.workers) == 0
  {
    hide Count;
  }

  lemma NoOtherInside(w: World, v: World, c: nat)
    requires Bounded(w) && OneCreator(v) && CallMoves(w, v, c) && InCreate(v.calls[c])
    requires c < |w.calls| ==> !InCreate(w.calls[c])
    ensures Count(STARTING, w.workers) == 0
  {
    hide Count;
    forall d | 0 <= d < |w.calls| ensures !InCreate(w.calls[d]) {
      assert d != c ==> v.calls[d] == w.calls[d];
    }
  }

  /* ---- which steps do what ---- */

  lemma InitMoves(w: World, w1: World, c: nat, started: int, created: bool)
    requires w1 == w.(calls := w1.calls) && c < |w1.calls| && |w.calls| <= |w1.calls|
    requires |w1.calls| == |w.calls| || (c == |w.calls| && |w1.calls| == c + 1)
    requires forall d :: 0 <= d < |w.calls| && d != c ==> w1.calls[d] == w.calls[d]
    ensures CallMoves(w, InitLoop(w1, c, started, created), c)
  {
    hide CallMoves;
    OneMoves(w, w1, InitLoop(w1, c, started, created), c);
  }

  /** One call is new or goes on, and has created a worker if it is inside CreateWorker. */
  lemma OneMoves(w: World, w1: World, v: World, c: nat)
    requires c < |w1.calls| && |w.calls| <= |w1.calls|
    requires |w1.calls| == |w.calls| || (c == |w.calls| && |w1.calls| == c + 1)
    requires forall d :: 0 <= d < |w.calls| && d != c ==> w1.calls[d] == w.calls[d]
    requires v.attr == w.attr && v.totalThreads == w.totalThreads
    requires |v.calls| == |w1.calls| && v.calls == w1.calls[c := v.calls[c]]
    requires if InCreate(v.calls[c]) then
               v.workers == w.workers + [Starting] && v.calls[c].target == w.totalThreads + 1 && CanCreate(w)
             else v.workers == w.workers
    ensures CallMoves(w, v, c)
  {
  }

  lemma AddLoopMoves(w: World, w1: World, c: nat, jobs: int, threads: nat, created: bool)
    requires w1.workers == w.workers && w1.attr == w.attr && w1.totalThreads == w.totalThreads
    requires c < |w1.calls| && |w.calls| <= |w1.calls|
    requires |w1.calls| == |w.calls| || (c == |w.calls| && |w1.calls| == c + 1)
    requires forall d :: 0 <= d < |w.calls| && d != c ==> w1.calls[d] == w.calls[d]
    ensures CallMoves(w, AddLoop(w1, c, jobs, threads, created), c)
  {
  }

  lemma JobAddedMoves(w: World, priority: Priority, cell: nat, created: bool)
    ensures CallMoves(w, JobAdded(w, priority, cell, created), |w.calls|)
  {
    hide AddLoop, Enqueued;
    var w1 := JobQueued(w, priority, cell).(calls := w.calls + [Refused]);
    AddLoopMoves(w, w1, |w.calls|, |w1.q.high| + |w1.q.low| + |w1.q.med|, Regular(w1), created);
  }

  lemma PersistentAddedMoves(w: World, priority: Priority, cell: nat, created: bool)
    ensures CallMoves(w, PersistentAdded(w, priority, cell, created), |w.calls|)
  {
    hide PersistentPlaced, CallMoves, Spawned, CanCreate;
    var w1, c := w.(calls := w.calls + [Refused]), |w.calls|;
    CalledMoves(w, w1, c, Refused);
    PlacedShape(w1, c, priority, cell);
    CalledMoves(w, PersistentPlaced(w1, c, priority, cell), c, Submitted);
    EntersMoves(w, w1, c, priority);
  }

  /** A new call that creates no worker. */
  lemma CalledMoves(w: World, v: World, c: nat, call: Call)
    requires v.attr == w.attr && v.totalThreads == w.totalThreads && v.workers == w.workers && c == |w.calls|
    requires v.calls == (w.calls + [Refused])[c := call] && !InCreate(call)
    ensures CallMoves(w, v, c)
  {
  }

  lemma EntersMoves(w: World, w1: World, c: nat, priority: Priority)
    requires w1 == w.(calls := w.calls + [Refused]) && c == |w.calls|
    ensures CanCreate(w) ==> CallMoves(w, Answered(Spawned(w1), c, AddingPersistent(priority, w.totalThreads + 1)), c)
  {
  }

  /** A call that goes on has waited until its worker was counted. */
  lemma ResumedMoves(w: World, c: nat, cell: nat, created: bool)
    requires c < |w.calls|
    ensures var v := Resumed(w, c, cell, created);
            v == w || (CallMoves(w, v, c) && (InCreate(w.calls[c]) ==> w.totalThreads >= w.calls[c].target))
  {
    hide AddLoop, InitLoop, PersistentPlaced, CallMoves;
    match w.calls[c]
    case Initializing(started, target) => InitMoves(w, w, c, started + 1, created);
    case Adding(jobs, threads, target) => AddLoopMoves(w, w, c, jobs, threads + 1, created);
    case AddingPersistent(priority, target) => PlacedMoves(w, c, priority, cell);
    case Submitted =>
      ReturnedMoves(w, Answered(w, c, Returned(w.lastJobId)).(lastJobId := w.lastJobId + 1), c, Returned(w.lastJobId));
    case ShuttingDown =>
      ReturnedMoves(w, Answered(w, c, Returned(0)).(destroyed := true, free := []), c, Returned(0));
    case _ =>
  }

  lemma PlacedMoves(w: World, c: nat, priority: Priority, cell: nat)
    requires c < |w.calls|
    ensures CallMoves(w, PersistentPlaced(w, c, priority, cell), c)
  {
    hide Rested;
  }

  lemma ReturnedMoves(w: World, v: World, c: nat, call: Call)
    requires c < |w.calls| && v.attr == w.attr && v.totalThreads == w.totalThreads && v.workers == w.workers
    requires v.calls == w.calls[c := call] && !InCreate(call)
    ensures CallMoves(w, v, c)
  {
  }

  lemma RegisteredBounded(w: World, i: nat)
    requires Bounded(w) && i < |w.workers| && w.workers[i].Starting?
    ensures Bounded(Registered(w, i))
  {
    CountUpdate(STARTING, w.workers, i, AtTop(NoJob, false));
    hide Count;
    var v := Registered(w, i);
    assert v.calls == w.calls;
  }

  lemma WorkerBounded(w: World, v: World, i: nat, x: Worker)
    requires Bounded(w) && i < |w.workers| && v.workers == w.workers[i := x]
    requires !w.workers[i].Starting? && !x.Starting? && v.totalThreads <= w.totalThreads
    requires v.calls == w.calls && v.attr == w.attr
    ensures Bounded(v)
  {
    CountUpdate(STARTING, w.workers, i, x);
    hide Count, Bounded;
    QuietBounded(w, v);
  }

  lemma StepBounded(w: World, a: Action)
    requires Bounded(w) && Enabled(w, a) && OneCreator(w) && OneCreator(Next(w, a)) && w.attr.maxThreads >= 0
    ensures Bounded(Next(w, a))
  {
    hide Bounded, OneCreator, CallMoves, Loop, Returning, InitLoop, JobAdded, PersistentAdded, Resumed, JobRemoved,
         ShutDown, CanAllocate;
    match a
    case Tick(to) => QuietBounded(w, w.(now := to));
    case Init(created) =>
      var w1 := w.(calls := [Refused]);
      InitMoves(w, w1, 0, 0, created);
      CallMovesBounded(w, InitLoop(w1, 0, 0, created), 0);
    case Register(i) => RegisteredBounded(w, i);
    case Top(i) =>
      TopEnds(w, i);
      WorkerBounded(w, Next(w, a), i, Next(w, a).workers[i]);
    case Wake(i, timedOut) =>
      LoopEnds(w, i, timedOut);
      WorkerBounded(w, Next(w, a), i, Next(w, a).workers[i]);
    case Finish(i) => WorkerBounded(w, Finished(w, i), i, Finished(w, i).workers[i]);
    case Add(priority, cell, created) =>
      JobAddedMoves(w, priority, cell, created);
      CallMovesBounded(w, JobAdded(w, priority, cell, created), |w.calls|);
    case AddPersistent(priority, cell, created) =>
      PersistentAddedMoves(w, priority, cell, created);
      CallMovesBounded(w, PersistentAdded(w, priority, cell, created), |w.calls|);
    case Resume(c, cell, created) =>
      ResumedMoves(w, c, cell, created);
      if Resumed(w, c, cell, created) != w {
        CallMovesBounded(w, Resumed(w, c, cell, created), c);
      }
    case Remove(id) =>
      RemovedQuiet(w, id);
      QuietBounded(w, JobRemoved(w, id));
    case Shutdown =>
      ShutDownQuiet(w);
      QuietBounded(w, ShutDown(w));
  }

  lemma TopEnds(w: World, i: nat)
    requires i < |w.workers| && w.workers[i].AtTop?
    ensures var v := Loop(Returning(w, i), i, false);
            var x := v.workers[i];
            && |v.workers| == |w.workers| && v.workers == w.workers[i := x] && !x.Starting?
            && (x.Gone? <==> v.totalThreads == w.totalThreads - 1) && (x.Gone? || v.totalThreads == w.totalThreads)
            && v.calls == w.calls && v.attr == w.attr && v.shutdown == w.shutdown && v.initialized == w.initialized
            && (x.Gone? ==> w.shutdown
                            || (w.attr.maxThreads != INFINITE_THREADS && w.totalThreads > w.attr.maxThreads))
  {
    hide Loop, FreeCell;
    LoopEnds(Returning(w, i), i, false);
    var x := Loop(Returning(w, i), i, false).workers[i];
    assert w.workers[i := Waiting][i := x] == w.workers[i := x];
  }

  lemma RemovedQuiet(w: World, id: int)
    ensures var v := JobRemoved(w, id);
            && v.attr == w.attr && v.totalThreads == w.totalThreads && v.workers == w.workers && v.calls == w.calls
            && v.shutdown == w.shutdown && v.initialized == w.initialized
  {
    hide Removed, FreeCell;
  }

  lemma ShutDownQuiet(w: World)
    ensures var v := ShutDown(w);
            && v.attr == w.attr && v.totalThreads == w.totalThreads && v.workers == w.workers
            && v.calls == w.calls + [ShuttingDown] && v.shutdown && v.initialized == w.initialized
  {
    hide FreeAll, Bag;
  }

  lemma {:induction false} RunBounded(ws: seq<World>, as_: seq<Action>, i: nat)
    requires IsRun(ws, as_) && i < |ws| && ws[0].attr.maxThreads >= 0
    requires forall j :: 0 <= j < |ws| ==> OneCreator(ws[j])
    ensures Bounded(ws[i]) && ws[i].attr == ws[0].attr
  {
    hide Next, Enabled, OneCreator;
    if i > 0 {
      RunBounded(ws, as_, i - 1);
      assert StepOk(ws, as_, i - 1);
      StepBounded(ws[i - 1], as_[i - 1]);
      StepAttr(ws[i - 1], as_[i - 1]);
    }
  }

  lemma StepAttr(w: World, a: Action)
    requires Enabled(w, a)
    ensures Next(w, a).attr == w.attr
  {
    hide CallMoves, Loop, Returning, InitLoop, JobAdded, PersistentAdded, Resumed, JobRemoved, ShutDown, CanAllocate;
    match a
    case Init(created) =>
      InitMoves(w, w.(calls := [Refused]), 0, 0, created);
      MovesAttr(w, Next(w, a), 0);
    case Top(i) => TopEnds(w, i);
    case Wake(i, timedOut) => LoopEnds(w, i, timedOut);
    case Add(priority, cell, created) =>
      JobAddedMoves(w, priority, cell, created);
      MovesAttr(w, Next(w, a), |w.calls|);
    case AddPersistent(priority, cell, created) =>
      PersistentAddedMoves(w, priority, cell, created);
      MovesAttr(w, Next(w, a), |w.calls|);
    case Resume(c, cell, created) =>
      ResumedMoves(w, c, cell, created);
      if Next(w, a) != w {
        MovesAttr(w, Next(w, a), c);
      }
    case Remove(id) => RemovedQuiet(w, id);
    case Shutdown => ShutDownQuiet(w);
    case _ =>
  }

  lemma MovesAttr(w: World, v: World, c: nat)
    requires CallMoves(w, v, c)
    ensures v.attr == w.attr
  {
  }

  /** With at most one caller inside CreateWorker at a time there are never more threads, counted or
      just started, than the limit. */
  lemma NeverTooMany(ws: seq<World>, as_: seq<Action>, i: nat)
    requires IsRun(ws, as_) && i < |ws| && ws[0].attr.maxThreads >= 0
    requires forall j :: 0 <= j < |ws| ==> OneCreator(ws[j])
    ensures Count(COUNTED, ws[i].workers) + Count(STARTING, ws[i].workers) <= ws[0].attr.maxThreads
  {
    hide Next, Enabled, OneCreator, IsRun, Count;
    RunBounded(ws, as_, i);
    ThreadsCounted(ws, as_, i);
  }

  /* ---- the lower bound ---- */

  /** Workers do not leave while there are no more than the minimum, so their number never falls
      below what has been created so far and, once initialised, below the minimum. */
  ghost predicate Enough(w: World) {
    && (forall c {:trigger w.calls[c]} :: 0 < c < |w.calls| ==> !w.calls[c].Initializing?)
    && (w.calls != [] && w.calls[0].Initializing? ==>
          var s := w.calls[0].started;
          0 <= s < w.attr.minThreads && w.calls[0].target > s && !w.initialized && !w.shutdown && w.totalThreads >= s)
    && (w.initialized && !w.shutdown ==> w.totalThreads >= w.attr.minThreads)
  }

  ghost predicate Sensible(attr: Attr) {
    0 <= attr.minThreads && (attr.maxThreads == INFINITE_THREADS || attr.minThreads <= attr.maxThreads)
  }

  /** A worker leaves only when there are more than enough. */
  lemma WorkerEnough(w: World, v: World)
    requires Enough(w) && Sensible(w.attr) && v.calls == w.calls && v.attr == w.attr
    requires v.shutdown == w.shutdown && v.initialized == w.initialized
    requires v.totalThreads < w.totalThreads ==>
      v.totalThreads == w.totalThreads - 1
      && (w.shutdown || w.totalThreads > w.attr.minThreads
          || (w.attr.maxThreads != INFINITE_THREADS && w.totalThreads > w.attr.maxThreads))
    ensures Enough(v)
  {
  }

  /** The calls of the interface, but for initialising, leave the threads alone. */
  lemma CallEnough(w: World, v: World, c: nat)
    requires Enough(w) && CallMoves(w, v, c) && v.initialized == w.initialized && v.shutdown == w.shutdown
    requires !v.calls[c].Initializing? && (c == 0 && w.calls != [] ==> !w.calls[0].Initializing?)
    ensures Enough(v)
  {
    forall d | 0 < d < |v.calls| ensures !v.calls[d].Initializing? {
      if d != c { assert v.calls[d] == w.calls[d]; }
    }
    if v.calls[0].Initializing? {
      assert c != 0 && w.calls[0] == v.calls[0];
    }
  }

  lemma InitEnough(w: World, started: int, created: bool)
    requires |w.calls| > 0 && forall c :: 0 < c < |w.calls| ==> !w.calls[c].Initializing?
    requires 0 <= started <= w.attr.minThreads && w.totalThreads >= started && !w.initialized && !w.shutdown
    ensures Enough(InitLoop(w, 0, started, created))
  {
    var v := InitLoop(w, 0, started, created);
    forall c | 0 < c < |v.calls| ensures !v.calls[c].Initializing? {
      assert v.calls[c] == w.calls[c];
    }
  }

  lemma ResumeEnough(w: World, c: nat, cell: nat, created: bool)
    requires Enough(w) && c < |w.calls|
    ensures Enough(Resumed(w, c, cell, created))
  {
    hide AddLoop, InitLoop, PersistentPlaced;
    if w.calls[c].Initializing? {
      assert c == 0;
      var s := w.calls[0].started;
      if w.totalThreads >= w.calls[0].target {
        InitEnough(w, s + 1, created);
      }
    } else {
      ResumedMoves(w, c, cell, created);
      ResumedFlags(w, c, cell, created);
      if Resumed(w, c, cell, created) != w {
        CallEnough(w, Resumed(w, c, cell, created), c);
      }
    }
  }

  lemma ResumedFlags(w: World, c: nat, cell: nat, created: bool)
    requires c < |w.calls| && !w.calls[c].Initializing?
    ensures var v := Resumed(w, c, cell, created);
            && v.initialized == w.initialized && v.shutdown == w.shutdown && c < |v.calls| && !v.calls[c].Initializing?
  {
    hide AddLoop, PersistentPlaced;
    match w.calls[c]
    case Adding(jobs, threads, target) => AddLoopFlags(w, c, jobs, threads + 1, created);
    case AddingPersistent(priority, target) => PlacedShape(w, c, priority, cell);
    case _ =>
  }

  lemma AddLoopFlags(w: World, c: nat, jobs: int, threads: nat, created: bool)
    requires c < |w.calls|
    ensures var v := AddLoop(w, c, jobs, threads, created);
            && v.initialized == w.initialized && v.shutdown == w.shutdown && c < |v.calls| && !v.calls[c].Initializing?
  {
  }

  lemma AddedFlags(w: World, priority: Priority, cell: nat, created: bool)
    ensures var v, c := JobAdded(w, priority, cell, created), |w.calls|;
            && v.initialized == w.initialized && v.shutdown == w.shutdown && c < |v.calls| && !v.calls[c].Initializing?
  {
    hide Enqueued, Rested, Regular;
  }

  lemma PersistentFlags(w: World, priority: Priority, cell: nat, created: bool)
    ensures var v, c := PersistentAdded(w, priority, cell, created), |w.calls|;
            && v.initialized == w.initialized && v.shutdown == w.shutdown && c < |v.calls| && !v.calls[c].Initializing?
  {
    hide PersistentPlaced;
    PlacedShape(w.(calls := w.calls + [Refused]), |w.calls|, priority, cell);
  }

  lemma StepEnough(w: World, a: Action)
    requires Enough(w) && Sensible(w.attr) && Enabled(w, a) && (w.calls == [] ==> !w.initialized && !w.shutdown)
    requires w.totalThreads >= 0
    ensures Enough(Next(w, a))
  {
    hide Enough, CallMoves, Loop, Returning, InitLoop, JobAdded, PersistentAdded, Resumed, JobRemoved, ShutDown,
         CanAllocate;
    match a
    case Tick(to) => WorkerEnough(w, w.(now := to));
    case Init(created) => InitEnough(w.(calls := [Refused]), 0, created);
    case Register(i) => WorkerEnough(w, Registered(w, i));
    case Top(i) =>
      TopEnds(w, i);
      WorkerEnough(w, Next(w, a));
    case Wake(i, timedOut) =>
      LoopEnds(w, i, timedOut);
      WorkerEnough(w, Next(w, a));
    case Finish(i) => WorkerEnough(w, Finished(w, i));
    case Add(priority, cell, created) =>
      JobAddedMoves(w, priority, cell, created);
      AddedFlags(w, priority, cell, created);
      OpenHasCalls(w);
      CallEnough(w, Next(w, a), |w.calls|);
    case AddPersistent(priority, cell, created) =>
      PersistentAddedMoves(w, priority, cell, created);
      PersistentFlags(w, priority, cell, created);
      CallEnough(w, Next(w, a), |w.calls|);
    case Resume(c, cell, created) => ResumeEnough(w, c, cell, created);
    case Remove(id) =>
      RemovedQuiet(w, id);
      WorkerEnough(w, Next(w, a));
    case Shutdown =>
      ShutDownQuiet(w);
      ShutDownEnough(w, Next(w, a));
  }

  lemma OpenHasCalls(w: World)
    requires Open(w) && (w.calls == [] ==> !w.initialized)
    ensures w.calls != []
  {
  }

  lemma ShutDownEnough(w: World, v: World)
    requires Enough(w) && w.calls != [] && !w.calls[0].Initializing? && v.attr == w.attr
    requires v.calls == w.calls + [ShuttingDown] && v.shutdown
    ensures Enough(v)
  {
    forall c | 0 < c < |v.calls| ensures !v.calls[c].Initializing? {
      if c < |w.calls| { assert v.calls[c] == w.calls[c]; }
    }
    assert v.calls[0] == w.calls[0];
  }

  lemma StepCalled(w: World, a: Action)
    requires Enabled(w, a) && (w.calls == [] ==> !w.initialized && !w.shutdown)
    ensures Next(w, a).calls == [] ==> !Next(w, a).initialized && !Next(w, a).shutdown
  {
    hide CallMoves, Loop, Returning, InitLoop, JobAdded, PersistentAdded, Resumed, JobRemoved, ShutDown, CanAllocate;
    match a
    case Init(created) =>
      InitMoves(w, w.(calls := [Refused]), 0, 0, created);
      MovesHas(w, Next(w, a), 0);
    case Top(i) => TopEnds(w, i);
    case Wake(i, timedOut) => LoopEnds(w, i, timedOut);
    case Add(priority, cell, created) => AddedFlags(w, priority, cell, created);
    case AddPersistent(priority, cell, created) => PersistentFlags(w, priority, cell, created);
    case Resume(c, cell, created) =>
      ResumedMoves(w, c, cell, created);
      if Next(w, a) != w {
        MovesHas(w, Next(w, a), c);
      }
    case Remove(id) => RemovedQuiet(w, id);
    case Shutdown => ShutDownQuiet(w);
    case _ =>
  }

  lemma MovesHas(w: World, v: World, c: nat)
    requires CallMoves(w, v, c)
    ensures v.calls != []
  {
  }

  lemma {:induction false} RunEnough(ws: seq<World>, as_: seq<Action>, i: nat)
    requires IsRun(ws, as_) && i < |ws| && Sensible(ws[0].attr)
    ensures Enough(ws[i]) && ws[i].attr == ws[0].attr
    ensures ws[i].calls == [] ==> !ws[i].initialized && !ws[i].shutdown
  {
    hide Next, Enabled, Enough;
    if i == 0 {
      StartEnough(ws[0].attr, ws[0].now);
    } else {
      RunEnough(ws, as_, i - 1);
      ThreadsCounted(ws, as_, i - 1);
      assert StepOk(ws, as_, i - 1);
      StepEnough(ws[i - 1], as_[i - 1]);
      StepCalled(ws[i - 1], as_[i - 1]);
      StepAttr(ws[i - 1], as_[i - 1]);
    }
  }

  lemma StartEnough(attr: Attr, now: int)
    ensures Enough(Start(attr, now))
  {
  }

  /** Between a successful initialisation and shutdown there are never fewer than the minimum. */
  lemma NeverTooFew(ws: seq<World>, as_: seq<Action>, i: nat)
    requires IsRun(ws, as_) && i < |ws| && Sensible(ws[0].attr)
    ensures ws[i].initialized && !ws[i].shutdown ==> Count(COUNTED, ws[i].workers) >= ws[0].attr.minThreads
  {
    hide Next, Enabled, IsRun, Count;
    RunEnough(ws, as_, i);
    ThreadsCounted(ws, as_, i);
  }
}
