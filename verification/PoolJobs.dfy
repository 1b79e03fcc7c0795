/** Jobs and job cells over every run: none is lost, run twice or shared. */
module PoolJobs {
  import opened PoolQueues
  import opened PoolMachine

  /** The tickets given out so far, each once. */
  function Upto(n: nat): multiset<nat> {
    if n == 0 then multiset{} else Upto(n - 1) + multiset{n - 1}
  }

  lemma {:induction false} UptoOnce(n: nat, t: nat)
    ensures Upto(n)[t] == if t < n then 1 else 0
  {
    if n > 0 {
      UptoOnce(n - 1, t);
    }
  }

  /** Where accepted jobs are: queued, in the slot, in a worker's hands, finished, removed, or
      discarded by shutdown. */
  function Accounts(w: World): multiset<nat> {
    QueueBag(TICKET, w.q) + SlotBag(TICKET, w.slot) + Hands(TICKET, w.workers)
    + w.finished + w.removed + w.discarded
  }

  ghost predicate JobsKept(w: World) {
    Accounts(w) == Upto(w.accepted) && w.runs == Hands(TICKET, w.workers) + w.finished
  }

  /** No cell is used twice. */
  ghost predicate CellsApart(w: World) {
    forall c :: Cells(w)[c] <= 1
  }

  /* ---- the workers ---- */

  function HandBag(key: Job -> nat, p: Worker): multiset<nat> {
    if p.Running? then multiset{key(p.job)} else multiset{}
  }

  function DoneBag(p: Worker): multiset<nat> {
    if p.AtTop? then SlotBag(CELL, p.done) else multiset{}
  }

  lemma Swap(m: multiset<nat>, a: multiset<nat>, x: multiset<nat>, b: multiset<nat>, y: multiset<nat>)
    requires a + x == b + y
    ensures (m + a) + x == (m + b) + y
  {
    assert (m + a) + x == m + (a + x);
    assert (m + b) + y == m + (b + y);
  }

  lemma HandsHead(key: Job -> nat, ws: seq<Worker>)
    requires ws != []
    ensures Hands(key, ws) == HandBag(key, ws[0]) + Hands(key, ws[1..])
  {
  }

  lemma {:induction false} HandsUpdate(key: Job -> nat, ws: seq<Worker>, i: nat, p: Worker)
    requires i < |ws|
    ensures Hands(key, ws[i := p]) + HandBag(key, ws[i]) == Hands(key, ws) + HandBag(key, p)
  {
    hide Hands, HandBag;
    var vs := ws[i := p];
    HandsHead(key, ws);
    HandsHead(key, vs);
    if i == 0 {
      assert vs[1..] == ws[1..];
    } else {
      HandsUpdate(key, ws[1..], i - 1, p);
      assert vs[1..] == ws[1..][i - 1 := p] && ws[1..][i - 1] == ws[i];
      Swap(HandBag(key, ws[0]), Hands(key, vs[1..]), HandBag(key, ws[i]), Hands(key, ws[1..]), HandBag(key, p));
    }
  }

  lemma {:induction false} HandsSpawned(key: Job -> nat, ws: seq<Worker>)
    ensures Hands(key, ws + [Starting]) == Hands(key, ws)
  {
    if ws == [] {
      assert ws + [Starting] == [Starting] && [Starting][1..] == [];
    } else {
      HandsSpawned(key, ws[1..]);
      assert (ws + [Starting])[1..] == ws[1..] + [Starting];
    }
  }

  lemma DoneHead(ws: seq<Worker>)
    requires ws != []
    ensures Done(ws) == DoneBag(ws[0]) + Done(ws[1..])
  {
  }

  lemma {:induction false} DoneUpdate(ws: seq<Worker>, i: nat, p: Worker)
    requires i < |ws|
    ensures Done(ws[i := p]) + DoneBag(ws[i]) == Done(ws) + DoneBag(p)
  {
    hide Done, DoneBag;
    var vs := ws[i := p];
    DoneHead(ws);
    DoneHead(vs);
    if i == 0 {
      assert vs[1..] == ws[1..];
    } else {
      DoneUpdate(ws[1..], i - 1, p);
      assert vs[1..] == ws[1..][i - 1 := p] && ws[1..][i - 1] == ws[i];
      Swap(DoneBag(ws[0]), Done(vs[1..]), DoneBag(ws[i]), Done(ws[1..]), DoneBag(p));
    }
  }

  lemma {:induction false} DoneSpawned(ws: seq<Worker>)
    ensures Done(ws + [Starting]) == Done(ws)
  {
    if ws == [] {
      assert ws + [Starting] == [Starting] && [Starting][1..] == [];
    } else {
      DoneSpawned(ws[1..]);
      assert (ws + [Starting])[1..] == ws[1..] + [Starting];
    }
  }

  lemma HandsReplaced(key: Job -> nat, ws: seq<Worker>, i: nat, p: Worker)
    requires i < |ws|
    ensures !ws[i].Running? && !p.Running? ==> Hands(key, ws[i := p]) == Hands(key, ws)
    ensures !ws[i].Running? && p.Running? ==> Hands(key, ws[i := p]) == Hands(key, ws) + multiset{key(p.job)}
    ensures ws[i].Running? && !p.Running? ==> Hands(key, ws) == Hands(key, ws[i := p]) + multiset{key(ws[i].job)}
  {
    HandsUpdate(key, ws, i, p);
    hide Hands;
    NoneAdded(Hands(key, ws));
    NoneAdded(Hands(key, ws[i := p]));
  }

  lemma NoneAdded(a: multiset<nat>)
    ensures a + multiset{} == a
  {
  }

  lemma DoneReplaced(ws: seq<Worker>, i: nat, p: Worker)
    requires i < |ws|
    ensures DoneBag(ws[i]) == multiset{} && DoneBag(p) == multiset{} ==> Done(ws[i := p]) == Done(ws)
    ensures DoneBag(ws[i]) == multiset{} ==> Done(ws[i := p]) == Done(ws) + DoneBag(p)
    ensures DoneBag(p) == multiset{} ==> Done(ws) == Done(ws[i := p]) + DoneBag(ws[i])
  {
    hide Done, DoneBag;
    DoneUpdate(ws, i, p);
    NoneAdded(Done(ws));
    NoneAdded(Done(ws[i := p]));
  }

  /** A worker that neither holds nor gets a job changes nothing. */
  lemma EmptyHanded(ws: seq<Worker>, i: nat, p: Worker)
    requires i < |ws| && HandBag(TICKET, ws[i]) == HandBag(TICKET, p) && HandBag(CELL, ws[i]) == HandBag(CELL, p)
    requires DoneBag(ws[i]) == DoneBag(p)
    ensures Hands(TICKET, ws[i := p]) == Hands(TICKET, ws) && Hands(CELL, ws[i := p]) == Hands(CELL, ws)
    ensures Done(ws[i := p]) == Done(ws)
  {
    HandsUpdate(TICKET, ws, i, p);
    HandsUpdate(CELL, ws, i, p);
    DoneUpdate(ws, i, p);
    Same(Hands(TICKET, ws[i := p]), Hands(TICKET, ws), HandBag(TICKET, p));
    Same(Hands(CELL, ws[i := p]), Hands(CELL, ws), HandBag(CELL, p));
    Same(Done(ws[i := p]), Done(ws), DoneBag(p));
  }

  lemma Same(a: multiset<nat>, b: multiset<nat>, x: multiset<nat>)
    requires a + x == b + x
    ensures a == b
  {
    forall e ensures a[e] == b[e] {
      assert (a + x)[e] == (b + x)[e];
    }
  }

  /* ---- steps that move no job ---- */

  /** Everything that counts jobs and cells is as it was. */
  ghost predicate NothingMoved(w: World, v: World) {
    && v.q == w.q && v.slot == w.slot && v.free == w.free && v.accepted == w.accepted
    && v.runs == w.runs && v.finished == w.finished && v.removed == w.removed && v.discarded == w.discarded
    && Hands(TICKET, v.workers) == Hands(TICKET, w.workers) && Hands(CELL, v.workers) == Hands(CELL, w.workers)
    && Done(v.workers) == Done(w.workers)
  }

  lemma NothingMovedKeeps(w: World, v: World)
    requires NothingMoved(w, v)
    ensures Accounts(v) == Accounts(w) && Cells(v) == Cells(w) && (JobsKept(w) ==> JobsKept(v))
  {
  }

  lemma SpawnedMovesNothing(w: World)
    ensures NothingMoved(w, Spawned(w))
  {
    HandsSpawned(TICKET, w.workers);
    HandsSpawned(CELL, w.workers);
    DoneSpawned(w.workers);
  }

  lemma InitMovesNothing(w: World, c: nat, started: int, created: bool)
    requires c < |w.calls|
    ensures NothingMoved(w, InitLoop(w, c, started, created))
  {
    SpawnedMovesNothing(w);
  }

  lemma AddLoopMovesNothing(w: World, c: nat, jobs: int, threads: nat, created: bool)
    requires c < |w.calls|
    ensures NothingMoved(w, AddLoop(w, c, jobs, threads, created))
  {
    SpawnedMovesNothing(w);
  }

  lemma LeftMovesNothing(w: World, i: nat)
    requires i < |w.workers| && w.workers[i].Waiting?
    ensures NothingMoved(w, Left(w, i))
  {
    EmptyHanded(w.workers, i, Gone);
  }

  /* ---- cells ---- */

  lemma FreeCellBag(free: seq<nat>, cell: nat)
    ensures multiset(FreeCell(free, cell)) <= multiset(free) + multiset{cell}
  {
  }

  lemma {:induction false} FreeAllBag(free: seq<nat>, jobs: seq<Job>)
    ensures multiset(FreeAll(free, jobs)) <= multiset(free) + Bag(CELL, jobs)
    decreases |jobs|
  {
    if jobs != [] {
      FreeCellBag(free, jobs[0].cell);
      FreeAllBag(FreeCell(free, jobs[0].cell), jobs[1..]);
      hide Bag, FreeAll, FreeCell;
      BagOne(jobs);
    }
  }

  lemma BagOne(jobs: seq<Job>)
    requires jobs != []
    ensures Bag(CELL, jobs) == multiset{jobs[0].cell} + Bag(CELL, jobs[1..])
  {
  }

  /** Fewer cells in use. */
  lemma FewerCells(w: World, v: World)
    requires CellsApart(w) && Cells(v) <= Cells(w)
    ensures CellsApart(v)
  {
    hide Cells;
    forall c ensures Cells(v)[c] <= 1 {
      assert Cells(w)[c] <= 1;
    }
  }

  ghost predicate Kept(w: World) {
    JobsKept(w) && CellsApart(w)
  }

  /* ---- accepting a job ---- */

  /** A cell is taken for a new job. */
  lemma CellTaken(m: multiset<nat>, free: seq<nat>, cell: nat)
    requires forall c :: (m + multiset(free))[c] <= 1
    requires if free != [] then cell == free[0] else cell !in m + multiset(free)
    ensures forall c :: ((m + multiset{cell}) + multiset(Rested(free)))[c] <= 1
  {
    var all, now := m + multiset(free), (m + multiset{cell}) + multiset(Rested(free));
    if free != [] {
      assert free == [free[0]] + free[1..];
      assert now == all;
    } else {
      forall c ensures now[c] <= 1 {
        assert all[c] <= 1;
      }
    }
  }

  /** The cells in use but for the free list. */
  function Used(w: World): multiset<nat> {
    QueueBag(CELL, w.q) + SlotBag(CELL, w.slot) + Hands(CELL, w.workers) + Done(w.workers)
  }

  lemma Accepts(w: World, v: World, cell: nat)
    requires Kept(w) && CanAllocate(w, cell)
    requires v.accepted == w.accepted + 1 && Accounts(v) == Accounts(w) + multiset{w.accepted}
    requires v.runs == w.runs && Hands(TICKET, v.workers) == Hands(TICKET, w.workers) && v.finished == w.finished
    requires Used(v) == Used(w) + multiset{cell} && v.free == Rested(w.free)
    ensures Kept(v)
  {
    hide Accounts, QueueBag, SlotBag, Hands, Done, Rested;
    UsedAndFree(w);
    UsedAndFree(v);
    hide Used, Cells;
    CellTaken(Used(w), w.free, cell);
  }

  lemma UsedAndFree(w: World)
    ensures Cells(w) == Used(w) + multiset(w.free)
  {
  }

  lemma JobQueuedKeeps(w: World, priority: Priority, cell: nat)
    requires Kept(w) && CanAllocate(w, cell)
    ensures Kept(JobQueued(w, priority, cell))
  {
    hide Kept, CanAllocate, Bag, QueueBag, SlotBag, Hands, Done, Rested, Enqueued;
    var job := NewJob(w, priority, cell);
    EnqueuedBag(TICKET, w.q, job);
    EnqueuedBag(CELL, w.q, job);
    Accepts(w, JobQueued(w, priority, cell), cell);
  }

  lemma PersistentPlacedKeeps(w: World, c: nat, priority: Priority, cell: nat)
    requires Kept(w) && CanAllocate(w, cell) && w.slot.NoJob? && c < |w.calls|
    ensures Kept(PersistentPlaced(w, c, priority, cell))
  {
    hide Kept, CanAllocate, Bag, QueueBag, Hands, Done, Rested;
    Accepts(w, PersistentPlaced(w, c, priority, cell), cell);
  }

  lemma MovesNothingKeeps(w: World, v: World)
    requires Kept(w) && NothingMoved(w, v)
    ensures Kept(v)
  {
    hide NothingMoved, Accounts, Cells;
    NothingMovedKeeps(w, v);
  }

  lemma JobAddedKeeps(w: World, priority: Priority, cell: nat, created: bool)
    requires Kept(w) && CanAllocate(w, cell)
    ensures Kept(JobAdded(w, priority, cell, created))
  {
    hide Kept, CanAllocate, AddLoop, NothingMoved;
    JobQueuedKeeps(w, priority, cell);
    var w0 := JobQueued(w, priority, cell);
    var w1 := w0.(calls := w.calls + [Refused]);
    CallsApart(w0, w1);
    MovesNothingKeeps(w0, w1);
    AddLoopMovesNothing(w1, |w.calls|, |w1.q.high| + |w1.q.low| + |w1.q.med|, Regular(w1), created);
    MovesNothingKeeps(w1, JobAdded(w, priority, cell, created));
  }

  /** What the calls are doing moves no job. */
  lemma CallsApart(w: World, v: World)
    requires v == w.(calls := v.calls)
    ensures NothingMoved(w, v) && forall cell :: CanAllocate(w, cell) ==> CanAllocate(v, cell)
  {
  }

  lemma PersistentAddedKeeps(w: World, priority: Priority, cell: nat, created: bool)
    requires Kept(w) && CanAllocate(w, cell) && w.slot.NoJob?
    ensures Kept(PersistentAdded(w, priority, cell, created))
  {
    hide Kept, CanAllocate, NothingMoved, PersistentPlaced;
    var w1 := w.(calls := w.calls + [Refused]);
    CallsApart(w, w1);
    MovesNothingKeeps(w, w1);
    PersistentPlacedKeeps(w1, |w.calls|, priority, cell);
    SpawnedMovesNothing(w1);
    MovesNothingKeeps(w1, Spawned(w1));
    var v := Answered(Spawned(w1), |w.calls|, AddingPersistent(priority, w.totalThreads + 1));
    CallsApart(Spawned(w1), v);
    MovesNothingKeeps(Spawned(w1), v);
  }

  lemma ResumedKeeps(w: World, c: nat, cell: nat, created: bool)
    requires Kept(w) && c < |w.calls|
    requires w.calls[c].AddingPersistent? ==> CanAllocate(w, cell) && w.slot.NoJob?
    ensures Kept(Resumed(w, c, cell, created))
  {
    hide Kept, CanAllocate, NothingMoved, PersistentPlaced, AddLoop, InitLoop;
    match w.calls[c]
    case Initializing(started, target) =>
      InitMovesNothing(w, c, started + 1, created);
      MovesNothingKeeps(w, InitLoop(w, c, started + 1, created));
    case Adding(jobs, threads, target) =>
      AddLoopMovesNothing(w, c, jobs, threads + 1, created);
      MovesNothingKeeps(w, AddLoop(w, c, jobs, threads + 1, created));
    case AddingPersistent(priority, target) =>
      PersistentPlacedKeeps(w, c, priority, cell);
    case Submitted =>
      var v := Answered(w, c, Returned(w.lastJobId)).(lastJobId := w.lastJobId + 1);
      IdsApart(w, v);
      MovesNothingKeeps(w, v);
    case ShuttingDown =>
      DestroyedKeeps(w, c);
    case _ =>
  }

  lemma IdsApart(w: World, v: World)
    requires v == w.(calls := v.calls, lastJobId := v.lastJobId)
    ensures NothingMoved(w, v)
  {
  }

  /** The free list is released in the end. */
  lemma DestroyedKeeps(w: World, c: nat)
    requires Kept(w) && c < |w.calls|
    ensures Kept(Answered(w, c, Returned(0)).(destroyed := true, free := []))
  {
    hide Bag, QueueBag, SlotBag, Hands, Done;
    var v := Answered(w, c, Returned(0)).(destroyed := true, free := []);
    assert Accounts(v) == Accounts(w);
    FewerCells(w, v);
  }

  /* ---- removing and discarding ---- */

  lemma JobRemovedKeeps(w: World, id: int)
    requires Kept(w)
    ensures Kept(JobRemoved(w, id))
  {
    hide Bag, QueueBag, Removed, FreeCell, SlotBag, Hands, Done;
    var r := Removed(w.q, w.slot, id);
    if r.Found? {
      var v := JobRemoved(w, id);
      RemovedBag(TICKET, w.q, w.slot, id);
      RemovedBag(CELL, w.q, w.slot, id);
      FreeCellBag(w.free, r.job.cell);
      RemovedAccounts(w, v, r.job.ticket);
      RemovedCells(w, v, r.job.cell);
      hide Accounts, Cells;
      FewerCells(w, v);
    }
  }

  lemma RemovedAccounts(w: World, v: World, t: nat)
    requires QueueBag(TICKET, w.q) + SlotBag(TICKET, w.slot) == (QueueBag(TICKET, v.q) + SlotBag(TICKET,
        v.slot)) + multiset{t}
    requires v.removed == w.removed + multiset{t} && v.workers == w.workers && v.finished == w.finished
    requires v.discarded == w.discarded
    ensures Accounts(v) == Accounts(w)
  {
    hide Bag, QueueBag, SlotBag, Hands;
  }

  lemma RemovedCells(w: World, v: World, cell: nat)
    requires QueueBag(CELL, w.q) + SlotBag(CELL, w.slot) == (QueueBag(CELL, v.q) + SlotBag(CELL,
        v.slot)) + multiset{cell}
    requires multiset(v.free) <= multiset(w.free) + multiset{cell} && v.workers == w.workers
    ensures Cells(v) <= Cells(w)
  {
    hide Bag, QueueBag, SlotBag, Hands, Done;
  }

  lemma ShutDownBag(key: Job -> nat, w: World)
    ensures Bag(key, w.q.high + w.q.med + w.q.low + SlotJobs(w.slot)) == QueueBag(key, w.q) + SlotBag(key, w.slot)
  {
    if w.slot.OneJob? {
      BagSingle(key, w.slot.job);
    }
    assert w.q.high + w.q.med + w.q.low + SlotJobs(w.slot) == ((w.q.high + w.q.med) + w.q.low) + SlotJobs(w.slot);
    BagAppend(key, w.q.high + w.q.med + w.q.low, SlotJobs(w.slot));
    BagAppend(key, w.q.high + w.q.med, w.q.low);
    BagAppend(key, w.q.high, w.q.med);
  }

  lemma NoBags(key: Job -> nat)
    ensures QueueBag(key, Queues([], [], [])) == multiset{} && SlotBag(key, NoJob) == multiset{}
  {
  }

  lemma ShutDownKeeps(w: World)
    requires Kept(w)
    ensures Kept(ShutDown(w))
  {
    hide Bag, QueueBag, SlotBag, Hands, Done, FreeAll;
    var v := ShutDown(w);
    var jobs := w.q.high + w.q.med + w.q.low + SlotJobs(w.slot);
    ShutDownBag(TICKET, w);
    ShutDownBag(CELL, w);
    NoBags(TICKET);
    NoBags(CELL);
    FreeAllBag(w.free, jobs);
    assert Accounts(v) == Accounts(w);
    DiscardedCells(w, v);
    hide Accounts, Cells;
    FewerCells(w, v);
  }

  lemma DiscardedCells(w: World, v: World)
    requires QueueBag(CELL, v.q) == multiset{} && SlotBag(CELL, v.slot) == multiset{} && v.workers == w.workers
    requires multiset(v.free) <= multiset(w.free) + (QueueBag(CELL, w.q) + SlotBag(CELL, w.slot))
    ensures Cells(v) <= Cells(w)
  {
    hide Bag, QueueBag, SlotBag, Hands, Done;
  }

  /* ---- workers ---- */

  lemma RegisteredKeeps(w: World, i: nat)
    requires Kept(w) && i < |w.workers| && w.workers[i].Starting?
    ensures Kept(Registered(w, i))
  {
    hide Kept, Hands, Done;
    EmptyHanded(w.workers, i, AtTop(NoJob, false));
    MovesNothingKeeps(w, Registered(w, i));
  }

  lemma FinishedKeeps(w: World, i: nat)
    requires Kept(w) && i < |w.workers| && w.workers[i].Running?
    ensures Kept(Finished(w, i))
  {
    hide Hands, Done, QueueBag, Bag, SlotBag;
    var r, v := w.workers[i], Finished(w, i);
    var p := AtTop(OneJob(r.job), r.persistent);
    HandsReplaced(TICKET, w.workers, i, p);
    HandsReplaced(CELL, w.workers, i, p);
    DoneReplaced(w.workers, i, p);
    DoneOne(p, r.job);
    DoneNone(r);
    FinishedSums(w, v, r.job);
  }

  lemma DoneOne(p: Worker, job: Job)
    requires p.AtTop? && p.done == OneJob(job)
    ensures DoneBag(p) == multiset{job.cell}
  {
  }

  lemma DoneNone(p: Worker)
    requires !p.AtTop? || p.done.NoJob?
    ensures DoneBag(p) == multiset{}
  {
  }

  lemma FinishedSums(w: World, v: World, job: Job)
    requires Kept(w) && v.q == w.q && v.slot == w.slot && v.free == w.free
    requires v.accepted == w.accepted && v.removed == w.removed && v.discarded == w.discarded && v.runs == w.runs
    requires v.finished == w.finished + multiset{job.ticket}
    requires Hands(TICKET, w.workers) == Hands(TICKET, v.workers) + multiset{job.ticket}
    requires Hands(CELL, w.workers) == Hands(CELL, v.workers) + multiset{job.cell}
    requires Done(v.workers) == Done(w.workers) + multiset{job.cell}
    ensures Kept(v)
  {
    hide Hands, Done, QueueBag, Bag, SlotBag;
    assert Accounts(v) == Accounts(w);
    assert Cells(v) == Cells(w);
  }

  lemma ReturningKeeps(w: World, i: nat)
    requires Kept(w) && i < |w.workers| && w.workers[i].AtTop?
    ensures Kept(Returning(w, i))
  {
    hide Kept, Hands, Done, QueueBag, Bag, FreeCell;
    var t, v := w.workers[i], Returning(w, i);
    HandsReplaced(TICKET, w.workers, i, Waiting);
    HandsReplaced(CELL, w.workers, i, Waiting);
    DoneReplaced(w.workers, i, Waiting);
    DoneNone(Waiting);
    if t.done.OneJob? {
      FreeCellBag(w.free, t.done.job.cell);
    }
    ReturningSums(w, v, DoneBag(t));
  }

  lemma ReturningSums(w: World, v: World, given: multiset<nat>)
    requires Kept(w) && v.q == w.q && v.slot == w.slot && v.finished == w.finished
    requires v.accepted == w.accepted && v.removed == w.removed && v.discarded == w.discarded && v.runs == w.runs
    requires Hands(TICKET, v.workers) == Hands(TICKET, w.workers) && Hands(CELL, v.workers) == Hands(CELL, w.workers)
    requires Done(w.workers) == Done(v.workers) + given && multiset(v.free) <= multiset(w.free) + given
    ensures Kept(v)
  {
    hide Hands, Done, QueueBag, Bag, SlotBag;
    assert Accounts(v) == Accounts(w);
    assert Cells(v) <= Cells(w);
    hide Accounts, Cells;
    FewerCells(w, v);
  }

  lemma BumpedKeeps(w: World)
    requires Kept(w)
    ensures Kept(w.(q := Bumped(w.q, w.attr, w.now)))
  {
    hide Bag, QueueBag, Bumped, Hands, Done, Fixed;
    TicketAndCellFixed();
    BumpedBag(TICKET, w.q, w.attr, w.now);
    BumpedBag(CELL, w.q, w.attr, w.now);
    var v := w.(q := Bumped(w.q, w.attr, w.now));
    assert Accounts(v) == Accounts(w);
    assert Cells(v) == Cells(w);
  }

  /** A job passes from the queues or the slot into the hands of a waiting worker. */
  lemma PickedKeeps(w: World, i: nat, job: Job, persistent: bool, v: World)
    requires Kept(w) && i < |w.workers| && w.workers[i].Waiting?
    requires v.workers == w.workers[i := Running(job, persistent)] && v.runs == w.runs + multiset{job.ticket}
    requires QueueBag(TICKET, w.q) + SlotBag(TICKET, w.slot)
             == (QueueBag(TICKET, v.q) + SlotBag(TICKET, v.slot)) + multiset{job.ticket}
    requires QueueBag(CELL, w.q) + SlotBag(CELL, w.slot)
             == (QueueBag(CELL, v.q) + SlotBag(CELL, v.slot)) + multiset{job.cell}
    requires v.free == w.free && v.accepted == w.accepted && v.finished == w.finished && v.removed == w.removed
    requires v.discarded == w.discarded
    ensures Kept(v)
  {
    hide Hands, Done, QueueBag, SlotBag, Bag, Kept;
    HandsReplaced(TICKET, w.workers, i, Running(job, persistent));
    HandsReplaced(CELL, w.workers, i, Running(job, persistent));
    DoneReplaced(w.workers, i, Running(job, persistent));
    PickedSums(w, v, job.ticket, job.cell);
  }

  lemma PickedSums(w: World, v: World, ticket: nat, cell: nat)
    requires Kept(w) && v.runs == w.runs + multiset{ticket}
    requires QueueBag(TICKET, w.q) + SlotBag(TICKET, w.slot)
             == (QueueBag(TICKET, v.q) + SlotBag(TICKET, v.slot)) + multiset{ticket}
    requires QueueBag(CELL, w.q) + SlotBag(CELL, w.slot)
             == (QueueBag(CELL, v.q) + SlotBag(CELL, v.slot)) + multiset{cell}
    requires Hands(TICKET, v.workers) == Hands(TICKET, w.workers) + multiset{ticket}
    requires Hands(CELL, v.workers) == Hands(CELL, w.workers) + multiset{cell} && Done(v.workers) == Done(w.workers)
    requires v.free == w.free && v.accepted == w.accepted && v.finished == w.finished && v.removed == w.removed
    requires v.discarded == w.discarded
    ensures Kept(v)
  {
    hide Hands, Done, QueueBag, SlotBag, Bag;
    assert Accounts(v) == Accounts(w);
    assert Cells(v) == Cells(w);
  }

  lemma ProceedKeeps(w: World, i: nat)
    requires Kept(w) && i < |w.workers| && w.workers[i].Waiting?
    ensures Kept(Proceed(w, i))
  {
    hide Kept, Bumped, NothingMoved, NonEmpty, Rest, First, SlotBag, Bag, QueueBag;
    var w1 := w.(q := Bumped(w.q, w.attr, w.now));
    BumpedKeeps(w);
    if w.shutdown {
      LeftMovesNothing(w1, i);
      MovesNothingKeeps(w1, Left(w1, i));
    } else if w.slot.OneJob? {
      OfferedKeeps(w1, i);
    } else if NonEmpty(w1.q) {
      FirstKeeps(w1, i);
    } else {
      LeftMovesNothing(w1, i);
      MovesNothingKeeps(w1, Left(w1, i));
    }
  }

  /** The persistent job on offer is taken. */
  lemma OfferedKeeps(w: World, i: nat)
    requires Kept(w) && i < |w.workers| && w.workers[i].Waiting? && w.slot.OneJob?
    ensures Kept(Picked(w, i, w.slot.job, true).(slot := NoJob, persistentThreads := w.persistentThreads + 1))
  {
    hide Kept, Bag, QueueBag;
    PickedKeeps(w, i, w.slot.job, true,
                Picked(w, i, w.slot.job, true).(slot := NoJob, persistentThreads := w.persistentThreads + 1));
  }

  /** The first job queued is taken. */
  lemma FirstKeeps(w: World, i: nat)
    requires Kept(w) && i < |w.workers| && w.workers[i].Waiting? && NonEmpty(w.q)
    ensures Kept(Picked(w, i, First(w.q), false).(q := Rest(w.q)))
  {
    hide Kept, Bag, QueueBag, Rest, First, SlotBag;
    RestBag(TICKET, w.q);
    RestBag(CELL, w.q);
    PickedKeeps(w, i, First(w.q), false, Picked(w, i, First(w.q), false).(q := Rest(w.q)));
  }

  lemma LoopKeeps(w: World, i: nat, timedOut: bool)
    requires Kept(w) && i < |w.workers| && w.workers[i].Waiting?
    ensures Kept(Loop(w, i, timedOut))
  {
    hide Kept, Proceed, NothingMoved;
    ProceedKeeps(w, i);
    LeftMovesNothing(w, i);
    MovesNothingKeeps(w, Left(w, i));
    assert w.workers[i := Waiting] == w.workers;
  }

  /* ---- every run ---- */

  lemma StepKeeps(w: World, a: Action)
    requires Kept(w) && Enabled(w, a)
    ensures Kept(Next(w, a))
  {
    hide Kept, CanAllocate, Loop, Returning, Finished, Registered, JobAdded, PersistentAdded, Resumed, JobRemoved,
         ShutDown, InitLoop, NothingMoved;
    match a
    case Tick(to) =>
      TickMovesNothing(w, to);
      MovesNothingKeeps(w, w.(now := to));
    case Init(created) =>
      var w1 := w.(calls := [Refused]);
      CallsApart(w, w1);
      MovesNothingKeeps(w, w1);
      InitMovesNothing(w1, 0, 0, created);
      MovesNothingKeeps(w1, InitLoop(w1, 0, 0, created));
    case Register(i) => RegisteredKeeps(w, i);
    case Top(i) =>
      ReturningKeeps(w, i);
      ReturningWaits(w, i);
      LoopKeeps(Returning(w, i), i, false);
    case Wake(i, timedOut) => LoopKeeps(w, i, timedOut);
    case Finish(i) => FinishedKeeps(w, i);
    case Add(priority, cell, created) => JobAddedKeeps(w, priority, cell, created);
    case AddPersistent(priority, cell, created) => PersistentAddedKeeps(w, priority, cell, created);
    case Resume(c, cell, created) => ResumedKeeps(w, c, cell, created);
    case Remove(id) => JobRemovedKeeps(w, id);
    case Shutdown => ShutDownKeeps(w);
  }

  lemma TickMovesNothing(w: World, to: int)
    ensures NothingMoved(w, w.(now := to))
  {
  }

  lemma ReturningWaits(w: World, i: nat)
    requires i < |w.workers| && w.workers[i].AtTop?
    ensures i < |Returning(w, i).workers| && Returning(w, i).workers[i].Waiting?
  {
  }

  lemma StartKept(attr: Attr, now: int)
    ensures Kept(Start(attr, now))
  {
    var w := Start(attr, now);
    NoBags(TICKET);
    NoBags(CELL);
    assert Cells(w) == multiset{};
  }

  lemma {:induction false} RunKeeps(ws: seq<World>, as_: seq<Action>, i: nat)
    requires IsRun(ws, as_) && i < |ws|
    ensures Kept(ws[i])
  {
    if i == 0 {
      StartKept(ws[0].attr, ws[0].now);
    } else {
      RunKeeps(ws, as_, i - 1);
      assert StepOk(ws, as_, i - 1);
      StepKeeps(ws[i - 1], as_[i - 1]);
    }
    hide Kept, Next, Enabled;
  }

  /** In every state of every run each accepted job is in exactly one place, is run at most once,
      and shares its cell with no other job and with no free cell. */
  lemma ExactlyOnePlace(ws: seq<World>, as_: seq<Action>, i: nat, t: nat)
    requires IsRun(ws, as_) && i < |ws|
    ensures var w := ws[i];
            && QueueBag(TICKET, w.q)[t] + SlotBag(TICKET, w.slot)[t] + Hands(TICKET, w.workers)[t]
               + w.finished[t] + w.removed[t] + w.discarded[t] == (if t < w.accepted then 1 else 0)
            && w.runs[t] == Hands(TICKET, w.workers)[t] + w.finished[t] <= 1
    ensures forall c :: Cells(ws[i])[c] <= 1
  {
    RunKeeps(ws, as_, i);
    UptoOnce(ws[i].accepted, t);
    var w := ws[i];
    hide QueueBag, SlotBag, Hands, Cells, IsRun, Upto;
    assert Accounts(w)[t] == QueueBag(TICKET, w.q)[t] + SlotBag(TICKET, w.slot)[t] + Hands(TICKET, w.workers)[t]
                             + w.finished[t] + w.removed[t] + w.discarded[t];
  }
}
