/** How long jobs wait, over every run of the pool with a clock that does not go back. */
module PoolTimes {
  import opened PoolQueues
  import opened PoolMachine
  import opened PoolJobs

  ghost predicate Ordered(w: World) {
    InOrder(w.q, w.now)
  }

  /** The step in which a worker stops waiting, so that starved jobs have been moved up. */
  predicate Bumps(w: World, a: Action)
    requires Enabled(w, a)
  {
    || (a.Wake? && !Idle(w))
    || (a.Top? && !Idle(Returning(w, a.worker)))
  }

  /** The worker of the step begins to run a job from the queues. */
  predicate TakesQueued(w: World, a: Action)
    requires Enabled(w, a)
  {
    Bumps(w, a) && !w.shutdown && w.slot.NoJob?
  }

  lemma ProceedOrdered(w: World, i: nat)
    requires Ordered(w) && i < |w.workers|
    ensures Ordered(Proceed(w, i)) && NoneStarves(Proceed(w, i).q, w.attr, w.now)
  {
    hide Bumped;
    var q := Bumped(w.q, w.attr, w.now);
    BumpedFeeds(w.q, w.attr, w.now);
    if NonEmpty(q) {
      RestInOrder(q, w.now);
      RestFed(q, w.attr, w.now);
    }
    hide InOrder, NoneStarves, Rest;
  }

  lemma RestFed(q: Queues, attr: Attr, now: int)
    requires NoneStarves(q, attr, now) && NonEmpty(q)
    ensures NoneStarves(Rest(q), attr, now)
  {
  }

  lemma LoopOrdered(w: World, i: nat, timedOut: bool)
    requires Ordered(w) && i < |w.workers|
    ensures Ordered(Loop(w, i, timedOut))
    ensures !Idle(w) ==> NoneStarves(Loop(w, i, timedOut).q, w.attr, w.now)
  {
    hide Proceed, InOrder, NoneStarves;
    ProceedOrdered(w, i);
  }

  lemma JobAddedOrdered(w: World, priority: Priority, cell: nat, created: bool)
    requires Ordered(w)
    ensures Ordered(JobAdded(w, priority, cell, created))
  {
    EnqueuedInOrder(w.q, NewJob(w, priority, cell), w.now);
    hide InOrder, Enqueued;
  }

  lemma StepOrdered(w: World, a: Action)
    requires Ordered(w) && Enabled(w, a)
    ensures Ordered(Next(w, a))
    ensures Bumps(w, a) ==> NoneStarves(Next(w, a).q, w.attr, w.now)
  {
    hide InOrder, NoneStarves, Loop, JobAdded, Removed, CanAllocate, NonEmpty;
    match a
    case Tick(to) => LaterInOrder(w.q, w.now, to);
    case Top(i) => LoopOrdered(Returning(w, i), i, false);
    case Wake(i, timedOut) => LoopOrdered(w, i, timedOut);
    case Add(priority, cell, created) => JobAddedOrdered(w, priority, cell, created);
    case Remove(id) => RemovedInOrder(w.q, w.slot, id, w.now);
    case Shutdown => NoneInOrder(w.now);
    case _ => OtherQueues(w, a);
  }

  lemma NoneInOrder(now: int)
    ensures InOrder(Queues([], [], []), now)
  {
  }

  lemma OtherQueues(w: World, a: Action)
    requires Enabled(w, a) && (a.Init? || a.Register? || a.Finish? || a.AddPersistent? || a.Resume?)
    ensures Next(w, a).q == w.q && Next(w, a).now == w.now && Next(w, a).attr == w.attr
  {
    hide InitLoop, PersistentAdded, Resumed, CanAllocate;
    match a
    case Init(created) => InitQueues(w.(calls := [Refused]), 0, 0, created);
    case AddPersistent(priority, cell, created) => PersistentQueues(w, priority, cell, created);
    case Resume(c, cell, created) => ResumedQueues(w, c, cell, created);
    case _ =>
  }

  lemma InitQueues(w: World, c: nat, started: int, created: bool)
    requires c < |w.calls|
    ensures var v := InitLoop(w, c, started, created); v.q == w.q && v.now == w.now && v.attr == w.attr
  {
  }

  lemma PersistentQueues(w: World, priority: Priority, cell: nat, created: bool)
    ensures var v := PersistentAdded(w, priority, cell, created); v.q == w.q && v.now == w.now && v.attr == w.attr
  {
  }

  lemma ResumedQueues(w: World, c: nat, cell: nat, created: bool)
    requires c < |w.calls|
    ensures var v := Resumed(w, c, cell, created); v.q == w.q && v.now == w.now && v.attr == w.attr
  {
    hide AddLoop, InitLoop, Rested;
    match w.calls[c]
    case Initializing(started, target) => InitQueues(w, c, started + 1, created);
    case Adding(jobs, threads, target) => AddQueues(w, c, jobs, threads + 1, created);
    case _ =>
  }

  lemma AddQueues(w: World, c: nat, jobs: int, threads: nat, created: bool)
    requires c < |w.calls|
    ensures var v := AddLoop(w, c, jobs, threads, created); v.q == w.q && v.now == w.now && v.attr == w.attr
  {
  }

  lemma {:induction false} RunOrdered(ws: seq<World>, as_: seq<Action>, i: nat)
    requires IsRun(ws, as_) && i < |ws|
    ensures Ordered(ws[i])
  {
    hide Next, Enabled, InOrder;
    if i == 0 {
      NoneInOrder(ws[0].now);
    } else {
      RunOrdered(ws, as_, i - 1);
      assert StepOk(ws, as_, i - 1);
      StepOrdered(ws[i - 1], as_[i - 1]);
    }
  }

  /** Bounded starvation: right after starved jobs were moved up no job in the low queue has waited
      the idle time, and none in the medium queue has been there for the starvation time. */
  lemma BoundedStarvation(ws: seq<World>, as_: seq<Action>, i: nat)
    requires IsRun(ws, as_) && i < |as_| && Enabled(ws[i], as_[i]) && Bumps(ws[i], as_[i])
    ensures var q, attr, now := ws[i + 1].q, ws[i].attr, ws[i].now;
            && (forall j :: j in q.low ==> now - j.requestTime < attr.maxIdleTime)
            && (forall j :: j in q.med ==> now - j.entered < attr.starvationTime)
  {
    hide Next, Enabled, InOrder, Bumps;
    RunOrdered(ws, as_, i);
    assert StepOk(ws, as_, i);
    StepOrdered(ws[i], as_[i]);
  }

  /* ---- first in, first out ---- */

  /** One job is taken out of a queue. */
  ghost predicate CutFrom(s: seq<Job>, t: seq<Job>) {
    exists i :: 0 <= i < |s| && Cut(s, i) == t
  }

  lemma ProceedFifo(w: World, i: nat)
    requires i < |w.workers|
    ensures var v := Proceed(w, i);
            if !w.shutdown && w.slot.NoJob? && w.q.high != [] then
              && v.workers == w.workers[i := Running(w.q.high[0], false)]
              && v.runs == w.runs + multiset{w.q.high[0].ticket}
              && w.q.high[1..] <= v.q.high
            else w.q.high <= v.q.high
  {
    BumpedKeepsHigh(w.q, w.attr, w.now);
    hide Bumped;
    var q := Bumped(w.q, w.attr, w.now);
    if w.q.high != [] {
      assert q.high[0] == w.q.high[0];
      assert w.q.high[1..] <= q.high[1..];
    }
  }

  lemma LoopFifo(w: World, i: nat, timedOut: bool)
    requires i < |w.workers|
    ensures var v := Loop(w, i, timedOut);
            if !Idle(w) && !w.shutdown && w.slot.NoJob? && w.q.high != [] then
              && v.workers == w.workers[i := Running(w.q.high[0], false)]
              && v.runs == w.runs + multiset{w.q.high[0].ticket}
              && w.q.high[1..] <= v.q.high
            else w.q.high <= v.q.high
  {
    hide Proceed;
    ProceedFifo(w, i);
  }

  /** A worker that takes a queued job takes the oldest of the high queue, and otherwise they stay in
      place, but for a job that is removed or a shutdown. */
  lemma StepFifo(w: World, a: Action)
    requires Enabled(w, a) && !a.Shutdown?
    ensures var v, h := Next(w, a), w.q.high;
            if TakesQueued(w, a) && h != [] then
              && v.workers == w.workers[a.worker := Running(h[0], false)]
              && v.runs == w.runs + multiset{h[0].ticket}
              && h[1..] <= v.q.high
            else h <= v.q.high || (a.Remove? && CutFrom(h, v.q.high))
  {
    hide Loop, JobAdded, JobRemoved, CanAllocate, NonEmpty, Bumped, Returning, Idle;
    match a
    case Tick(to) =>
    case Top(i) => TopFifo(w, i);
    case Wake(i, timedOut) => LoopFifo(w, i, timedOut);
    case Add(priority, cell, created) => AddedFifo(w, priority, cell, created);
    case Remove(id) => RemovedFifo(w, id);
    case _ =>
      OtherQueues(w, a);
      hide Next;
  }

  lemma TopFifo(w: World, i: nat)
    requires i < |w.workers| && w.workers[i].AtTop?
    ensures var v := Loop(Returning(w, i), i, false);
            if !Idle(Returning(w, i)) && !w.shutdown && w.slot.NoJob? && w.q.high != [] then
              && v.workers == w.workers[i := Running(w.q.high[0], false)]
              && v.runs == w.runs + multiset{w.q.high[0].ticket}
              && w.q.high[1..] <= v.q.high
            else w.q.high <= v.q.high
  {
    hide Loop, Idle, NonEmpty;
    LoopFifo(Returning(w, i), i, false);
    if w.q.high != [] {
      assert w.workers[i := Waiting][i := Running(w.q.high[0], false)] == w.workers[i := Running(w.q.high[0], false)];
    }
  }

  lemma AddedFifo(w: World, priority: Priority, cell: nat, created: bool)
    ensures w.q.high <= JobAdded(w, priority, cell, created).q.high
  {
  }

  lemma RemovedFifo(w: World, id: int)
    ensures var h, k := w.q.high, JobRemoved(w, id).q.high; k == h || CutFrom(h, k)
  {
  }

  /* ---- over every run ---- */

  lemma {:induction false} InBag(key: Job -> nat, s: seq<Job>, i: nat)
    requires i < |s|
    ensures Bag(key, s)[key(s[i])] >= 1
  {
    if i > 0 {
      InBag(key, s[1..], i - 1);
    }
  }

  lemma {:induction false} TwiceInBag(key: Job -> nat, s: seq<Job>, i: nat, j: nat)
    requires i < j < |s| && key(s[i]) == key(s[j])
    ensures Bag(key, s)[key(s[i])] >= 2
  {
    if i > 0 {
      TwiceInBag(key, s[1..], i - 1, j - 1);
    } else {
      InBag(key, s[1..], j - 1);
    }
  }

  lemma {:induction false} InHands(key: Job -> nat, ws: seq<Worker>, i: nat)
    requires i < |ws| && ws[i].Running?
    ensures Hands(key, ws)[key(ws[i].job)] >= 1
  {
    if i > 0 {
      InHands(key, ws[1..], i - 1);
    }
  }

  /** A job is in one place of the high queue only, and not there while it runs. */
  lemma OncePlaced(w: World, i: nat)
    requires JobsKept(w) && i < |w.q.high|
    ensures forall j :: 0 <= j < |w.q.high| && w.q.high[j].ticket == w.q.high[i].ticket ==> j == i
    ensures forall k :: 0 <= k < |w.workers| && w.workers[k].Running? ==> w.workers[k].job.ticket != w.q.high[i].ticket
  {
    var h, t := w.q.high, w.q.high[i].ticket;
    hide Bag, Hands;
    assert Accounts(w)[t] >= Bag(TICKET, h)[t] + Hands(TICKET, w.workers)[t];
    UptoOnce(w.accepted, t);
    InBag(TICKET, h, i);
    forall j | 0 <= j < |h| && h[j].ticket == t ensures j == i {
      if j < i {
        TwiceInBag(TICKET, h, j, i);
      } else if i < j {
        TwiceInBag(TICKET, h, i, j);
      }
    }
    forall k | 0 <= k < |w.workers| && w.workers[k].Running? ensures w.workers[k].job.ticket != t {
      InHands(TICKET, w.workers, k);
    }
  }

  /** The jobs in front of one that stays in the high queue were in front of it before the step. */
  lemma StepAhead(w: World, a: Action, r: nat, q: nat)
    requires JobsKept(w) && Enabled(w, a) && JobsKept(Next(w, a)) && !a.Shutdown?
    requires r < |w.q.high| && q < |Next(w, a).q.high| && Next(w, a).q.high[q] == w.q.high[r]
    ensures q <= r && forall x :: 0 <= x < q ==> Next(w, a).q.high[x] in w.q.high[..r]
    ensures TakesQueued(w, a) ==> r > 0
  {
    hide JobsKept, Enabled, TakesQueued, Next, CutFrom;
    var v, h := Next(w, a), w.q.high;
    StepFifo(w, a);
    OncePlaced(w, r);
    OncePlaced(v, q);
    if TakesQueued(w, a) {
      TakenBy(w, a);
      TookFirst(w, v, a.worker, r, q);
    } else if h <= v.q.high {
      assert v.q.high[r] == h[r];
    } else {
      CutAhead(h, v.q.high, r, q);
    }
  }

  lemma TookFirst(w: World, v: World, i: nat, r: nat, q: nat)
    requires r < |w.q.high| && q < |v.q.high| && v.q.high[q] == w.q.high[r] && i < |w.workers|
    requires v.workers == w.workers[i := Running(w.q.high[0], false)] && w.q.high[1..] <= v.q.high
    requires forall j :: 0 <= j < |v.q.high| && v.q.high[j].ticket == v.q.high[q].ticket ==> j == q
    requires forall k ::
      0 <= k < |v.workers| && v.workers[k].Running? ==> v.workers[k].job.ticket != v.q.high[q].ticket
    ensures r > 0 && q <= r && forall x :: 0 <= x < q ==> v.q.high[x] in w.q.high[..r]
  {
    assert v.workers[i] == Running(w.q.high[0], false);
    assert r > 0;
    assert v.q.high[r - 1] == w.q.high[1..][r - 1] == w.q.high[r];
    forall x | 0 <= x < q ensures v.q.high[x] in w.q.high[..r] {
      assert v.q.high[x] == w.q.high[1..][x] == w.q.high[x + 1];
    }
  }

  lemma CutAhead(h: seq<Job>, k: seq<Job>, r: nat, q: nat)
    requires CutFrom(h, k) && r < |h| && q < |k| && k[q] == h[r]
    requires forall j :: 0 <= j < |h| && h[j].ticket == h[r].ticket ==> j == r
    ensures q <= r && forall x :: 0 <= x < q ==> k[x] in h[..r]
  {
    var i :| 0 <= i < |h| && Cut(h, i) == k;
    assert k[q] == h[if q < i then q else q + 1];
    forall x | 0 <= x < q ensures k[x] in h[..r] {
      assert k[x] == h[if x < i then x else x + 1];
    }
  }

  lemma {:induction false} Ahead(ws: seq<World>, as_: seq<Action>, m: nat, n: nat, p: nat, q: nat)
    requires IsRun(ws, as_) && m <= n < |ws| && p < |ws[m].q.high| && q < |ws[n].q.high|
    requires forall l :: m <= l <= n ==> ws[m].q.high[p] in ws[l].q.high
    requires ws[n].q.high[q] == ws[m].q.high[p]
    ensures forall x :: 0 <= x < q ==> ws[n].q.high[x] in ws[m].q.high[..p]
  {
    hide Next, Enabled, JobsKept, CellsApart;
    RunKeeps(ws, as_, n);
    if m == n {
      OncePlaced(ws[n], q);
    } else {
      assert ws[m].q.high[p] in ws[n - 1].q.high;
      var r: nat :| r < |ws[n - 1].q.high| && ws[n - 1].q.high[r] == ws[m].q.high[p];
      Ahead(ws, as_, m, n - 1, p, r);
      RunKeeps(ws, as_, n - 1);
      assert StepOk(ws, as_, n - 1);
      EmptiedBy(ws[n - 1], as_[n - 1]);
      StepAhead(ws[n - 1], as_[n - 1], r, q);
    }
  }

  lemma EmptiedBy(w: World, a: Action)
    requires Enabled(w, a)
    ensures a.Shutdown? ==> Next(w, a).q.high == []
  {
  }

  /** Jobs in the high queue are never overtaken: while one of them stays there, every job a worker
      takes from the queues was in front of it from the start. */
  lemma HighNeverOvertaken(ws: seq<World>, as_: seq<Action>, m: nat, n: nat, p: nat)
    requires IsRun(ws, as_) && m <= n < |as_| && p < |ws[m].q.high|
    requires forall l :: m <= l <= n + 1 ==> ws[m].q.high[p] in ws[l].q.high
    requires Enabled(ws[n], as_[n]) && TakesQueued(ws[n], as_[n])
    ensures var i := as_[n].worker;
            && i < |ws[n + 1].workers| && ws[n + 1].workers[i].Running? && !ws[n + 1].workers[i].persistent
            && var taken := ws[n + 1].workers[i].job;
               ws[n + 1].runs == ws[n].runs + multiset{taken.ticket} && taken in ws[m].q.high[..p]
  {
    hide Next, JobsKept, CellsApart, Enabled;
    assert ws[m].q.high[p] in ws[n].q.high && ws[m].q.high[p] in ws[n + 1].q.high;
    var r: nat :| r < |ws[n].q.high| && ws[n].q.high[r] == ws[m].q.high[p];
    var q: nat :| q < |ws[n + 1].q.high| && ws[n + 1].q.high[q] == ws[m].q.high[p];
    Ahead(ws, as_, m, n, p, r);
    RunKeeps(ws, as_, n);
    RunKeeps(ws, as_, n + 1);
    assert StepOk(ws, as_, n);
    StepAhead(ws[n], as_[n], r, q);
    StepFifo(ws[n], as_[n]);
    TakenBy(ws[n], as_[n]);
  }

  lemma TakenBy(w: World, a: Action)
    requires Enabled(w, a) && TakesQueued(w, a)
    ensures (a.Top? || a.Wake?) && a.worker < |w.workers|
  {
  }

  /** Once shutdown has begun no job begins to run, not even one added after that. */
  lemma {:induction false} NoneBeginsAfterShutdown(ws: seq<World>, as_: seq<Action>, i: nat, j: nat)
    requires IsRun(ws, as_) && i <= j < |ws| && ws[i].shutdown
    ensures ws[j].shutdown && ws[j].runs == ws[i].runs
  {
    hide Next, Enabled;
    if i < j {
      NoneBeginsAfterShutdown(ws, as_, i, j - 1);
      assert StepOk(ws, as_, j - 1);
      StepShut(ws[j - 1], as_[j - 1]);
    }
  }

  lemma StepShut(w: World, a: Action)
    requires Enabled(w, a) && w.shutdown
    ensures Next(w, a).shutdown && Next(w, a).runs == w.runs
  {
    hide InitLoop, PersistentAdded, Resumed, CanAllocate, JobAdded, Bumped, Removed, FreeCell;
    match a
    case Init(created) => InitShut(w.(calls := [Refused]), 0, 0, created);
    case Add(priority, cell, created) => AddedShut(w, priority, cell, created);
    case AddPersistent(priority, cell, created) => PersistentShut(w, priority, cell, created);
    case Resume(c, cell, created) => ResumedShut(w, c, cell, created);
    case _ =>
  }

  lemma InitShut(w: World, c: nat, started: int, created: bool)
    requires c < |w.calls|
    ensures var v := InitLoop(w, c, started, created); v.shutdown == w.shutdown && v.runs == w.runs
  {
  }

  lemma AddedShut(w: World, priority: Priority, cell: nat, created: bool)
    ensures var v := JobAdded(w, priority, cell, created); v.shutdown == w.shutdown && v.runs == w.runs
  {
    hide Enqueued, Rested;
  }

  lemma PersistentShut(w: World, priority: Priority, cell: nat, created: bool)
    ensures var v := PersistentAdded(w, priority, cell, created); v.shutdown == w.shutdown && v.runs == w.runs
  {
    hide Rested;
  }

  lemma ResumedShut(w: World, c: nat, cell: nat, created: bool)
    requires c < |w.calls|
    ensures var v := Resumed(w, c, cell, created); v.shutdown == w.shutdown && v.runs == w.runs
  {
    hide AddLoop, InitLoop, Rested;
    match w.calls[c]
    case Initializing(started, target) => InitShut(w, c, started + 1, created);
    case Adding(jobs, threads, target) => AddLoopShut(w, c, jobs, threads + 1, created);
    case _ =>
  }

  lemma AddLoopShut(w: World, c: nat, jobs: int, threads: nat, created: bool)
    requires c < |w.calls|
    ensures var v := AddLoop(w, c, jobs, threads, created); v.shutdown == w.shutdown && v.runs == w.runs
  {
  }
}
