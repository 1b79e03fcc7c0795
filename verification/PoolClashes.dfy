/** Two jobs do get one id: for which pools some run has that. */
module PoolClashes {
  import opened PoolQueues
  import opened PoolMachine
  import opened PoolJobs
  import opened PoolWorkers
  import opened PoolLimits
  import opened PoolIds

  /** Some run of a pool with these attributes accepts two jobs under one id; `shut` tells whether it
      may be shut down on the way. */
  ghost predicate MayClash(attr: Attr, shut: bool) {
    exists ws, as_ :: ClashRun(ws, as_, attr, shut)
  }

  ghost predicate ClashRun(ws: seq<World>, as_: seq<Action>, attr: Attr, shut: bool) {
    && IsRun(ws, as_) && ws[0].attr == attr
    && (ws[|ws| - 1].shutdown ==> shut) && !Distinct(ws[|ws| - 1].ids)
  }

  lemma ReachedClash(attr: Attr, w: World, shut: bool)
    requires Reaches(attr, w) && !Distinct(w.ids) && (w.shutdown ==> shut)
    ensures MayClash(attr, shut)
  {
    hide IsRun, Distinct, AtMostTwo;
    var ws, as_ :| RunTo(ws, as_, attr, w);
    assert ClashRun(ws, as_, attr, shut);
  }

  /* ---- runs in which ids clash ---- */

  /** A job is added, and the call returns at once. */
  lemma AddsOne(attr: Attr, w: World) returns (v: World)
    requires Reaches(attr, w) && Open(w)
    ensures Reaches(attr, v) && Open(v) && v.shutdown == w.shutdown && v.attr == w.attr && v.slot == w.slot
    ensures v.ids == w.ids + [w.lastJobId] && v.totalThreads == w.totalThreads
    ensures v.persistentThreads == w.persistentThreads && |v.q.low| == |w.q.low| + 1
  {
    hide Reaches, CanAllocate, AtMostTwo, JobAdded;
    var cell := SomeCell(w);
    var a := Add(Low, cell, false);
    v := Next(w, a);
    AddedAlone(w, cell);
    InsideTwo(attr, w);
    SameInside(w, v);
    ReachesStep(attr, w, a);
  }

  lemma AddedAlone(w: World, cell: nat)
    ensures var v := JobAdded(w, Low, cell, false);
            && v.initialized == w.initialized && v.destroyed == w.destroyed && v.shutdown == w.shutdown
            && v.attr == w.attr && v.slot == w.slot && v.ids == w.ids + [w.lastJobId]
            && v.totalThreads == w.totalThreads && v.persistentThreads == w.persistentThreads
            && |v.q.low| == |w.q.low| + 1
            && |v.calls| == |w.calls| + 1 && v.calls == w.calls + [v.calls[|w.calls|]] && v.calls[|w.calls|].Returned?
  {
    hide Rested, Regular;
  }

  lemma SameInside(w: World, v: World)
    requires AtMostTwo(w) && |v.calls| == |w.calls| + 1
    requires v.calls == w.calls + [v.calls[|w.calls|]] && !InCreate(v.calls[|w.calls|])
    ensures AtMostTwo(v)
  {
    var c, d :| Inside(w, c, d);
    assert Inside(v, c, d);
  }

  /** A job added while the id of the last one is not counted gets that id. */
  lemma ClashNext(attr: Attr, w: World, shut: bool)
    requires Reaches(attr, w) && Open(w) && (w.shutdown ==> shut)
    requires w.ids != [] && w.ids[|w.ids| - 1] == w.lastJobId
    ensures MayClash(attr, shut)
  {
    hide Reaches, MayClash;
    var v := AddsOne(attr, w);
    assert v.ids[|w.ids| - 1] == v.ids[|w.ids|];
    ReachedClash(attr, v, shut);
  }

  /** A persistent job that is placed waits with its id not counted. */
  lemma ClashByPersistent(attr: Attr, w: World, shut: bool)
    requires Reaches(attr, w) && w.attr == attr && Open(w) && w.slot.NoJob? && (w.shutdown ==> shut)
    requires w.totalThreads < attr.maxThreads || w.totalThreads - w.persistentThreads - 1 != 0
    ensures MayClash(attr, shut)
  {
    hide Reaches, CanAllocate, AtMostTwo, MayClash;
    var cell := SomeCell(w);
    var a := AddPersistent(Low, cell, false);
    var w1 := w.(calls := w.calls + [Refused]);
    var v := Next(w, a);
    assert v == PersistentPlaced(w1, |w.calls|, Low, cell);
    InsideTwo(attr, w);
    SubmittedLast(w);
    SameInside(w, v);
    ReachesStep(attr, w, a);
    ClashNext(attr, v, shut);
  }

  lemma SubmittedLast(w: World)
    ensures (w.calls + [Refused])[|w.calls| := Submitted] == w.calls + [Submitted]
  {
  }

  /** One regular thread, with so many jobs already queued. */
  ghost predicate Loaded(w: World, attr: Attr, n: nat) {
    && w.attr == attr && Open(w) && !w.shutdown && w.totalThreads == 1 && w.persistentThreads == 0
    && |w.q.low| == n && NobodyInside(w)
  }

  lemma {:induction false} LoadsUp(attr: Attr, w: World, n: nat, m: nat) returns (v: World)
    requires Reaches(attr, w) && Loaded(w, attr, n) && n <= m
    ensures Reaches(attr, v) && Loaded(v, attr, m)
    decreases m - n
  {
    hide Reaches;
    v := w;
    if n < m {
      v := LoadsOne(attr, w, n);
      v := LoadsUp(attr, v, n + 1, m);
    }
  }

  lemma LoadsOne(attr: Attr, w: World, n: nat) returns (v: World)
    requires Reaches(attr, w) && Loaded(w, attr, n)
    ensures Reaches(attr, v) && Loaded(v, attr, n + 1)
  {
    hide Reaches, CanAllocate, AtMostTwo, JobAdded;
    var cell := SomeCell(w);
    var a := Add(Low, cell, false);
    v := Next(w, a);
    AddedAlone(w, cell);
    InsideTwo(attr, w);
    SameInside(w, v);
    ReachesStep(attr, w, a);
  }

  /** With no limit on threads and more jobs than one thread is to have, the caller that adds the next
      one waits for a new worker. */
  lemma ClashByAdding(attr: Attr, w: World, n: nat)
    requires Reaches(attr, w) && Loaded(w, attr, n) && n >= attr.jobsPerThread && attr.maxThreads == INFINITE_THREADS
    ensures MayClash(attr, false)
  {
    hide Reaches, CanAllocate, AtMostTwo, MayClash, JobAdded;
    var cell := SomeCell(w);
    var a := Add(Low, cell, true);
    var v := Next(w, a);
    AddedWaits(w, cell, n);
    OneInside(v, |w.calls|);
    ReachesStep(attr, w, a);
    ClashNext(attr, v, false);
  }

  lemma OneInside(w: World, c: nat)
    requires forall d {:trigger w.calls[d]} :: 0 <= d < |w.calls| && d != c ==> !InCreate(w.calls[d])
    ensures AtMostTwo(w)
  {
    assert Inside(w, c, c);
  }

  lemma AddedWaits(w: World, cell: nat, n: nat)
    requires Loaded(w, w.attr, n) && n >= w.attr.jobsPerThread && w.attr.maxThreads == INFINITE_THREADS
    ensures var v := JobAdded(w, Low, cell, true);
            && Open(v) && !v.shutdown && v.ids == w.ids + [w.lastJobId] && v.lastJobId == w.lastJobId
            && |v.calls| == |w.calls| + 1 && forall c :: 0 <= c < |w.calls| ==> v.calls[c] == w.calls[c]
  {
    hide Rested;
    var w1 := JobQueued(w, Low, cell).(calls := w.calls + [Refused]);
    var jobs := |w1.q.high| + |w1.q.low| + |w1.q.med|;
    assert Regular(w1) == 1 && jobs / 1 == jobs > w.attr.jobsPerThread;
  }

  /** A pool that has neither exactly one thread nor may have another one may clash. */
  lemma ClashUsually(attr: Attr)
    requires Sensible(attr) && !(attr.minThreads == attr.maxThreads == 1)
    ensures MayClash(attr, false)
  {
    hide Reaches, MayClash;
    ReachesBuilt(attr);
    var w := Built(attr, attr.minThreads);
    if attr.maxThreads == INFINITE_THREADS && attr.minThreads == 1 {
      var m := if attr.jobsPerThread > 0 then attr.jobsPerThread else 0;
      var v := LoadsUp(attr, w, 0, m);
      ClashByAdding(attr, v, m);
    } else {
      ClashByPersistent(attr, w, false);
    }
  }

  /** With one thread and no more allowed, shutdown makes room. */
  lemma ClashAfterShutdown(attr: Attr)
    requires Sensible(attr) && attr.minThreads == attr.maxThreads == 1
    ensures MayClash(attr, true)
  {
    hide Reaches, MayClash;
    ReachesBuilt(attr);
    var w := OneLess(attr);
    ClashByPersistent(attr, w, true);
  }

  /* ---- one thread and no more ---- */

  /** No persistent job was ever taken on, and no call waits with an id. */
  ghost predicate NothingWaits(w: World) {
    && w.slot.NoJob? && w.persistentThreads == 0
    && forall c {:trigger w.calls[c]} :: 0 <= c < |w.calls| ==> !Pending(w.calls[c])
  }

  /** The calls are as they were but for one, which does not wait with an id. */
  lemma StillNothing(w: World, v: World, c: nat)
    requires NothingWaits(w) && c <= |w.calls| && (|v.calls| == |w.calls| || |v.calls| == |w.calls| + 1)
    requires c < |v.calls| && !Pending(v.calls[c]) && v.slot.NoJob? && v.persistentThreads == 0
    requires forall d :: 0 <= d < |v.calls| && d != c ==> d < |w.calls| && v.calls[d] == w.calls[d]
    ensures NothingWaits(v)
  {
  }

  lemma SameNothing(w: World, v: World)
    requires NothingWaits(w) && v.calls == w.calls && v.slot.NoJob? && v.persistentThreads == 0
    ensures NothingWaits(v)
  {
  }

  /** The one thread allowed is there, or the pool is still being initialised. */
  ghost predicate OneThread(w: World) {
    && w.attr.minThreads == w.attr.maxThreads == 1 && OnlyInit(w) && Enough(w) && Threads(w)
    && !w.shutdown && w.totalThreads <= 1
  }

  lemma StepWaitsNot(w: World, a: Action)
    requires OneThread(w) && NothingWaits(w) && Enabled(w, a)
    ensures NothingWaits(Next(w, a))
  {
    hide NothingWaits, OnlyInit, Enough, Threads, Loop, Returning, InitLoop, JobAdded, PersistentAdded, Resumed,
         JobRemoved, ShutDown, CanAllocate;
    NoneOffered(w);
    match a
    case Init(created) => InitNothing(w, w.(calls := [Refused]), 0, 0, created);
    case Top(i) => TopNothing(w, i);
    case Wake(i, timedOut) => LoopNothing(w, i, timedOut);
    case Add(priority, cell, created) => AddedNothing(w, priority, cell, created);
    case AddPersistent(priority, cell, created) => PersistentRefused(w, priority, cell, created);
    case Resume(c, cell, created) => ResumedNothing(w, c, cell, created);
    case Remove(id) => RemovedNothing(w, id);
    case Shutdown => ShutDownNothing(w);
    case _ => SameNothing(w, Next(w, a));
  }

  lemma NoneOffered(w: World)
    requires NothingWaits(w)
    ensures w.slot.NoJob? && w.persistentThreads == 0
  {
  }

  lemma InitNothing(w: World, w1: World, c: nat, started: int, created: bool)
    requires NothingWaits(w) && w1 == w.(calls := w1.calls) && c < |w1.calls|
    requires w1.calls == w.calls || (w.calls == [] && w1.calls == [Refused])
    ensures NothingWaits(InitLoop(w1, c, started, created))
  {
  }

  lemma LoopNothing(w: World, i: nat, timedOut: bool)
    requires NothingWaits(w) && i < |w.workers|
    ensures NothingWaits(Loop(w, i, timedOut))
  {
    hide Bumped, NonEmpty, Rest, First;
  }

  lemma TopNothing(w: World, i: nat)
    requires OneThread(w) && NothingWaits(w) && i < |w.workers| && w.workers[i].AtTop?
    ensures i < |Returning(w, i).workers| && NothingWaits(Loop(Returning(w, i), i, false))
  {
    hide Loop, FreeCell, OnlyInit, Enough;
    if w.workers[i].persistent {
      CountUpdate(PERSISTENT, w.workers, i, Waiting);
    }
    hide Count;
    LoopNothing(Returning(w, i), i, false);
  }

  lemma AddedNothing(w: World, priority: Priority, cell: nat, created: bool)
    requires OneThread(w) && NothingWaits(w) && Open(w)
    ensures NothingWaits(JobAdded(w, priority, cell, created))
  {
    hide Enqueued, Rested, Regular, NothingWaits, OnlyInit, Threads;
    NoneOffered(w);
    StillNothing(w, JobAdded(w, priority, cell, created), |w.calls|);
  }

  lemma PersistentRefused(w: World, priority: Priority, cell: nat, created: bool)
    requires OneThread(w) && NothingWaits(w) && Open(w)
    ensures NothingWaits(PersistentAdded(w, priority, cell, created))
  {
    hide Rested, NothingWaits, OnlyInit, Threads;
    NoneOffered(w);
    StillNothing(w, PersistentAdded(w, priority, cell, created), |w.calls|);
  }

  lemma ResumedNothing(w: World, c: nat, cell: nat, created: bool)
    requires OneThread(w) && NothingWaits(w) && c < |w.calls|
    ensures NothingWaits(Resumed(w, c, cell, created))
  {
    hide InitLoop, AddLoop, PersistentPlaced, Enough, Threads;
    if w.calls[c].Initializing? {
      InitNothing(w, w, c, w.calls[c].started + 1, created);
    } else {
      NoneInside(w, c);
    }
  }

  lemma NoneInside(w: World, c: nat)
    requires OnlyInit(w) && c < |w.calls| && !w.calls[c].Initializing?
    ensures !InCreate(w.calls[c])
  {
  }

  lemma RemovedNothing(w: World, id: int)
    requires NothingWaits(w)
    ensures NothingWaits(JobRemoved(w, id))
  {
    hide Find, Cut, FreeCell;
  }

  lemma ShutDownNothing(w: World)
    requires NothingWaits(w)
    ensures NothingWaits(ShutDown(w))
  {
    hide FreeAll, Bag;
  }

  lemma {:induction false} RunWaitsNot(ws: seq<World>, as_: seq<Action>, i: nat)
    requires IsRun(ws, as_) && i < |ws| && Sensible(ws[0].attr) && ws[0].attr.minThreads == ws[0].attr.maxThreads == 1
    requires !ws[i].shutdown
    ensures NothingWaits(ws[i])
    ensures forall j :: 0 <= j <= i ==> !ws[j].shutdown && NothingWaits(ws[j])
  {
    hide Next, Enabled, OnlyInit, OneCreator, Enough, NothingWaits, Count, OneThread;
    if i == 0 {
      NothingAtStart(ws[0].attr, ws[0].now);
    } else {
      OnlyInitInside(ws, as_, i);
      RunWaitsNot(ws, as_, i - 1);
      OneAtMost(ws, as_, i - 1);
      assert StepOk(ws, as_, i - 1);
      StepWaitsNot(ws[i - 1], as_[i - 1]);
    }
  }

  lemma NothingAtStart(attr: Attr, now: int)
    ensures NothingWaits(Start(attr, now))
  {
  }

  lemma OneAtMost(ws: seq<World>, as_: seq<Action>, i: nat)
    requires IsRun(ws, as_) && i < |ws| && Sensible(ws[0].attr) && ws[0].attr.minThreads == ws[0].attr.maxThreads == 1
    requires !ws[i].shutdown
    ensures OneThread(ws[i])
  {
    hide Next, Enabled, OnlyInit, OneCreator, Enough, Count, Bounded, StepOk;
    OnlyInitInside(ws, as_, i);
    RunEnough(ws, as_, i);
    ThreadsCounted(ws, as_, i);
    UpTo(ws, as_, i);
    NeverTooMany(ws[..i + 1], as_[..i], i);
  }

  /** The first steps of a run are a run. */
  lemma UpTo(ws: seq<World>, as_: seq<Action>, i: nat)
    requires IsRun(ws, as_) && i < |ws|
    ensures IsRun(ws[..i + 1], as_[..i]) && ws[..i + 1][i] == ws[i] && ws[..i + 1][0] == ws[0]
  {
    hide Next, Enabled;
    var vs, bs := ws[..i + 1], as_[..i];
    forall j | 0 <= j < i ensures StepOk(vs, bs, j) {
      assert StepOk(ws, as_, j);
    }
  }

  lemma NeverClashes(ws: seq<World>, as_: seq<Action>)
    requires IsRun(ws, as_) && Sensible(ws[0].attr) && ws[0].attr.minThreads == ws[0].attr.maxThreads == 1
    requires !ws[|ws| - 1].shutdown
    ensures Distinct(ws[|ws| - 1].ids)
  {
    hide Next, Enabled, NothingWaits, Distinct;
    var n := |ws| - 1;
    RunWaitsNot(ws, as_, n);
    forall i | 0 <= i < n ensures StepOk(ws, as_, i) && !Overlaps(ws, as_, i) {
      assert StepOk(ws, as_, i);
      NothingPending(ws[i]);
    }
    IdsDistinctExactly(ws, as_, n);
  }

  lemma NothingPending(w: World)
    requires NothingWaits(w)
    ensures !SomePending(w)
  {
  }

  /** For every sensible choice of attributes some run accepts two jobs under one id; without a shutdown
      some run does exactly when the pool is not one of exactly one thread. */
  lemma ClashExactly(attr: Attr)
    requires Sensible(attr)
    ensures MayClash(attr, true)
    ensures MayClash(attr, false) <==> !(attr.minThreads == attr.maxThreads == 1)
  {
    hide IsRun, Distinct;
    if attr.minThreads == attr.maxThreads == 1 {
      ClashAfterShutdown(attr);
      if MayClash(attr, false) {
        var ws, as_ :| ClashRun(ws, as_, attr, false);
        NeverClashes(ws, as_);
      }
    } else {
      ClashUsually(attr);
      var ws, as_ :| ClashRun(ws, as_, attr, false);
      assert ClashRun(ws, as_, attr, true);
    }
  }
}
