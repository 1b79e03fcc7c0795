/** Why the limit on threads needs at most one caller inside CreateWorker: with two, every finite
    limit above zero can be exceeded. */
module PoolLimits {
  import opened PoolQueues
  import opened PoolMachine
  import opened PoolWorkers
  import Addresses

  /** No callers but perhaps these two are inside CreateWorker. */
  ghost predicate Inside(w: World, c: nat, d: nat) {
    forall e {:trigger w.calls[e]} :: 0 <= e < |w.calls| && InCreate(w.calls[e]) ==> e == c || e == d
  }

  ghost predicate AtMostTwo(w: World) {
    exists c, d :: Inside(w, c, d)
  }

  ghost predicate RunTo(ws: seq<World>, as_: seq<Action>, attr: Attr, w: World) {
    && IsRun(ws, as_) && ws[0].attr == attr && ws[|ws| - 1] == w
    && forall i {:trigger ws[i]} :: 0 <= i < |ws| ==> AtMostTwo(ws[i])
  }

  /** A run with no more than two callers inside CreateWorker at any time leads to w. */
  ghost predicate Reaches(attr: Attr, w: World) {
    exists ws, as_ :: RunTo(ws, as_, attr, w)
  }

  lemma ReachesStep(attr: Attr, w: World, a: Action)
    requires Reaches(attr, w) && Enabled(w, a) && AtMostTwo(Next(w, a))
    ensures Reaches(attr, Next(w, a))
  {
    hide Next, Enabled, AtMostTwo;
    var ws, as_ :| RunTo(ws, as_, attr, w);
    var vs, bs := ws + [Next(w, a)], as_ + [a];
    forall i | 0 <= i < |bs| ensures StepOk(vs, bs, i) {
      if i < |as_| {
        assert StepOk(ws, as_, i);
      }
    }
    assert RunTo(vs, bs, attr, Next(w, a));
  }

  lemma ReachesStart(attr: Attr)
    ensures Reaches(attr, Start(attr, 0))
  {
    var w := Start(attr, 0);
    assert Inside(w, 0, 0);
    assert RunTo([w], [], attr, w);
  }

  lemma SomeCell(w: World) returns (cell: nat)
    ensures CanAllocate(w, cell)
  {
    if w.free != [] {
      cell := w.free[0];
    } else {
      hide Cells;
      Addresses.FreshAddress(set x | x in Cells(w));
      cell :| cell !in (set x | x in Cells(w));
    }
  }

  /* ---- up to the minimum ---- */

  function Tops(k: nat): seq<Worker> {
    seq(k, _ => AtTop(NoJob, false))
  }

  /** The pool while it is initialised, with k threads counted and one more started. */
  function Building(attr: Attr, k: nat): World {
    Start(attr, 0).(totalThreads := k, workers := Tops(k) + [Starting], calls := [Initializing(k, k + 1)])
  }

  function Built(attr: Attr, k: nat): World {
    Start(attr, 0).(totalThreads := k, workers := Tops(k), calls := [Returned(0)], initialized := true)
  }

  lemma BuildingStep(attr: Attr, k: nat)
    requires Sensible(attr) && k < attr.minThreads && Reaches(attr, Building(attr, k))
    ensures Reaches(attr, if k + 1 < attr.minThreads then Building(attr, k + 1) else Built(attr, k + 1))
  {
    var w := Building(attr, k);
    assert Enabled(w, Register(k));
    var w1 := Next(w, Register(k));
    assert w1.workers == Tops(k + 1);
    assert Inside(w1, 0, 0);
    ReachesStep(attr, w, Register(k));
    var a := Resume(0, 0, true);
    assert Enabled(w1, a);
    var w2 := Next(w1, a);
    assert w2 == InitLoop(w1, 0, k + 1, true);
    if k + 1 < attr.minThreads {
      assert w2.calls == [Initializing(k + 1, k + 2)];
    } else {
      assert w2.calls == [Returned(0)];
    }
    assert Inside(w2, 0, 0);
    ReachesStep(attr, w1, a);
  }

  lemma {:induction false} ReachesBuilding(attr: Attr, k: nat)
    requires Sensible(attr) && k < attr.minThreads
    ensures Reaches(attr, Building(attr, k))
  {
    hide Reaches;
    if k == 0 {
      ReachesStart(attr);
      InitStarts(attr);
    } else {
      ReachesBuilding(attr, k - 1);
      BuildingStep(attr, k - 1);
    }
  }

  lemma InitStarts(attr: Attr)
    requires Sensible(attr) && Reaches(attr, Start(attr, 0))
    ensures Reaches(attr, if attr.minThreads == 0 then Built(attr, 0) else Building(attr, 0))
  {
    hide Reaches;
    var w := Start(attr, 0);
    assert Enabled(w, Init(true));
    var v := Next(w, Init(true));
    assert v.calls == [if attr.minThreads == 0 then Returned(0) else Initializing(0, 1)];
    assert Inside(v, 0, 0);
    ReachesStep(attr, w, Init(true));
    assert v.workers == if attr.minThreads == 0 then Tops(0) else Tops(0) + [Starting];
  }

  lemma ReachesBuilt(attr: Attr)
    requires Sensible(attr)
    ensures Reaches(attr, Built(attr, attr.minThreads))
  {
    hide Reaches;
    ReachesStart(attr);
    if attr.minThreads == 0 {
      InitStarts(attr);
    } else {
      ReachesBuilding(attr, attr.minThreads - 1);
      BuildingStep(attr, attr.minThreads - 1);
    }
  }

  /* ---- up to one below the limit ---- */

  /** k threads, nothing to do, and no caller inside CreateWorker. */
  ghost predicate Calm(w: World, attr: Attr, k: nat) {
    && w.attr == attr && w.initialized && !w.destroyed && w.q == Queues([], [], []) && w.slot.NoJob?
    && w.totalThreads == k && forall c {:trigger w.calls[c]} :: 0 <= c < |w.calls| ==> !InCreate(w.calls[c])
  }

  /** A caller that adds a persistent job is inside CreateWorker. */
  lemma Enters(attr: Attr, w: World, c: nat) returns (v: World)
    requires Reaches(attr, w) && w.attr == attr && Open(w) && w.slot.NoJob?
    requires w.totalThreads < attr.maxThreads
    requires Inside(w, c, c)
    ensures Reaches(attr, v)
    ensures v == w.(workers := w.workers + [Starting], calls := w.calls + [AddingPersistent(Low, w.totalThreads + 1)])
  {
    hide Reaches, CanAllocate;
    var cell := SomeCell(w);
    var a := AddPersistent(Low, cell, true);
    v := Next(w, a);
    var n := |w.calls|;
    assert (w.calls + [Refused])[n := AddingPersistent(Low, w.totalThreads + 1)]
           == w.calls + [AddingPersistent(Low, w.totalThreads + 1)];
    assert Inside(v, c, n);
    ReachesStep(attr, w, a);
  }

  lemma Registers(attr: Attr, w: World, i: nat) returns (v: World)
    requires Reaches(attr, w) && !w.destroyed && i < |w.workers| && w.workers[i].Starting?
    ensures Reaches(attr, v)
    ensures v == w.(workers := w.workers[i := AtTop(NoJob, false)], totalThreads := w.totalThreads + 1)
  {
    v := Next(w, Register(i));
    InsideTwo(attr, w);
    var c, d :| Inside(w, c, d);
    assert Inside(v, c, d);
    ReachesStep(attr, w, Register(i));
  }

  lemma InsideTwo(attr: Attr, w: World)
    requires Reaches(attr, w)
    ensures AtMostTwo(w)
  {
    hide AtMostTwo;
    var ws, as_ :| RunTo(ws, as_, attr, w);
    assert AtMostTwo(ws[|ws| - 1]);
  }

  /** A persistent job is offered and taken back, and one more worker stays. */
  lemma OneMore(attr: Attr, w: World, k: nat) returns (v: World)
    requires Reaches(attr, w) && Calm(w, attr, k) && k < attr.maxThreads
    ensures Reaches(attr, v) && Calm(v, attr, k + 1) && v.shutdown == w.shutdown
  {
    hide Reaches, CanAllocate;
    var c := |w.calls|;
    var w1 := Enters(attr, w, c);
    var w2 := Registers(attr, w1, |w.workers|);
    var cell := SomeCell(w2);
    var a := Resume(c, cell, true);
    var w3 := Next(w2, a);
    assert w3 == PersistentPlaced(w2, c, Low, cell);
    assert Inside(w3, c, c);
    ReachesStep(attr, w2, a);
    v := Next(w3, Remove(w3.slot.job.jobId));
    assert Inside(v, c, c);
    ReachesStep(attr, w3, Remove(w3.slot.job.jobId));
  }

  lemma {:induction false} Climbs(attr: Attr, w: World, k: nat) returns (v: World)
    requires Reaches(attr, w) && Calm(w, attr, k) && k < attr.maxThreads
    ensures Reaches(attr, v) && Calm(v, attr, attr.maxThreads - 1) && v.shutdown == w.shutdown
    decreases attr.maxThreads - k
  {
    hide Reaches, Calm;
    v := w;
    if k + 1 < attr.maxThreads {
      v := OneMore(attr, w, k);
      v := Climbs(attr, v, k + 1);
    }
  }

  /** When there are no fewer than the limit from the start, shutdown lets one worker go. */
  lemma OneLess(attr: Attr) returns (v: World)
    requires Sensible(attr) && attr.minThreads == attr.maxThreads > 0 && Reaches(attr, Built(attr, attr.minThreads))
    ensures Reaches(attr, v) && Calm(v, attr, attr.maxThreads - 1)
  {
    hide Reaches;
    var w := Built(attr, attr.minThreads);
    assert Enabled(w, Shutdown);
    var w1 := Next(w, Shutdown);
    assert w1.calls == [Returned(0), ShuttingDown] && w1.q == Queues([], [], []) && w1.workers == w.workers;
    assert Inside(w1, 0, 0);
    ReachesStep(attr, w, Shutdown);
    v := Leaves(attr, w1);
  }

  lemma Leaves(attr: Attr, w: World) returns (v: World)
    requires Reaches(attr, w) && w.totalThreads > 0 && Calm(w, attr, w.totalThreads) && w.shutdown
    requires w.workers != [] && w.workers[0] == AtTop(NoJob, false)
    ensures Reaches(attr, v) && Calm(v, attr, w.totalThreads - 1)
  {
    hide Reaches;
    assert Enabled(w, Top(0));
    var w0 := Returning(w, 0);
    assert w0.q == Queues([], [], []) && Bumped(w0.q, w0.attr, w0.now) == w0.q;
    v := Next(w, Top(0));
    assert Inside(v, 0, 0);
    ReachesStep(attr, w, Top(0));
  }

  /** Two callers find one place left, and both take it. */
  lemma BothEnter(attr: Attr, w: World) returns (v: World)
    requires attr.maxThreads > 0 && Reaches(attr, w) && Calm(w, attr, attr.maxThreads - 1)
    ensures Reaches(attr, v) && v.totalThreads == attr.maxThreads + 1 && v.shutdown == w.shutdown
  {
    hide Reaches;
    var n := |w.workers|;
    var w1 := Enters(attr, w, 0);
    var w2 := Enters(attr, w1, |w.calls|);
    var w3 := Registers(attr, w2, n);
    v := Registers(attr, w3, n + 1);
  }

  /** A step leaves the calls alone, begins shutdown, or moves one call. */
  lemma StepCalls(w: World, a: Action) returns (c: nat)
    requires Enabled(w, a)
    ensures Next(w, a).calls == w.calls || Next(w, a).calls == w.calls + [ShuttingDown] || CallMoves(w, Next(w, a), c)
  {
    hide CallMoves, Loop, Returning, InitLoop, JobAdded, PersistentAdded, Resumed, JobRemoved, ShutDown, CanAllocate;
    c := |w.calls|;
    match a
    case Init(created) => InitMoves(w, w.(calls := [Refused]), 0, 0, created);
    case Top(i) => TopEnds(w, i);
    case Wake(i, timedOut) => LoopEnds(w, i, timedOut);
    case Add(priority, cell, created) => JobAddedMoves(w, priority, cell, created);
    case AddPersistent(priority, cell, created) => PersistentAddedMoves(w, priority, cell, created);
    case Resume(d, cell, created) =>
      c := d;
      ResumedMoves(w, d, cell, created);
    case Remove(id) => RemovedQuiet(w, id);
    case Shutdown => ShutDownQuiet(w);
    case _ =>
  }

  ghost predicate NobodyInside(w: World) {
    forall c {:trigger w.calls[c]} :: 0 <= c < |w.calls| ==> !InCreate(w.calls[c])
  }

  lemma StaysOutside(w: World, v: World, c: nat)
    requires NobodyInside(w) && w.attr.maxThreads == 0 && w.totalThreads >= 0
    requires v.calls == w.calls || v.calls == w.calls + [ShuttingDown] || CallMoves(w, v, c)
    ensures NobodyInside(v)
  {
    if CallMoves(w, v, c) {
      assert !InCreate(v.calls[c]);
    }
  }

  /** A pool that allows no thread has none. */
  lemma {:induction false} NobodyCreates(ws: seq<World>, as_: seq<Action>, i: nat)
    requires IsRun(ws, as_) && i < |ws| && ws[0].attr.maxThreads == 0
    ensures NobodyInside(ws[i]) && ws[i].attr == ws[0].attr
  {
    hide Next, Enabled, CallMoves, NobodyInside;
    if i == 0 {
      assert NobodyInside(ws[0]) by { OutsideAtStart(ws[0].attr, ws[0].now); }
    } else {
      NobodyCreates(ws, as_, i - 1);
      ThreadsCounted(ws, as_, i - 1);
      assert StepOk(ws, as_, i - 1);
      var c := StepCalls(ws[i - 1], as_[i - 1]);
      StepAttr(ws[i - 1], as_[i - 1]);
      StaysOutside(ws[i - 1], ws[i], c);
    }
  }

  lemma OutsideAtStart(attr: Attr, now: int)
    ensures NobodyInside(Start(attr, now))
  {
  }

  lemma NoneAllowed(attr: Attr, w: World)
    requires attr.maxThreads == 0 && Reaches(attr, w)
    ensures w.totalThreads <= 0
  {
    hide Next, Enabled, StepOk, NobodyInside, Count, AtMostTwo, OneCreator;
    var ws, as_ :| RunTo(ws, as_, attr, w);
    forall j | 0 <= j < |ws| ensures OneCreator(ws[j]) {
      NobodyCreates(ws, as_, j);
      OutsideOne(ws[j]);
    }
    NeverTooMany(ws, as_, |ws| - 1);
    ThreadsCounted(ws, as_, |ws| - 1);
  }

  lemma OutsideOne(w: World)
    requires NobodyInside(w)
    ensures OneCreator(w)
  {
  }

  /* ---- as many threads as allowed from the start ---- */

  /** Only the initialisation is inside CreateWorker. */
  ghost predicate OnlyInit(w: World) {
    forall c {:trigger w.calls[c]} :: 0 <= c < |w.calls| && InCreate(w.calls[c]) ==> w.calls[c].Initializing?
  }

  lemma AnsweredOnly(w: World, v: World, c: nat)
    requires OnlyInit(w) && c <= |w.calls| && (|v.calls| == |w.calls| || |v.calls| == |w.calls| + 1)
    requires c < |v.calls| && (InCreate(v.calls[c]) ==> v.calls[c].Initializing?)
    requires forall d :: 0 <= d < |v.calls| && d != c ==> d < |w.calls| && v.calls[d] == w.calls[d]
    ensures OnlyInit(v)
  {
  }

  /** With as many threads as allowed no caller creates one. */
  lemma FullStaysFull(w: World, a: Action)
    requires OnlyInit(w) && Enabled(w, a) && 0 <= w.attr.maxThreads && (Open(w) ==> w.totalThreads >= w.attr.maxThreads)
    ensures OnlyInit(Next(w, a))
  {
    hide OnlyInit, Loop, Returning, InitLoop, JobAdded, PersistentAdded, Resumed, JobRemoved, ShutDown, CanAllocate;
    match a
    case Init(created) => InitOnly(w, w.(calls := [Refused]), 0, 0, created);
    case Top(i) =>
      TopEnds(w, i);
      SameCallsOnly(w, Next(w, a));
    case Wake(i, timedOut) =>
      LoopEnds(w, i, timedOut);
      SameCallsOnly(w, Next(w, a));
    case Add(priority, cell, created) => AddedOnly(w, priority, cell, created);
    case AddPersistent(priority, cell, created) => PersistentOnly(w, priority, cell, created);
    case Resume(c, cell, created) => ResumedOnly(w, c, cell, created);
    case Remove(id) =>
      RemovedQuiet(w, id);
      SameCallsOnly(w, Next(w, a));
    case Shutdown =>
      ShutDownQuiet(w);
      AnsweredOnly(w, Next(w, a), |w.calls|);
    case _ => SameCallsOnly(w, Next(w, a));
  }

  lemma SameCallsOnly(w: World, v: World)
    requires OnlyInit(w) && v.calls == w.calls
    ensures OnlyInit(v)
  {
  }

  lemma InitOnly(w: World, w1: World, c: nat, started: int, created: bool)
    requires OnlyInit(w) && c < |w1.calls| && (w1.calls == w.calls || (w.calls == [] && w1.calls == [Refused]))
    ensures OnlyInit(InitLoop(w1, c, started, created))
  {
  }

  lemma AddedOnly(w: World, priority: Priority, cell: nat, created: bool)
    requires OnlyInit(w) && 0 <= w.attr.maxThreads <= w.totalThreads
    ensures OnlyInit(JobAdded(w, priority, cell, created))
  {
    hide Enqueued, Rested, Regular, OnlyInit;
    AnsweredOnly(w, JobAdded(w, priority, cell, created), |w.calls|);
  }

  lemma PersistentOnly(w: World, priority: Priority, cell: nat, created: bool)
    requires OnlyInit(w) && 0 <= w.attr.maxThreads <= w.totalThreads
    ensures OnlyInit(PersistentAdded(w, priority, cell, created))
  {
    hide Rested, OnlyInit;
    AnsweredOnly(w, PersistentAdded(w, priority, cell, created), |w.calls|);
  }

  lemma ResumedOnly(w: World, c: nat, cell: nat, created: bool)
    requires OnlyInit(w) && c < |w.calls|
    ensures OnlyInit(Resumed(w, c, cell, created))
  {
    hide InitLoop, AddLoop, PersistentPlaced;
    if w.calls[c].Initializing? {
      InitOnly(w, w, c, w.calls[c].started + 1, created);
    } else {
      hide OnlyInit;
      if Resumed(w, c, cell, created) != w {
        AnsweredOnly(w, Resumed(w, c, cell, created), c);
      }
    }
  }

  lemma StaysShut(w: World, a: Action)
    requires Enabled(w, a) && w.shutdown
    ensures Next(w, a).shutdown
  {
    hide CallMoves, Loop, Returning, InitLoop, JobAdded, PersistentAdded, Resumed, JobRemoved, ShutDown, CanAllocate;
    match a
    case Init(created) => InitStays(w.(calls := [Refused]), 0, 0, created);
    case Top(i) => TopEnds(w, i);
    case Wake(i, timedOut) => LoopEnds(w, i, timedOut);
    case Add(priority, cell, created) => AddedFlags(w, priority, cell, created);
    case AddPersistent(priority, cell, created) => PersistentFlags(w, priority, cell, created);
    case Resume(c, cell, created) => ResumedStays(w, c, cell, created);
    case Remove(id) => RemovedQuiet(w, id);
    case Shutdown => ShutDownQuiet(w);
    case _ =>
  }

  lemma InitStays(w: World, c: nat, started: int, created: bool)
    requires c < |w.calls|
    ensures InitLoop(w, c, started, created).shutdown == w.shutdown
  {
  }

  lemma ResumedStays(w: World, c: nat, cell: nat, created: bool)
    requires c < |w.calls|
    ensures Resumed(w, c, cell, created).shutdown == w.shutdown
  {
    hide InitLoop, AddLoop, PersistentPlaced, Resumed;
    if w.calls[c].Initializing? {
      InitResumedStays(w, c, cell, created);
    } else {
      ResumedFlags(w, c, cell, created);
    }
  }

  lemma InitResumedStays(w: World, c: nat, cell: nat, created: bool)
    requires c < |w.calls| && w.calls[c].Initializing?
    ensures Resumed(w, c, cell, created).shutdown == w.shutdown
  {
    hide InitLoop;
    InitStays(w, c, w.calls[c].started + 1, created);
  }

  /** A pool that has all threads it may have from the start: nobody else is ever inside, so long as
      it is not shut down. */
  lemma {:induction false} OnlyInitInside(ws: seq<World>, as_: seq<Action>, i: nat)
    requires IsRun(ws, as_) && i < |ws| && Sensible(ws[0].attr) && ws[0].attr.minThreads == ws[0].attr.maxThreads
    requires !ws[i].shutdown
    ensures OnlyInit(ws[i]) && OneCreator(ws[i])
    ensures forall j :: 0 <= j <= i ==> !ws[j].shutdown && OneCreator(ws[j])
  {
    hide Next, Enabled, OnlyInit, OneCreator, Enough;
    RunEnough(ws, as_, i);
    if i == 0 {
      NoCallsYet(ws[0]);
    } else {
      assert StepOk(ws, as_, i - 1);
      if ws[i - 1].shutdown {
        StaysShut(ws[i - 1], as_[i - 1]);
      }
      OnlyInitInside(ws, as_, i - 1);
      RunEnough(ws, as_, i - 1);
      FullOnceOpen(ws[i - 1]);
      FullStaysFull(ws[i - 1], as_[i - 1]);
    }
    OnlyOne(ws[i]);
  }

  lemma NoCallsYet(w: World)
    requires w.calls == []
    ensures OnlyInit(w)
  {
  }

  lemma FullOnceOpen(w: World)
    requires Enough(w) && !w.shutdown && w.attr.minThreads == w.attr.maxThreads
    ensures Open(w) ==> w.totalThreads >= w.attr.maxThreads
  {
  }

  lemma OnlyOne(w: World)
    requires OnlyInit(w) && Enough(w)
    ensures OneCreator(w)
  {
  }

  lemma NeverMoreThanAllowed(attr: Attr, w: World)
    requires Sensible(attr) && attr.minThreads == attr.maxThreads && Reaches(attr, w) && !w.shutdown
    ensures w.totalThreads <= attr.maxThreads
  {
    hide Next, Enabled, StepOk, Count, AtMostTwo, OneCreator, OnlyInit;
    var ws, as_ :| RunTo(ws, as_, attr, w);
    OnlyInitInside(ws, as_, |ws| - 1);
    NeverTooMany(ws, as_, |ws| - 1);
    ThreadsCounted(ws, as_, |ws| - 1);
  }

  /* ---- exactly when ---- */

  /** For every sensible choice of attributes with a finite limit: with two callers inside
      CreateWorker the limit can be exceeded exactly when it allows a thread at all, and without a
      shutdown exactly when it allows more than there are from the start. */
  lemma LimitExceeded(attr: Attr)
    requires Sensible(attr) && attr.maxThreads >= 0
    ensures (exists w :: Reaches(attr, w) && w.totalThreads > attr.maxThreads) <==> attr.maxThreads > 0
    ensures (exists w :: Reaches(attr, w) && !w.shutdown && w.totalThreads > attr.maxThreads)
            <==> attr.minThreads < attr.maxThreads
  {
    hide Reaches;
    if attr.maxThreads > 0 {
      ReachesBuilt(attr);
      var w := Built(attr, attr.minThreads);
      if attr.minThreads < attr.maxThreads {
        w := Climbs(attr, w, attr.minThreads);
      } else {
        w := OneLess(attr);
      }
      w := BothEnter(attr, w);
    } else {
      forall w | Reaches(attr, w) ensures w.totalThreads <= attr.maxThreads {
        NoneAllowed(attr, w);
      }
    }
    if attr.minThreads == attr.maxThreads {
      forall w | Reaches(attr, w) && !w.shutdown ensures w.totalThreads <= attr.maxThreads {
        NeverMoreThanAllowed(attr, w);
      }
    }
  }
}
