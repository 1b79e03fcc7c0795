/** When two jobs of the pool get the same id: the id is taken as the job is accepted and counted
    only as the call that brought the job returns. */
module PoolIds {
  import opened PoolQueues
  import opened PoolMachine
  import opened PoolHeld

  /** The call's job has been accepted and its id not yet counted. */
  predicate Pending(call: Call) {
    call.Adding? || call.Submitted?
  }

  ghost predicate SomePending(w: World) {
    exists c :: 0 <= c < |w.calls| && Pending(w.calls[c])
  }

  /** The step puts a new job into a queue or the slot. */
  predicate Accepts(w: World, a: Action)
    requires Enabled(w, a)
  {
    Next(w, a).accepted > w.accepted
  }

  ghost predicate Distinct(ids: seq<int>) {
    forall i, j :: 0 <= i < j < |ids| ==> ids[i] != ids[j]
  }

  /* ---- what a step does to the ids ---- */

  /** One call is new or goes on.  It may bring a job; the id is counted when it no longer waits. */
  ghost predicate IdMoves(w: World, v: World, c: nat) {
    && c < |v.calls| && |w.calls| <= |v.calls| && (|v.calls| == |w.calls| || (c == |w.calls| && |v.calls| == c + 1))
    && (forall d :: 0 <= d < |w.calls| && d != c ==> v.calls[d] == w.calls[d])
    && var was, now, brings := c < |w.calls| && Pending(w.calls[c]), Pending(v.calls[c]), v.accepted != w.accepted;
       && (brings ==> !was && v.accepted == w.accepted + 1) && (now ==> was || brings)
       && v.ids == (if brings then w.ids + [w.lastJobId] else w.ids)
       && v.lastJobId == if !now && (was || brings) then w.lastJobId + 1 else w.lastJobId
  }

  ghost predicate IdsAlone(w: World, v: World) {
    v.ids == w.ids && v.lastJobId == w.lastJobId && v.accepted == w.accepted && v.calls == w.calls
  }

  lemma InitIds(w: World, w1: World, c: nat, started: int, created: bool)
    requires w1 == w.(calls := w1.calls) && c < |w1.calls| && |w.calls| <= |w1.calls|
    requires |w1.calls| == |w.calls| || (c == |w.calls| && |w1.calls| == c + 1)
    requires forall d :: 0 <= d < |w.calls| && d != c ==> w1.calls[d] == w.calls[d]
    requires c < |w.calls| ==> !Pending(w.calls[c])
    ensures IdMoves(w, InitLoop(w1, c, started, created), c)
  {
    hide IdMoves;
    var v := InitLoop(w1, c, started, created);
    OneAnswered(w, w1, v, c);
  }

  /** A call without a job goes on without one. */
  lemma OneAnswered(w: World, w1: World, v: World, c: nat)
    requires c < |w1.calls| && |w.calls| <= |w1.calls|
    requires |w1.calls| == |w.calls| || (c == |w.calls| && |w1.calls| == c + 1)
    requires forall d :: 0 <= d < |w.calls| && d != c ==> w1.calls[d] == w.calls[d]
    requires c < |w.calls| ==> !Pending(w.calls[c])
    requires |v.calls| == |w1.calls| && v.calls == w1.calls[c := v.calls[c]] && !Pending(v.calls[c])
    requires v.ids == w.ids && v.accepted == w.accepted && v.lastJobId == w.lastJobId
    ensures IdMoves(w, v, c)
  {
  }

  lemma LoopIds(w: World, c: nat, jobs: int, threads: nat, created: bool)
    requires c < |w.calls| && Pending(w.calls[c])
    ensures IdMoves(w, AddLoop(w, c, jobs, threads, created), c)
  {
  }

  lemma AddedIds(w: World, priority: Priority, cell: nat, created: bool)
    ensures IdMoves(w, JobAdded(w, priority, cell, created), |w.calls|)
    ensures JobAdded(w, priority, cell, created).accepted == w.accepted + 1
  {
    hide Enqueued, Rested;
    var w1 := JobQueued(w, priority, cell).(calls := w.calls + [Refused]);
    assert w1.ids == w.ids + [w.lastJobId];
    assert w1.lastJobId == w.lastJobId;
  }

  lemma PlacedIds(w: World, w1: World, c: nat, priority: Priority, cell: nat)
    requires w1 == w.(calls := w1.calls) && c < |w1.calls| && |w.calls| <= |w1.calls|
    requires |w1.calls| == |w.calls| || (c == |w.calls| && |w1.calls| == c + 1)
    requires forall d :: 0 <= d < |w.calls| && d != c ==> w1.calls[d] == w.calls[d]
    requires c < |w.calls| ==> !Pending(w.calls[c])
    ensures IdMoves(w, PersistentPlaced(w1, c, priority, cell), c)
  {
    hide Rested;
  }

  lemma PersistentIds(w: World, priority: Priority, cell: nat, created: bool)
    ensures IdMoves(w, PersistentAdded(w, priority, cell, created), |w.calls|)
  {
    hide PersistentPlaced;
    PlacedIds(w, w.(calls := w.calls + [Refused]), |w.calls|, priority, cell);
  }

  lemma ResumedIds(w: World, c: nat, cell: nat, created: bool)
    requires c < |w.calls|
    ensures var v := Resumed(w, c, cell, created); v == w || IdMoves(w, v, c)
  {
    hide AddLoop, InitLoop, PersistentPlaced;
    match w.calls[c]
    case Initializing(started, target) => InitIds(w, w, c, started + 1, created);
    case Adding(jobs, threads, target) => LoopIds(w, c, jobs, threads + 1, created);
    case AddingPersistent(priority, target) => PlacedIds(w, w, c, priority, cell);
    case _ =>
  }

  lemma LoopAlone(w: World, i: nat, timedOut: bool)
    requires i < |w.workers|
    ensures IdsAlone(w, Loop(w, i, timedOut))
  {
    hide Bumped, NonEmpty, Rest, First;
  }

  /** Every step either leaves ids and calls alone or moves one call. */
  lemma StepIds(w: World, a: Action) returns (c: nat)
    requires Enabled(w, a)
    ensures IdsAlone(w, Next(w, a)) || IdMoves(w, Next(w, a), c)
  {
    hide IdMoves, Loop, InitLoop, JobAdded, PersistentAdded, Resumed, CanAllocate, FreeCell, Removed, FreeAll;
    c := |w.calls|;
    match a
    case Init(created) => InitIds(w, w.(calls := [Refused]), 0, 0, created);
    case Top(i) => LoopAlone(Returning(w, i), i, false);
    case Wake(i, timedOut) => LoopAlone(w, i, timedOut);
    case Add(priority, cell, created) => AddedIds(w, priority, cell, created);
    case AddPersistent(priority, cell, created) => PersistentIds(w, priority, cell, created);
    case Resume(d, cell, created) =>
      c := d;
      ResumedIds(w, d, cell, created);
    case Shutdown => ShutDownIds(w);
    case _ =>
  }

  lemma ShutDownIds(w: World)
    ensures IdMoves(w, ShutDown(w), |w.calls|)
  {
    hide FreeAll, Bag;
  }

  /* ---- over every run ---- */

  /** No job was accepted while another one's id was not yet counted: every id below the next one,
      but that of the one call that has not counted its own. */
  ghost predicate InTurn(w: World) {
    && |w.ids| == w.accepted
    && (forall c, d ::
          0 <= c < |w.calls| && 0 <= d < |w.calls| && Pending(w.calls[c]) && Pending(w.calls[d]) ==> c == d)
    && (forall k :: 0 <= k < |w.ids| ==>
          w.ids[k] < w.lastJobId || (w.ids[k] == w.lastJobId && k == |w.ids| - 1 && SomePending(w)))
    && (SomePending(w) ==> w.ids != [] && w.ids[|w.ids| - 1] == w.lastJobId)
    && Distinct(w.ids)
  }

  lemma AloneInTurn(w: World, v: World)
    requires InTurn(w) && IdsAlone(w, v)
    ensures InTurn(v)
  {
  }

  /** A call that was or is pending shows that some call is. */
  lemma PendingMoves(w: World, v: World, c: nat)
    requires IdMoves(w, v, c)
    ensures Pending(v.calls[c]) ==> SomePending(v)
    ensures c < |w.calls| && Pending(w.calls[c]) ==> SomePending(w)
    ensures SomePending(v) ==> Pending(v.calls[c]) || SomePending(w)
    ensures SomePending(w) ==> SomePending(v) || (c < |w.calls| && Pending(w.calls[c]))
  {
    if SomePending(w) {
      var d :| 0 <= d < |w.calls| && Pending(w.calls[d]);
      assert d != c ==> Pending(v.calls[d]);
    }
    if SomePending(v) {
      var d :| 0 <= d < |v.calls| && Pending(v.calls[d]);
      assert d != c ==> Pending(w.calls[d]);
    }
  }

  lemma OnePending(w: World, v: World, c: nat)
    requires InTurn(w) && IdMoves(w, v, c) && (v.accepted > w.accepted ==> !SomePending(w))
    ensures forall d, e ::
      0 <= d < |v.calls| && 0 <= e < |v.calls| && Pending(v.calls[d]) && Pending(v.calls[e]) ==> d == e
    ensures SomePending(w) && SomePending(v) && c < |w.calls| && Pending(w.calls[c]) ==> Pending(v.calls[c])
  {
    PendingMoves(w, v, c);
    forall d, e | 0 <= d < |v.calls| && 0 <= e < |v.calls| && Pending(v.calls[d]) && Pending(v.calls[e])
      ensures d == e
    {
      assert (d == c || v.calls[d] == w.calls[d]) && (e == c || v.calls[e] == w.calls[e]);
    }
  }

  lemma MovesInTurn(w: World, v: World, c: nat)
    requires InTurn(w) && IdMoves(w, v, c) && (v.accepted > w.accepted ==> !SomePending(w))
    ensures InTurn(v)
  {
    PendingMoves(w, v, c);
    OnePending(w, v, c);
  }

  /** The second of two jobs accepted at once gets the id of the first. */
  lemma OutOfTurn(w: World, v: World, c: nat)
    requires InTurn(w) && IdMoves(w, v, c) && v.accepted > w.accepted && SomePending(w)
    ensures !Distinct(v.ids)
  {
    assert v.ids[|w.ids| - 1] == v.ids[|w.ids|];
  }

  /** At step i a job was accepted while the id of another was not yet counted. */
  ghost predicate Overlaps(ws: seq<World>, as_: seq<Action>, i: nat)
    requires i < |as_| && |ws| == |as_| + 1 && Enabled(ws[i], as_[i])
  {
    Accepts(ws[i], as_[i]) && SomePending(ws[i])
  }

  lemma {:induction false} RunInTurn(ws: seq<World>, as_: seq<Action>, n: nat)
    requires IsRun(ws, as_) && n < |ws|
    requires forall i :: 0 <= i < n ==> StepOk(ws, as_, i) && !Overlaps(ws, as_, i)
    ensures InTurn(ws[n])
  {
    hide Next, Enabled, InTurn, IdMoves;
    if n == 0 {
      StartInTurn(ws[0].attr, ws[0].now);
    } else {
      RunInTurn(ws, as_, n - 1);
      assert StepOk(ws, as_, n - 1) && !Overlaps(ws, as_, n - 1);
      var c := StepIds(ws[n - 1], as_[n - 1]);
      if IdsAlone(ws[n - 1], ws[n]) {
        AloneInTurn(ws[n - 1], ws[n]);
      } else {
        MovesInTurn(ws[n - 1], ws[n], c);
      }
    }
  }

  lemma StartInTurn(attr: Attr, now: int)
    ensures InTurn(Start(attr, now))
  {
  }

  lemma {:induction false} IdsGrow(ws: seq<World>, as_: seq<Action>, m: nat, n: nat)
    requires IsRun(ws, as_) && m <= n < |ws|
    ensures ws[m].ids <= ws[n].ids
  {
    hide Next, Enabled;
    if m < n {
      IdsGrow(ws, as_, m, n - 1);
      assert StepOk(ws, as_, n - 1);
      var c := StepIds(ws[n - 1], as_[n - 1]);
    }
  }

  /** The first step at which jobs overlap. */
  lemma {:induction false} FirstOverlap(ws: seq<World>, as_: seq<Action>, n: nat) returns (i: nat)
    requires IsRun(ws, as_) && n < |ws|
    requires exists i :: 0 <= i < n && StepOk(ws, as_, i) && Overlaps(ws, as_, i)
    ensures i < n && StepOk(ws, as_, i) && Overlaps(ws, as_, i)
    ensures forall j :: 0 <= j < i ==> StepOk(ws, as_, j) && !Overlaps(ws, as_, j)
  {
    hide Next, Enabled, Overlaps;
    i := 0;
    assert StepOk(ws, as_, 0);
    while !Overlaps(ws, as_, i)
      invariant i < n && StepOk(ws, as_, i)
      invariant forall j :: 0 <= j < i ==> StepOk(ws, as_, j) && !Overlaps(ws, as_, j)
      invariant exists k :: i <= k < n && StepOk(ws, as_, k) && Overlaps(ws, as_, k)
      decreases n - i
    {
      i := i + 1;
      assert StepOk(ws, as_, i);
    }
  }

  /** Over every run the ids of the jobs accepted so far are distinct exactly when none of them was
      accepted while a call had yet to count the id of its own job. */
  lemma IdsDistinctExactly(ws: seq<World>, as_: seq<Action>, n: nat)
    requires IsRun(ws, as_) && n < |ws|
    ensures Distinct(ws[n].ids) <==> forall i :: 0 <= i < n ==> StepOk(ws, as_, i) && !Overlaps(ws, as_, i)
  {
    hide Next, Enabled, InTurn, IdMoves, Distinct, Overlaps;
    assert forall i :: 0 <= i < n ==> StepOk(ws, as_, i);
    if forall i :: 0 <= i < n ==> StepOk(ws, as_, i) && !Overlaps(ws, as_, i) {
      RunInTurn(ws, as_, n);
      InTurnDistinct(ws[n]);
    } else {
      var i := FirstOverlap(ws, as_, n);
      RunInTurn(ws, as_, i);
      SameId(ws, as_, i);
      IdsGrow(ws, as_, i + 1, n);
      StillTwice(ws[i + 1].ids, ws[n].ids);
    }
  }

  lemma InTurnDistinct(w: World)
    requires InTurn(w)
    ensures Distinct(w.ids)
  {
  }

  lemma SameId(ws: seq<World>, as_: seq<Action>, i: nat)
    requires i < |as_| && |ws| == |as_| + 1 && StepOk(ws, as_, i) && InTurn(ws[i]) && Overlaps(ws, as_, i)
    ensures !Distinct(ws[i + 1].ids)
  {
    hide Next, Enabled, InTurn, IdMoves, Distinct, SomePending;
    var c := StepIds(ws[i], as_[i]);
    OutOfTurn(ws[i], ws[i + 1], c);
  }

  lemma StillTwice(s: seq<int>, t: seq<int>)
    requires !Distinct(s) && s <= t
    ensures !Distinct(t)
  {
    var i, j :| 0 <= i < j < |s| && s[i] == s[j];
    assert t[i] == t[j];
  }

  /* ---- the jobs that have the ids ---- */

  predicate HasId(ids: seq<int>, j: Job) {
    j.ticket < |ids| && ids[j.ticket] == j.jobId
  }

  ghost function HasIdIn(ids: seq<int>): Job -> bool {
    (j: Job) => HasId(ids, j)
  }

  /** Every job queued, on offer or running has the id it was accepted with. */
  ghost predicate JobsHave(w: World) {
    AllHeld(HasIdIn(w.ids), w) && |w.ids| == w.accepted
  }

  lemma StepHave(w: World, a: Action)
    requires JobsHave(w) && Enabled(w, a)
    ensures JobsHave(Next(w, a))
  {
    hide Next, Enabled, AllHeld;
    var v := Next(w, a);
    var c := StepIds(w, a);
    MoreIds(w, v.ids);
    if v.accepted > w.accepted {
      assert HasId(v.ids, NewJob(w, Asked(w, a), CellOf(a)));
    }
    StepAll(HasIdIn(v.ids), w, a);
  }

  lemma MoreIds(w: World, ids: seq<int>)
    requires AllHeld(HasIdIn(w.ids), w) && w.ids <= ids
    ensures AllHeld(HasIdIn(ids), w)
  {
    var p, q := HasIdIn(w.ids), HasIdIn(ids);
    assert forall j {:trigger q(j)} :: p(j) ==> q(j);
    hide HasId, HasIdIn;
  }

  /** In every state of every run the jobs queued, on offer or running have the ids they got. */
  lemma {:induction false} RunHave(ws: seq<World>, as_: seq<Action>, n: nat)
    requires IsRun(ws, as_) && n < |ws|
    ensures JobsHave(ws[n])
  {
    hide Next, Enabled, JobsHave;
    if n == 0 {
      StartHave(ws[0].attr, ws[0].now);
    } else {
      RunHave(ws, as_, n - 1);
      assert StepOk(ws, as_, n - 1);
      StepHave(ws[n - 1], as_[n - 1]);
    }
  }

  lemma StartHave(attr: Attr, now: int)
    ensures JobsHave(Start(attr, now))
  {
    StartAll(HasIdIn([]), attr, now);
  }

  ghost predicate HasJob(w: World, j: Job) {
    j in w.q.high || j in w.q.med || j in w.q.low || w.slot == OneJob(j)
  }

  /** So while no two acceptances overlap an id names at most one of the jobs that wait. */
  lemma IdNamesOneJob(ws: seq<World>, as_: seq<Action>, n: nat, j: Job, k: Job)
    requires IsRun(ws, as_) && n < |ws|
    requires forall i :: 0 <= i < n ==> StepOk(ws, as_, i) && !Overlaps(ws, as_, i)
    requires HasJob(ws[n], j) && HasJob(ws[n], k) && j.jobId == k.jobId
    ensures j.ticket == k.ticket
  {
    hide Next, Enabled, IsRun, Overlaps, StepOk;
    IdsDistinctExactly(ws, as_, n);
    RunHave(ws, as_, n);
    var p := HasIdIn(ws[n].ids);
    assert p(j) && p(k);
  }
}
