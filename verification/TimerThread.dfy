/** The timer thread: events wait in a queue ordered by time and are handed to the thread pool. */
module TimerThread {
  import opened PoolJobs

  datatype Event = Event(id: nat, eventTime: int, persistent: bool, job: nat)

  ghost predicate Sorted(q: seq<Event>) {
    forall i, j :: 0 <= i < j < |q| ==> q[i].eventTime <= q[j].eventTime
  }

  /** Where an event goes: before the first that is not earlier, so before those of the same time. */
  function Place(q: seq<Event>, time: int): (i: nat)
    ensures i <= |q| && (i < |q| ==> q[i].eventTime >= time)
    ensures forall j :: 0 <= j < i ==> q[j].eventTime < time
  {
    if q == [] || q[0].eventTime >= time then 0 else 1 + Place(q[1..], time)
  }

  function Inserted(q: seq<Event>, e: Event): seq<Event> {
    var i := Place(q, e.eventTime);
    q[..i] + [e] + q[i..]
  }

  function FindId(q: seq<Event>, id: nat): (i: nat)
    ensures i <= |q| && (i < |q| ==> q[i].id == id) && forall j :: 0 <= j < i ==> q[j].id != id
  {
    if q == [] || q[0].id == id then 0 else 1 + FindId(q[1..], id)
  }

  function Cut(q: seq<Event>, i: nat): seq<Event>
    requires i < |q|
  {
    q[..i] + q[i + 1..]
  }

  /** The ids of some events, with multiplicity. */
  function Ids(q: seq<Event>): multiset<nat> {
    if q == [] then multiset{} else multiset{q[0].id} + Ids(q[1..])
  }

  /** The timer, the clock, and what became of the events scheduled so far; `ended` is set when the
      timer's thread has returned. */
  datatype Timer = Timer(
    eventQ: seq<Event>, lastEventId: nat, shutdown: bool, ended: bool, now: int,
    handed: seq<Event>, removed: multiset<nat>, discarded: multiset<nat>)

  datatype Action =
    | Tick(to: int)
    | Turn                       // one turn of the timer thread's loop
    | Schedule(time: int, persistent: bool, job: nat)
    | Remove(id: nat)
    | Shutdown

  /** Shutdown has begun; the timer's thread resets the flag as it returns. */
  predicate Closed(t: Timer) {
    t.shutdown || t.ended
  }

  predicate Due(t: Timer) {
    !t.shutdown && t.eventQ != [] && t.now >= t.eventQ[0].eventTime
  }

  predicate Enabled(t: Timer, a: Action) {
    match a
    case Tick(to) => to >= t.now
    case Turn => !t.ended
    case Schedule(_, _, _) => true
    case Remove(_) => true
    case Shutdown => !Closed(t)
  }

  function Next(t: Timer, a: Action): Timer
    requires Enabled(t, a)
  {
    match a
    case Tick(to) => t.(now := to)
    case Turn =>
      if t.shutdown then t.(shutdown := false, ended := true)
      else if Due(t) then t.(eventQ := t.eventQ[1..], handed := t.handed + [t.eventQ[0]])
      else t
    case Schedule(time, persistent, job) =>
      t.(eventQ := Inserted(t.eventQ, Event(t.lastEventId, time, persistent, job)), lastEventId := t.lastEventId + 1)
    case Remove(id) =>
      var i := FindId(t.eventQ, id);
      if i < |t.eventQ| then t.(eventQ := Cut(t.eventQ, i), removed := t.removed + multiset{id}) else t
    case Shutdown =>
      t.(eventQ := [], discarded := t.discarded + Ids(t.eventQ), shutdown := true)
  }

  function Start(now: int): Timer {
    Timer([], 0, false, false, now, [], multiset{}, multiset{})
  }

  ghost predicate StepOk(ts: seq<Timer>, as_: seq<Action>, i: nat)
    requires i < |as_| && |ts| == |as_| + 1
  {
    Enabled(ts[i], as_[i]) && ts[i + 1] == Next(ts[i], as_[i])
  }

  ghost predicate IsRun(ts: seq<Timer>, as_: seq<Action>) {
    |ts| == |as_| + 1 && ts[0] == Start(ts[0].now) && forall i :: 0 <= i < |as_| ==> StepOk(ts, as_, i)
  }

  /* ---- ids ---- */

  lemma IdsHead(s: seq<Event>, t: seq<Event>)
    requires s != []
    ensures Ids(s + t) == multiset{s[0].id} + Ids(s[1..] + t) && Ids(s) == multiset{s[0].id} + Ids(s[1..])
  {
    assert (s + t)[1..] == s[1..] + t && (s + t)[0] == s[0];
  }

  lemma {:induction false} IdsAppend(s: seq<Event>, t: seq<Event>)
    ensures Ids(s + t) == Ids(s) + Ids(t)
  {
    hide Ids;
    if s == [] {
      NoIds(s, t);
    } else {
      IdsHead(s, t);
      IdsAppend(s[1..], t);
    }
  }

  lemma NoIds(s: seq<Event>, t: seq<Event>)
    requires s == []
    ensures Ids(s + t) == Ids(t) && Ids(s) == multiset{}
  {
    assert s + t == t;
  }

  lemma IdsSingle(e: Event)
    ensures Ids([e]) == multiset{e.id}
  {
    assert [e][1..] == [];
  }

  lemma IdsInserted(q: seq<Event>, e: Event)
    ensures Ids(Inserted(q, e)) == Ids(q) + multiset{e.id}
  {
    hide Ids, Place;
    var i := Place(q, e.eventTime);
    assert q == q[..i] + q[i..];
    IdsAppend(q[..i] + [e], q[i..]);
    IdsAppend(q[..i], [e]);
    IdsAppend(q[..i], q[i..]);
    IdsSingle(e);
  }

  lemma IdsCut(q: seq<Event>, i: nat)
    requires i < |q|
    ensures Ids(q) == Ids(Cut(q, i)) + multiset{q[i].id}
  {
    hide Ids;
    assert q == q[..i] + ([q[i]] + q[i + 1..]);
    IdsAppend(q[..i], [q[i]] + q[i + 1..]);
    IdsAppend([q[i]], q[i + 1..]);
    IdsAppend(q[..i], q[i + 1..]);
    IdsSingle(q[i]);
  }

  /* ---- every run ---- */

  /** The queue is in order of time and every event is in one place. */
  ghost predicate Ok(t: Timer) {
    && Sorted(t.eventQ)
    && Ids(t.eventQ) + Ids(t.handed) + t.removed + t.discarded == Upto(t.lastEventId)
  }

  lemma InsertedSorted(q: seq<Event>, e: Event)
    requires Sorted(q)
    ensures Sorted(Inserted(q, e))
  {
  }

  lemma TurnOk(t: Timer)
    requires Ok(t) && !t.ended
    ensures Ok(Next(t, Turn))
  {
    hide Upto;
    if Due(t) {
      IdsSingle(t.eventQ[0]);
      IdsAppend(t.handed, [t.eventQ[0]]);
      assert Ids(t.eventQ) == multiset{t.eventQ[0].id} + Ids(t.eventQ[1..]);
      hide Ids;
      HandedSums(Ids(t.eventQ), Ids(t.eventQ[1..]), Ids(t.handed), multiset{t.eventQ[0].id}, t.removed, t.discarded);
    }
  }

  lemma HandedSums(q: multiset<nat>, rest: multiset<nat>, h: multiset<nat>, e: multiset<nat>, r: multiset<nat>,
      d: multiset<nat>)
    requires q == e + rest
    ensures q + h + r + d == rest + (h + e) + r + d
  {
  }

  lemma StepKeeps(t: Timer, a: Action)
    requires Ok(t) && Enabled(t, a)
    ensures Ok(Next(t, a))
  {
    hide Ids, Upto, Sorted, Place, FindId;
    match a
    case Tick(to) =>
    case Turn => TurnOk(t);
    case Schedule(time, persistent, job) => ScheduleOk(t, time, persistent, job);
    case Remove(id) => RemoveOk(t, id);
    case Shutdown => ShutdownOk(t);
  }

  lemma ScheduleOk(t: Timer, time: int, persistent: bool, job: nat)
    requires Ok(t)
    ensures Ok(Next(t, Schedule(time, persistent, job)))
  {
    hide Ids, Sorted, Inserted;
    var e := Event(t.lastEventId, time, persistent, job);
    InsertedSorted(t.eventQ, e);
    IdsInserted(t.eventQ, e);
  }

  lemma RemoveOk(t: Timer, id: nat)
    requires Ok(t)
    ensures Ok(Next(t, Remove(id)))
  {
    hide Ids, Upto, FindId;
    var i := FindId(t.eventQ, id);
    if i < |t.eventQ| {
      IdsCut(t.eventQ, i);
      hide Sorted, Cut;
      CutSorted(t.eventQ, i);
    }
  }

  lemma CutSorted(q: seq<Event>, i: nat)
    requires Sorted(q) && i < |q|
    ensures Sorted(Cut(q, i))
  {
  }

  lemma ShutdownOk(t: Timer)
    requires Ok(t) && !Closed(t)
    ensures Ok(Next(t, Shutdown))
  {
    hide Upto;
    assert Ids([]) == multiset{};
    hide Ids;
  }

  lemma {:induction false} RunKeeps(ts: seq<Timer>, as_: seq<Action>, i: nat)
    requires IsRun(ts, as_) && i < |ts|
    ensures Ok(ts[i])
  {
    hide Next, Enabled, Ok;
    if i == 0 {
      StartOk(ts[0].now);
    } else {
      RunKeeps(ts, as_, i - 1);
      assert StepOk(ts, as_, i - 1);
      StepKeeps(ts[i - 1], as_[i - 1]);
    }
  }

  lemma StartOk(now: int)
    ensures Ok(Start(now))
  {
  }

  /** In every state of every run the events wait in order of time, and every event scheduled so far
      is in exactly one of queued, handed over, removed or discarded; so ids are distinct. */
  lemma ExactlyOnePlace(ts: seq<Timer>, as_: seq<Action>, i: nat, id: nat)
    requires IsRun(ts, as_) && i < |ts|
    ensures Sorted(ts[i].eventQ)
    ensures var t := ts[i];
            Ids(t.eventQ)[id] + Ids(t.handed)[id] + t.removed[id] + t.discarded[id]
                == if id < t.lastEventId then 1 else 0
  {
    hide IsRun, Ids, Upto, Sorted;
    RunKeeps(ts, as_, i);
    UptoOnce(ts[i].lastEventId, id);
    var t := ts[i];
    assert (Ids(t.eventQ) + Ids(t.handed) + t.removed + t.discarded)[id]
           == Ids(t.eventQ)[id] + Ids(t.handed)[id] + t.removed[id] + t.discarded[id];
  }

  /** An event is handed to the pool only when it is due, no event in the queue is earlier, and
      shutdown has not begun; handing it over is the only way a step changes what was handed. */
  lemma HandedWhenDue(ts: seq<Timer>, as_: seq<Action>, i: nat)
    requires IsRun(ts, as_) && i < |as_| && ts[i + 1].handed != ts[i].handed
    ensures var t, v := ts[i], ts[i + 1];
            && as_[i].Turn? && t.eventQ != [] && v.handed == t.handed + [t.eventQ[0]] && v.eventQ == t.eventQ[1..]
            && t.eventQ[0].eventTime <= t.now && !Closed(t)
            && forall e :: e in t.eventQ ==> t.eventQ[0].eventTime <= e.eventTime
  {
    hide Ids, Upto;
    RunKeeps(ts, as_, i);
    assert StepOk(ts, as_, i);
  }

  /** Shutdown is for good: no event is handed over after it was set, although events may still be
      scheduled while the caller of shutdown waits for the timer's thread. */
  lemma {:induction false} NoneAfterShutdown(ts: seq<Timer>, as_: seq<Action>, i: nat, j: nat)
    requires IsRun(ts, as_) && i <= j < |ts| && Closed(ts[i])
    ensures Closed(ts[j]) && ts[j].handed == ts[i].handed
  {
    hide Ids, Upto, Next, Enabled;
    if i < j {
      NoneAfterShutdown(ts, as_, i, j - 1);
      assert StepOk(ts, as_, j - 1);
      StaysClosed(ts[j - 1], as_[j - 1]);
      if ts[j].handed != ts[j - 1].handed {
        HandedWhenDue(ts, as_, j - 1);
      }
    }
  }

  lemma StaysClosed(t: Timer, a: Action)
    requires Enabled(t, a) && Closed(t)
    ensures Closed(Next(t, a))
  {
  }

  /** Of events with the same time the one scheduled last comes first. */
  ghost predicate NewestFirst(t: Timer) {
    && (forall i, j :: 0 <= i < j < |t.eventQ| && t.eventQ[i].eventTime == t.eventQ[j].eventTime ==>
          t.eventQ[i].id > t.eventQ[j].id)
    && (forall i :: 0 <= i < |t.eventQ| ==> t.eventQ[i].id < t.lastEventId)
  }

  lemma InsertedIs(q: seq<Event>, e: Event)
    ensures var i, r := Place(q, e.eventTime), Inserted(q, e);
            && |r| == |q| + 1
            && forall k {:trigger r[k]} :: 0 <= k < |r| ==>
                 r[k] == if k < i then q[k] else if k == i then e else q[k - 1]
  {
    hide Place;
  }

  lemma ScheduledNewestFirst(t: Timer, time: int, persistent: bool, job: nat)
    requires Sorted(t.eventQ) && NewestFirst(t)
    ensures NewestFirst(Next(t, Schedule(time, persistent, job)))
  {
    hide Inserted, Place;
    var e, i := Event(t.lastEventId, time, persistent, job), Place(t.eventQ, time);
    InsertedIs(t.eventQ, e);
    InsertedNewestFirst(t.eventQ, e, i, Inserted(t.eventQ, e));
  }

  lemma InsertedNewestFirst(q: seq<Event>, e: Event, i: nat, r: seq<Event>)
    requires Sorted(q) && i <= |q| && |r| == |q| + 1
    requires forall k {:trigger r[k]} :: 0 <= k < |r| ==>
      r[k] == if k < i then q[k] else if k == i then e else q[k - 1]
    requires (forall k :: 0 <= k < i ==> q[k].eventTime < e.eventTime) && (i < |q| ==> q[i].eventTime >= e.eventTime)
    requires forall j, k :: 0 <= j < k < |q| && q[j].eventTime == q[k].eventTime ==> q[j].id > q[k].id
    requires forall k :: 0 <= k < |q| ==> q[k].id < e.id
    ensures forall j, k :: 0 <= j < k < |r| && r[j].eventTime == r[k].eventTime ==> r[j].id > r[k].id
  {
    forall j, k | 0 <= j < k < |r| && r[j].eventTime == r[k].eventTime ensures r[j].id > r[k].id {
      if j < i < k {
        assert q[i].eventTime <= q[k - 1].eventTime;
      }
    }
  }

  lemma CutIs(q: seq<Event>, i: nat)
    requires i < |q|
    ensures var r := Cut(q, i);
            && |r| == |q| - 1
            && forall k {:trigger r[k]} :: 0 <= k < |r| ==> r[k] == q[if k < i then k else k + 1]
  {
  }

  lemma RemovedNewestFirst(t: Timer, id: nat)
    requires NewestFirst(t)
    ensures NewestFirst(Next(t, Remove(id)))
  {
    hide Cut, FindId;
    var i := FindId(t.eventQ, id);
    if i < |t.eventQ| {
      CutIs(t.eventQ, i);
    }
  }

  lemma StepNewestFirst(t: Timer, a: Action)
    requires Sorted(t.eventQ) && NewestFirst(t) && Enabled(t, a)
    ensures NewestFirst(Next(t, a))
  {
    hide Inserted, Cut, FindId, Place;
    match a
    case Schedule(time, persistent, job) => ScheduledNewestFirst(t, time, persistent, job);
    case Remove(id) => RemovedNewestFirst(t, id);
    case _ =>
  }

  lemma {:induction false} RunNewestFirst(ts: seq<Timer>, as_: seq<Action>, i: nat)
    requires IsRun(ts, as_) && i < |ts|
    ensures NewestFirst(ts[i])
  {
    hide Next, Enabled, Ids, Upto, NewestFirst, Sorted;
    if i == 0 {
      NoEventsYet(ts[0].now);
    } else {
      RunNewestFirst(ts, as_, i - 1);
      RunKeeps(ts, as_, i - 1);
      assert StepOk(ts, as_, i - 1);
      StepNewestFirst(ts[i - 1], as_[i - 1]);
    }
  }

  lemma NoEventsYet(now: int)
    ensures NewestFirst(Start(now))
  {
  }

  /** Events of the same time are handed over newest first: all that are still queued were scheduled
      before the one handed over. */
  lemma HandedNewestFirst(ts: seq<Timer>, as_: seq<Action>, i: nat)
    requires IsRun(ts, as_) && i < |as_| && ts[i + 1].handed != ts[i].handed
    ensures ts[i].eventQ != [] && ts[i + 1].handed == ts[i].handed + [ts[i].eventQ[0]]
    ensures forall e :: e in ts[i + 1].eventQ && e.eventTime == ts[i].eventQ[0].eventTime ==> e.id < ts[i].eventQ[0].id
  {
    hide Next, Enabled, StepOk;
    HandedWhenDue(ts, as_, i);
    RunNewestFirst(ts, as_, i);
    forall e | e in ts[i + 1].eventQ && e.eventTime == ts[i].eventQ[0].eventTime ensures e.id < ts[i].eventQ[0].id {
      var k :| 0 <= k < |ts[i + 1].eventQ| && ts[i + 1].eventQ[k] == e;
      assert ts[i].eventQ[k + 1] == e;
    }
  }

  /* ---- what was asked for ---- */

  /** Step i scheduled e: at that time, with that job, and under that id. */
  ghost predicate ScheduledAt(ts: seq<Timer>, as_: seq<Action>, i: nat, e: Event)
    requires i < |as_| && |ts| == |as_| + 1
  {
    as_[i] == Schedule(e.eventTime, e.persistent, e.job) && e.id == ts[i].lastEventId
  }

  ghost predicate WasScheduled(ts: seq<Timer>, as_: seq<Action>, n: nat, e: Event)
    requires n <= |as_| && |ts| == |as_| + 1
  {
    exists i :: 0 <= i < n && ScheduledAt(ts, as_, i, e)
  }

  /** A step brings no event but the one it schedules. */
  lemma StepBrings(t: Timer, a: Action, e: Event)
    requires Enabled(t, a) && (e in Next(t, a).eventQ || e in Next(t, a).handed)
    ensures || e in t.eventQ || e in t.handed
            || (a == Schedule(e.eventTime, e.persistent, e.job) && e.id == t.lastEventId)
  {
    hide Place, FindId;
  }

  /** In every state of every run each event queued or handed over was scheduled, with just that time,
      duration and job, at the step that gave out its id. */
  lemma {:induction false} EventAsAsked(ts: seq<Timer>, as_: seq<Action>, n: nat, e: Event)
    requires IsRun(ts, as_) && n < |ts| && (e in ts[n].eventQ || e in ts[n].handed)
    ensures WasScheduled(ts, as_, n, e)
  {
    hide Next, Enabled;
    if n == 0 {
      NothingScheduled(ts[0].now, e);
    } else {
      assert StepOk(ts, as_, n - 1);
      StepBrings(ts[n - 1], as_[n - 1], e);
      if e in ts[n - 1].eventQ || e in ts[n - 1].handed {
        EventAsAsked(ts, as_, n - 1, e);
        var i :| 0 <= i < n - 1 && ScheduledAt(ts, as_, i, e);
      } else {
        assert ScheduledAt(ts, as_, n - 1, e);
      }
    }
  }

  lemma NothingScheduled(now: int, e: Event)
    ensures e !in Start(now).eventQ && e !in Start(now).handed
  {
  }

  /** An id is given out once. */
  lemma {:induction false} IdsGrow(ts: seq<Timer>, as_: seq<Action>, i: nat, n: nat)
    requires IsRun(ts, as_) && i < n < |ts| && as_[i].Schedule?
    ensures ts[i].lastEventId < ts[n].lastEventId
  {
    assert StepOk(ts, as_, n - 1);
    if i < n - 1 {
      IdsGrow(ts, as_, i, n - 1);
    }
    hide Place, FindId, Ids;
  }

  /** An event keeps the time, duration and job it was scheduled with as long as it is queued, and when
      it is handed over. */
  lemma EventKept(ts: seq<Timer>, as_: seq<Action>, i: nat, n: nat, e: Event)
    requires IsRun(ts, as_) && i < n < |ts| && as_[i].Schedule?
    requires (e in ts[n].eventQ || e in ts[n].handed) && e.id == ts[i].lastEventId
    ensures e == Event(ts[i].lastEventId, as_[i].time, as_[i].persistent, as_[i].job)
  {
    EventAsAsked(ts, as_, n, e);
    var k :| 0 <= k < n && ScheduledAt(ts, as_, k, e);
    if k < i {
      IdsGrow(ts, as_, k, i);
    } else if i < k {
      IdsGrow(ts, as_, i, k);
    }
    hide IsRun;
  }

  /** Nothing is handed over before the time that was asked for. */
  lemma NeverEarly(ts: seq<Timer>, as_: seq<Action>, i: nat, n: nat, e: Event)
    requires IsRun(ts, as_) && i < n < |as_| && as_[i].Schedule?
    requires ts[n + 1].handed == ts[n].handed + [e] && e.id == ts[i].lastEventId
    ensures as_[i].time <= ts[n].now && e == Event(ts[i].lastEventId, as_[i].time, as_[i].persistent, as_[i].job)
  {
    hide Next, Enabled, StepOk;
    HandedWhenDue(ts, as_, n);
    assert e == (ts[n].handed + [e])[|ts[n].handed|] == (ts[n].handed + [ts[n].eventQ[0]])[|ts[n].handed|];
    EventKept(ts, as_, i, n, e);
  }

  /** When the time of a queued event has come, a turn hands one over, unless shutdown has begun. */
  lemma TurnHandsOver(ts: seq<Timer>, as_: seq<Action>, n: nat, e: Event)
    requires IsRun(ts, as_) && n < |as_| && as_[n].Turn? && !Closed(ts[n])
    requires e in ts[n].eventQ && e.eventTime <= ts[n].now
    ensures ts[n].eventQ != [] && ts[n + 1].handed == ts[n].handed + [ts[n].eventQ[0]]
    ensures ts[n + 1].eventQ == ts[n].eventQ[1..] && ts[n].eventQ[0].eventTime <= e.eventTime
  {
    hide Ids, Upto;
    RunKeeps(ts, as_, n);
    assert StepOk(ts, as_, n);
    var k :| 0 <= k < |ts[n].eventQ| && ts[n].eventQ[k] == e;
    assert k == 0 || ts[n].eventQ[0].eventTime <= ts[n].eventQ[k].eventTime;
  }

  /* ---- the code ---- */

  class TimerThread {
    var eventQ: seq<Event>
    var lastEventId: nat
    var shutdown: bool

    constructor ()
      ensures eventQ == [] && lastEventId == 0 && !shutdown
    {
      eventQ, lastEventId, shutdown := [], 0, false;
    }

    /** One turn of the loop: the event handed over, if one is due, and whether the thread ends. */
    method Work(now: int) returns (handed: seq<Event>, ended: bool)
      modifies this
      ensures forall t :: old(Shows(t)) && t.now == now && !t.ended ==>
        Shows(Next(t, Turn)) && Next(t, Turn).handed == t.handed + handed && Next(t, Turn).ended == ended
    {
      if shutdown {
        shutdown := false;
        return [], true;
      }
      if |eventQ| > 0 {
        var nextEvent := eventQ[0];
        if now >= nextEvent.eventTime {
          eventQ := eventQ[1..];
          return [nextEvent], false;
        }
      }
      return [], false;
    }

    /** The fields are those of t. */
    ghost predicate Shows(t: Timer)
      reads this
    {
      t.eventQ == eventQ && t.lastEventId == lastEventId && t.shutdown == shutdown
    }

    method ScheduleEvent(time: int, persistent: bool, job: nat) returns (id: nat)
      modifies this
      ensures id == old(lastEventId)
      ensures forall t :: old(Shows(t)) ==> Shows(Next(t, Schedule(time, persistent, job)))
    {
      var newEvent := Event(lastEventId, time, persistent, job);
      var i := 0;
      while i < |eventQ| && eventQ[i].eventTime < time
        invariant i <= |eventQ| && forall j :: 0 <= j < i ==> eventQ[j].eventTime < time
      {
        i := i + 1;
      }
      eventQ := eventQ[..i] + [newEvent] + eventQ[i..];
      id := lastEventId;
      lastEventId := lastEventId + 1;
    }

    method RemoveEvent(id: nat) returns (removed: seq<Event>)
      modifies this`eventQ
      ensures forall t :: old(Shows(t)) ==> Shows(Next(t, Remove(id)))
      ensures var i := FindId(old(eventQ), id); removed == if i < |old(eventQ)| then [old(eventQ)[i]] else []
    {
      var i := 0;
      while i < |eventQ|
        invariant i <= |eventQ| && forall j :: 0 <= j < i ==> eventQ[j].id != id
        invariant eventQ == old(eventQ)
      {
        if eventQ[i].id == id {
          removed := [eventQ[i]];
          eventQ := eventQ[..i] + eventQ[i + 1..];
          return;
        }
        i := i + 1;
      }
      return [];
    }

    /** Discards the events still queued, first to last. */
    method ShutDown() returns (discarded: seq<Event>)
      modifies this
      ensures discarded == old(eventQ)
      ensures forall t :: old(Shows(t)) && !Closed(t) ==>
        Shows(Next(t, Shutdown)) && Next(t, Shutdown).discarded == t.discarded + Ids(discarded)
    {
      shutdown := true;
      discarded := [];
      while eventQ != []
        invariant discarded + eventQ == old(eventQ) && shutdown && lastEventId == old(lastEventId)
        decreases |eventQ|
      {
        discarded := discarded + [eventQ[0]];
        eventQ := eventQ[1..];
      }
    }
  }
}
