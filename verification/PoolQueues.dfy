/** The three queues of the thread pool, and how starved jobs move up. */
module PoolQueues {

  datatype Priority = Low | Med | High

  /** A job waiting or running.  `ticket` numbers the jobs ever accepted and `entered` is when the
      job joined its present queue; nothing in the pool reads these two. */
  datatype Job = Job(ticket: nat, cell: nat, jobId: int, priority: Priority, requestTime: int, entered: int)

  datatype Slot = NoJob | OneJob(job: Job)

  datatype Queues = Queues(high: seq<Job>, med: seq<Job>, low: seq<Job>)

  // -1 threads means no limit
  const INFINITE_THREADS := -1

  datatype Attr = Attr(minThreads: int, maxThreads: int, maxIdleTime: int, jobsPerThread: int, starvationTime: int)

  predicate MedStarves(q: Queues, attr: Attr, now: int) {
    q.med != [] && now - q.med[0].requestTime >= attr.starvationTime
  }

  predicate LowStarves(q: Queues, attr: Attr, now: int) {
    q.low != [] && now - q.low[0].requestTime >= attr.maxIdleTime
  }

  function MedBumped(q: Queues, now: int): Queues
    requires q.med != []
  {
    q.(high := q.high + [q.med[0].(entered := now)], med := q.med[1..])
  }

  function LowBumped(q: Queues, now: int): Queues
    requires q.low != []
  {
    q.(med := q.med + [q.low[0].(entered := now)], low := q.low[1..])
  }

  /** Jobs move up one queue while the head of the medium queue, or else of the low one, has waited
      too long. */
  function Bumped(q: Queues, attr: Attr, now: int): Queues
    decreases 2 * |q.low| + |q.med|
  {
    if MedStarves(q, attr, now) then Bumped(MedBumped(q, now), attr, now)
    else if LowStarves(q, attr, now) then Bumped(LowBumped(q, now), attr, now)
    else q
  }

  predicate NonEmpty(q: Queues) {
    q.high != [] || q.med != [] || q.low != []
  }

  /** The head of the highest queue that has one. */
  function First(q: Queues): Job
    requires NonEmpty(q)
  {
    if q.high != [] then q.high[0] else if q.med != [] then q.med[0] else q.low[0]
  }

  function Rest(q: Queues): Queues
    requires NonEmpty(q)
  {
    if q.high != [] then q.(high := q.high[1..])
    else if q.med != [] then q.(med := q.med[1..])
    else q.(low := q.low[1..])
  }

  function Enqueued(q: Queues, job: Job): Queues {
    match job.priority
    case High => q.(high := q.high + [job])
    case Med => q.(med := q.med + [job])
    case Low => q.(low := q.low + [job])
  }

  /** Where the first job with the id is, or the length. */
  function Find(s: seq<Job>, id: int): (i: nat)
    ensures i <= |s| && (i < |s| ==> s[i].jobId == id) && forall j :: 0 <= j < i ==> s[j].jobId != id
  {
    if s == [] || s[0].jobId == id then 0 else 1 + Find(s[1..], id)
  }

  function Cut(s: seq<Job>, i: nat): seq<Job>
    requires i < |s|
  {
    s[..i] + s[i + 1..]
  }

  datatype Removal = NotFound | Found(job: Job, q: Queues, slot: Slot)

  /** The job with the id is looked for in the high, medium and low queue and in the slot. */
  function Removed(q: Queues, slot: Slot, id: int): Removal {
    var h, m, l := Find(q.high, id), Find(q.med, id), Find(q.low, id);
    if h < |q.high| then Found(q.high[h], q.(high := Cut(q.high, h)), slot)
    else if m < |q.med| then Found(q.med[m], q.(med := Cut(q.med, m)), slot)
    else if l < |q.low| then Found(q.low[l], q.(low := Cut(q.low, l)), slot)
    else if slot.OneJob? && slot.job.jobId == id then Found(slot.job, q, NoJob)
    else NotFound
  }

  /* ---- how long jobs wait ---- */

  /** Jobs joined their queue in order, and the low queue is in order of request. */
  ghost predicate InOrder(q: Queues, now: int) {
    && (forall i, j :: 0 <= i < j < |q.low| ==> q.low[i].requestTime <= q.low[j].requestTime)
    && (forall i :: 0 <= i < |q.low| ==> q.low[i].requestTime <= now)
    && (forall i, j :: 0 <= i < j < |q.med| ==> q.med[i].entered <= q.med[j].entered)
    && (forall i :: 0 <= i < |q.med| ==> q.med[i].requestTime <= q.med[i].entered <= now)
  }

  /** No job has been kept too long. */
  ghost predicate NoneStarves(q: Queues, attr: Attr, now: int) {
    && (forall j :: j in q.low ==> now - j.requestTime < attr.maxIdleTime)
    && (forall j :: j in q.med ==> now - j.entered < attr.starvationTime)
  }

  lemma MedBumpedInOrder(q: Queues, now: int)
    requires InOrder(q, now) && q.med != []
    ensures InOrder(MedBumped(q, now), now)
  {
  }

  lemma LowBumpedInOrder(q: Queues, now: int)
    requires InOrder(q, now) && q.low != []
    ensures InOrder(LowBumped(q, now), now)
  {
  }

  /** After bumping nobody starves, although only the heads are looked at. */
  lemma {:induction false} BumpedFeeds(q: Queues, attr: Attr, now: int)
    requires InOrder(q, now)
    ensures InOrder(Bumped(q, attr, now), now) && NoneStarves(Bumped(q, attr, now), attr, now)
    decreases 2 * |q.low| + |q.med|
  {
    if MedStarves(q, attr, now) {
      MedBumpedInOrder(q, now);
      BumpedFeeds(MedBumped(q, now), attr, now);
    } else if LowStarves(q, attr, now) {
      LowBumpedInOrder(q, now);
      BumpedFeeds(LowBumped(q, now), attr, now);
    } else {
      forall j | j in q.low ensures now - j.requestTime < attr.maxIdleTime {
        var i :| 0 <= i < |q.low| && q.low[i] == j;
        assert q.low[0].requestTime <= q.low[i].requestTime;
      }
      forall j | j in q.med ensures now - j.entered < attr.starvationTime {
        var i :| 0 <= i < |q.med| && q.med[i] == j;
        assert q.med[0].entered <= q.med[i].entered;
      }
    }
  }

  /** The high queue only grows at its end. */
  lemma {:induction false} BumpedKeepsHigh(q: Queues, attr: Attr, now: int)
    ensures q.high <= Bumped(q, attr, now).high
    decreases 2 * |q.low| + |q.med|
  {
    if MedStarves(q, attr, now) {
      BumpedKeepsHigh(MedBumped(q, now), attr, now);
    } else if LowStarves(q, attr, now) {
      BumpedKeepsHigh(LowBumped(q, now), attr, now);
    }
  }

  lemma {:induction false} BumpedNonEmpty(q: Queues, attr: Attr, now: int)
    ensures NonEmpty(Bumped(q, attr, now)) <==> NonEmpty(q)
    decreases 2 * |q.low| + |q.med|
  {
    if MedStarves(q, attr, now) {
      BumpedNonEmpty(MedBumped(q, now), attr, now);
    } else if LowStarves(q, attr, now) {
      BumpedNonEmpty(LowBumped(q, now), attr, now);
    }
  }

  /** Taking the first job, or removing one, keeps the order. */
  lemma RestInOrder(q: Queues, now: int)
    requires InOrder(q, now) && NonEmpty(q)
    ensures InOrder(Rest(q), now)
  {
  }

  lemma EnqueuedInOrder(q: Queues, job: Job, now: int)
    requires InOrder(q, now) && job.requestTime == job.entered == now
    ensures InOrder(Enqueued(q, job), now)
  {
  }

  lemma RemovedInOrder(q: Queues, slot: Slot, id: int, now: int)
    requires InOrder(q, now)
    ensures var r := Removed(q, slot, id); r.Found? ==> InOrder(r.q, now)
  {
    hide Find;
    var m, l := Find(q.med, id), Find(q.low, id);
    if m < |q.med| {
      MedCutInOrder(q, m, now);
    }
    if l < |q.low| {
      LowCutInOrder(q, l, now);
    }
    hide Cut;
  }

  lemma MedCutInOrder(q: Queues, i: nat, now: int)
    requires InOrder(q, now) && i < |q.med|
    ensures InOrder(q.(med := Cut(q.med, i)), now)
  {
  }

  lemma LowCutInOrder(q: Queues, i: nat, now: int)
    requires InOrder(q, now) && i < |q.low|
    ensures InOrder(q.(low := Cut(q.low, i)), now)
  {
  }

  lemma LaterInOrder(q: Queues, now: int, later: int)
    requires InOrder(q, now) && now <= later
    ensures InOrder(q, later)
  {
  }

  /* ---- what is in the queues ---- */

  /** The keys of some jobs, with multiplicity. */
  function Bag(key: Job -> nat, s: seq<Job>): multiset<nat> {
    if s == [] then multiset{} else multiset{key(s[0])} + Bag(key, s[1..])
  }

  function SlotBag(key: Job -> nat, slot: Slot): multiset<nat> {
    if slot.OneJob? then multiset{key(slot.job)} else multiset{}
  }

  function QueueBag(key: Job -> nat, q: Queues): multiset<nat> {
    Bag(key, q.high) + Bag(key, q.med) + Bag(key, q.low)
  }

  const TICKET: Job -> nat := (j: Job) => j.ticket
  const CELL: Job -> nat := (j: Job) => j.cell

  /** The key does not depend on the queue a job is in. */
  ghost predicate Fixed(key: Job -> nat) {
    forall j: Job, t: int {:trigger key(j.(entered := t))} :: key(j.(entered := t)) == key(j)
  }

  lemma TicketAndCellFixed()
    ensures Fixed(TICKET) && Fixed(CELL)
  {
  }

  lemma BagHead(key: Job -> nat, s: seq<Job>, t: seq<Job>)
    requires s != []
    ensures (s + t)[1..] == s[1..] + t
    ensures Bag(key, s + t) == multiset{key(s[0])} + Bag(key, s[1..] + t)
    ensures Bag(key, s) == multiset{key(s[0])} + Bag(key, s[1..])
  {
    assert (s + t)[1..] == s[1..] + t && (s + t)[0] == s[0];
  }

  lemma {:induction false} BagAppend(key: Job -> nat, s: seq<Job>, t: seq<Job>)
    ensures Bag(key, s + t) == Bag(key, s) + Bag(key, t)
  {
    if s == [] {
      assert s + t == t;
    } else {
      hide Bag;
      BagHead(key, s, t);
      BagAppend(key, s[1..], t);
    }
  }

  lemma BagSingle(key: Job -> nat, j: Job)
    ensures Bag(key, [j]) == multiset{key(j)}
  {
    assert [j][1..] == [];
  }

  lemma BagSnoc(key: Job -> nat, s: seq<Job>, j: Job)
    ensures Bag(key, s + [j]) == Bag(key, s) + multiset{key(j)}
  {
    BagAppend(key, s, [j]);
    BagSingle(key, j);
  }

  lemma BagCut(key: Job -> nat, s: seq<Job>, i: nat)
    requires i < |s|
    ensures Bag(key, s) == Bag(key, Cut(s, i)) + multiset{key(s[i])}
  {
    hide Bag;
    assert s == s[..i] + ([s[i]] + s[i + 1..]);
    BagAppend(key, s[..i], [s[i]] + s[i + 1..]);
    BagAppend(key, [s[i]], s[i + 1..]);
    BagSingle(key, s[i]);
    BagAppend(key, s[..i], s[i + 1..]);
  }

  lemma {:induction false} BumpedBag(key: Job -> nat, q: Queues, attr: Attr, now: int)
    requires Fixed(key)
    ensures QueueBag(key, Bumped(q, attr, now)) == QueueBag(key, q)
    decreases 2 * |q.low| + |q.med|
  {
    if MedStarves(q, attr, now) {
      BagSnoc(key, q.high, q.med[0].(entered := now));
      BumpedBag(key, MedBumped(q, now), attr, now);
    } else if LowStarves(q, attr, now) {
      BagSnoc(key, q.med, q.low[0].(entered := now));
      BumpedBag(key, LowBumped(q, now), attr, now);
    }
  }

  lemma RestBag(key: Job -> nat, q: Queues)
    requires NonEmpty(q)
    ensures QueueBag(key, q) == QueueBag(key, Rest(q)) + multiset{key(First(q))}
  {
  }

  lemma EnqueuedBag(key: Job -> nat, q: Queues, job: Job)
    ensures QueueBag(key, Enqueued(q, job)) == QueueBag(key, q) + multiset{key(job)}
  {
    hide Bag;
    match job.priority
    case High => BagSnoc(key, q.high, job);
    case Med => BagSnoc(key, q.med, job);
    case Low => BagSnoc(key, q.low, job);
  }

  lemma RemovedBag(key: Job -> nat, q: Queues, slot: Slot, id: int)
    ensures var r := Removed(q, slot, id);
            r.Found? ==> QueueBag(key, q) + SlotBag(key, slot)
                         == (QueueBag(key, r.q) + SlotBag(key, r.slot)) + multiset{key(r.job)}
  {
    hide Bag, QueueBag, Cut, Find;
    var h, m, l := Find(q.high, id), Find(q.med, id), Find(q.low, id);
    var r := Removed(q, slot, id);
    if h < |q.high| {
      BagCut(key, q.high, h);
      OneTaken(key, q, r.q, r.job, SlotBag(key, slot));
    } else if m < |q.med| {
      BagCut(key, q.med, m);
      OneTaken(key, q, r.q, r.job, SlotBag(key, slot));
    } else if l < |q.low| {
      BagCut(key, q.low, l);
      OneTaken(key, q, r.q, r.job, SlotBag(key, slot));
    }
  }

  /** One of the queues has one job fewer. */
  lemma OneTaken(key: Job -> nat, q: Queues, q2: Queues, job: Job, rest: multiset<nat>)
    requires var x := multiset{key(job)};
             || (Bag(key, q.high) == Bag(key, q2.high) + x && q2 == q.(high := q2.high))
             || (Bag(key, q.med) == Bag(key, q2.med) + x && q2 == q.(med := q2.med))
             || (Bag(key, q.low) == Bag(key, q2.low) + x && q2 == q.(low := q2.low))
    ensures QueueBag(key, q) + rest == (QueueBag(key, q2) + rest) + multiset{key(job)}
  {
    hide Bag;
  }
}
