/** The stretches of the thread pool's code that run under its mutex. */
module ThreadPool {
  import opened PoolQueues
  import opened PoolMachine

  class ThreadPool {
    var attr: Attr
    var highJobQ: seq<Job>
    var medJobQ: seq<Job>
    var lowJobQ: seq<Job>
    var persistentJob: Slot
    var lastJobId: int
    var shutdown: bool
    var totalThreads: int
    var persistentThreads: int
    // the cells kept for reuse, last one given back first
    var jobFreeList: seq<nat>

    ghost function Q(): Queues
      reads this
    {
      Queues(highJobQ, medJobQ, lowJobQ)
    }

    /** The parts of the pool that the state machine steps change are those of w. */
    ghost predicate Agrees(w: World)
      reads this
    {
      && w.attr == attr && w.q == Q() && w.slot == persistentJob && w.shutdown == shutdown && w.lastJobId == lastJobId
      && w.totalThreads == totalThreads && w.persistentThreads == persistentThreads && w.free == jobFreeList
    }

    constructor (attr: Attr)
      ensures this.attr == attr && forall now :: Agrees(Start(attr, now))
    {
      this.attr := attr;
      highJobQ, medJobQ, lowJobQ := [], [], [];
      persistentJob, lastJobId, shutdown := NoJob, 0, false;
      totalThreads, persistentThreads := 0, 0;
      jobFreeList := [];
    }

    /** Moves starved jobs up. */
    method BumpPriority(now: int)
      modifies this`highJobQ, this`medJobQ, this`lowJobQ
      ensures Q() == Bumped(old(Q()), attr, now)
    {
      var done := false;
      while !done
        invariant Bumped(Q(), attr, now) == Bumped(old(Q()), attr, now)
        invariant done ==> !MedStarves(Q(), attr, now) && !LowStarves(Q(), attr, now)
        decreases 2 * |lowJobQ| + |medJobQ|, if done then 0 else 1
      {
        if |medJobQ| > 0 {
          var tempJob := medJobQ[0];
          if now - tempJob.requestTime >= attr.starvationTime {
            assert MedStarves(Q(), attr, now);
            medJobQ := medJobQ[1..];
            highJobQ := highJobQ + [tempJob.(entered := now)];
            continue;
          }
        }
        if |lowJobQ| > 0 {
          var tempJob := lowJobQ[0];
          if now - tempJob.requestTime >= attr.maxIdleTime {
            assert !MedStarves(Q(), attr, now) && LowStarves(Q(), attr, now);
            lowJobQ := lowJobQ[1..];
            medJobQ := medJobQ + [tempJob.(entered := now)];
            continue;
          }
        }
        done := true;
      }
    }

    /** What a worker does once it no longer waits: it takes a job, or finds the pool shut down and
        leaves. */
    method TakeJob(now: int) returns (job: Slot, persistent: bool)
      requires highJobQ != [] || medJobQ != [] || lowJobQ != [] || persistentJob.OneJob? || shutdown
      modifies this
      ensures job.NoJob? <==> old(shutdown)
      ensures forall w, i: nat :: old(Agrees(w)) && w.now == now && i < |w.workers| ==>
        && Agrees(Proceed(w, i))
        && Proceed(w, i).workers[i] == if job.OneJob? then Running(job.job, persistent) else Gone
    {
      hide Bumped;
      BumpedNonEmpty(Q(), attr, now);
      BumpPriority(now);
      persistent := false;
      if shutdown {
        totalThreads := totalThreads - 1;
        return NoJob, false;
      }
      if persistentJob.OneJob? {
        job := persistentJob;
        persistentJob := NoJob;
        persistentThreads := persistentThreads + 1;
        persistent := true;
      } else if |highJobQ| > 0 {
        job := OneJob(highJobQ[0]);
        highJobQ := highJobQ[1..];
      } else if |medJobQ| > 0 {
        job := OneJob(medJobQ[0]);
        medJobQ := medJobQ[1..];
      } else {
        job := OneJob(lowJobQ[0]);
        lowJobQ := lowJobQ[1..];
      }
    }

    /** A job cell goes back to the list, or is released when the list is full. */
    method FreeListFree(cell: nat)
      modifies this`jobFreeList
      ensures jobFreeList == FreeCell(old(jobFreeList), cell)
      ensures jobFreeList == if |old(jobFreeList)| + 1 < 100 then [cell] + old(jobFreeList) else old(jobFreeList)
      ensures |old(jobFreeList)| < JOBFREELISTSIZE ==> |jobFreeList| < JOBFREELISTSIZE
    {
      if |jobFreeList| + 1 < JOBFREELISTSIZE {
        jobFreeList := [cell] + jobFreeList;
      }
    }

    /** A worker back from a job gives back the cell, and is no longer persistent. */
    method GiveBack(done: Slot, persistent: bool)
      modifies this`jobFreeList, this`persistentThreads
      ensures forall w, i: nat :: old(Agrees(w)) && i < |w.workers| && w.workers[i] == AtTop(done, persistent) ==>
        Agrees(Returning(w, i))
    {
      if done.OneJob? {
        FreeListFree(done.job.cell);
      }
      if persistent {
        persistentThreads := persistentThreads - 1;
      }
    }

    /** Puts a new job at the end of the queue of its priority. */
    method Enqueue(job: Job)
      modifies this`highJobQ, this`medJobQ, this`lowJobQ, this`jobFreeList
      ensures Q() == Enqueued(old(Q()), job) && jobFreeList == Rested(old(jobFreeList))
      ensures highJobQ == old(highJobQ) + if job.priority == High then [job] else []
      ensures medJobQ == old(medJobQ) + if job.priority == Med then [job] else []
      ensures lowJobQ == old(lowJobQ) + if job.priority == Low then [job] else []
      ensures forall w, priority, cell :: old(Agrees(w)) && job == NewJob(w, priority, cell) ==>
        Agrees(JobQueued(w, priority, cell))
    {
      if jobFreeList != [] {
        jobFreeList := jobFreeList[1..];
      }
      if job.priority == High {
        highJobQ := highJobQ + [job];
      } else if job.priority == Med {
        medJobQ := medJobQ + [job];
      } else {
        lowJobQ := lowJobQ + [job];
      }
    }

    static method ListFind(list: seq<Job>, jobId: int) returns (i: nat)
      ensures i == Find(list, jobId)
    {
      i := 0;
      while i < |list| && list[i].jobId != jobId
        invariant i <= |list| && forall j :: 0 <= j < i ==> list[j].jobId != jobId
      {
        i := i + 1;
      }
    }

    /** Takes a job that is not running out of the pool. */
    method Remove(jobId: int) returns (removed: Slot)
      modifies this`highJobQ, this`medJobQ, this`lowJobQ, this`persistentJob, this`jobFreeList
      ensures var r := Removed(old(Q()), old(persistentJob), jobId);
              if r.Found? then
                && removed == OneJob(r.job) && Q() == r.q && persistentJob == r.slot
                && jobFreeList == FreeCell(old(jobFreeList), r.job.cell)
              else removed == NoJob && unchanged(this)
      ensures forall w :: old(Agrees(w)) ==> Agrees(JobRemoved(w, jobId))
    {
      hide Find, FreeCell, Cut;
      var i := ListFind(highJobQ, jobId);
      if i < |highJobQ| {
        removed := OneJob(highJobQ[i]);
        highJobQ := Cut(highJobQ, i);
        FreeListFree(removed.job.cell);
        return;
      }
      i := ListFind(medJobQ, jobId);
      if i < |medJobQ| {
        removed := OneJob(medJobQ[i]);
        medJobQ := Cut(medJobQ, i);
        FreeListFree(removed.job.cell);
        return;
      }
      i := ListFind(lowJobQ, jobId);
      if i < |lowJobQ| {
        removed := OneJob(lowJobQ[i]);
        lowJobQ := Cut(lowJobQ, i);
        FreeListFree(removed.job.cell);
        return;
      }
      if persistentJob.OneJob? && persistentJob.job.jobId == jobId {
        removed := persistentJob;
        FreeListFree(removed.job.cell);
        persistentJob := NoJob;
        return;
      }
      return NoJob;
    }

    /** Frees the jobs of one queue, first to last; returns them in that order. */
    method DiscardQueue(queue: seq<Job>) returns (discarded: seq<Job>)
      modifies this`jobFreeList
      ensures discarded == queue && jobFreeList == FreeAll(old(jobFreeList), queue)
    {
      hide FreeAll, FreeCell;
      var rest := queue;
      discarded := [];
      while rest != []
        invariant discarded + rest == queue
        invariant FreeAll(jobFreeList, rest) == FreeAll(old(jobFreeList), queue)
        decreases |rest|
      {
        FreeFirst(jobFreeList, rest, []);
        FreeListFree(rest[0].cell);
        discarded := discarded + [rest[0]];
        rest := rest[1..];
      }
      FreeFirst(jobFreeList, rest, []);
    }

    method DiscardQueues() returns (discarded: seq<Job>)
      modifies this`highJobQ, this`medJobQ, this`lowJobQ, this`jobFreeList
      ensures discarded == old(highJobQ + medJobQ + lowJobQ) && Q() == Queues([], [], [])
      ensures jobFreeList == FreeAll(old(jobFreeList), discarded)
    {
      hide FreeAll, FreeCell;
      ghost var free0 := jobFreeList;
      discarded := DiscardQueue(highJobQ);
      highJobQ := [];
      var more := DiscardQueue(medJobQ);
      FreeAllTwice(free0, discarded, more);
      discarded := discarded + more;
      medJobQ := [];
      more := DiscardQueue(lowJobQ);
      FreeAllTwice(free0, discarded, more);
      discarded := discarded + more;
      lowJobQ := [];
    }

    /** The first part of shutting down: every job that waits is discarded. */
    method DiscardAll() returns (discarded: seq<Job>)
      modifies this`highJobQ, this`medJobQ, this`lowJobQ, this`persistentJob, this`jobFreeList, this`shutdown
      ensures discarded == old(highJobQ + medJobQ + lowJobQ + SlotJobs(persistentJob))
      ensures Q() == Queues([], [], []) && persistentJob == NoJob && shutdown
      ensures jobFreeList == FreeAll(old(jobFreeList), discarded)
      ensures forall w :: old(Agrees(w)) ==>
        Agrees(ShutDown(w)) && ShutDown(w).discarded == w.discarded + Bag(TICKET, discarded)
    {
      hide FreeAll, FreeCell, Bag;
      ghost var free0 := jobFreeList;
      discarded := DiscardQueues();
      if persistentJob.OneJob? {
        FreeAllTwice(free0, discarded, [persistentJob.job]);
        FreeOne(jobFreeList, persistentJob.job);
        discarded := discarded + [persistentJob.job];
        FreeListFree(persistentJob.job.cell);
        persistentJob := NoJob;
      }
      shutdown := true;
    }

    static lemma FreeOne(free: seq<nat>, job: Job)
      ensures FreeAll(free, [job]) == FreeCell(free, job.cell)
    {
      assert [job][1..] == [];
    }

    static lemma FreeFirst(free: seq<nat>, a: seq<Job>, b: seq<Job>)
      ensures a == [] ==> FreeAll(free, a) == free
      ensures a != [] ==>
        && FreeAll(free, a) == FreeAll(FreeCell(free, a[0].cell), a[1..])
        && FreeAll(free, a + b) == FreeAll(FreeCell(free, a[0].cell), a[1..] + b)
    {
      if a != [] {
        assert (a + b)[0] == a[0] && (a + b)[1..] == a[1..] + b;
      }
    }

    static lemma {:induction false} FreeAllTwice(free: seq<nat>, a: seq<Job>, b: seq<Job>)
      ensures FreeAll(FreeAll(free, a), b) == FreeAll(free, a + b)
      decreases |a|
    {
      hide FreeAll, FreeCell;
      FreeFirst(free, a, b);
      if a == [] {
        assert a + b == b;
      } else {
        FreeAllTwice(FreeCell(free, a[0].cell), a[1..], b);
      }
    }
  }
}
