/**
 * The processor's submission scheduler: the list of waiting jobs
 * (`submissionQueue`), the list of stored processing estimates
 * (`timeQueue`), and the operations that append to, pop from and sum over
 * them. Times are seconds as reals; `now` is passed in by the caller.
 */
module SubmissionQueue {
  import opened Wrappers
  import opened StringOps
  import JobIntake

  /** Seconds of processing assumed per archive member (`processing_per_file`); never reassigned. */
  const ProcessingPerFile: real := 0.001

  /** A waiting job: archive path and the address to notify. */
  datatype QueueEntry = QueueEntry(filePath: string, emailAddr: string)

  /** A stored estimate: archive path, enqueue time and estimated seconds. */
  datatype EstimateEntry = EstimateEntry(filePath: string, enqueuedAt: real, estimate: real)

  /** Sum of the estimates in `ts`, accumulated front to back. */
  function SumEstimates(ts: seq<EstimateEntry>): real
    decreases |ts|
  {
    if |ts| == 0 then 0.0 else SumEstimates(ts[..|ts| - 1]) + ts[|ts| - 1].estimate
  }

  /** What `estimateProcessing(numFile)` computes over the stored estimates `ts`. */
  function ProcessingEstimate(ts: seq<EstimateEntry>, numFile: int): real {
    SumEstimates(ts) + ProcessingPerFile * numFile as real
  }

  /** Every stored estimate is nonnegative. */
  predicate NonnegativeEstimates(ts: seq<EstimateEntry>) {
    forall i :: 0 <= i < |ts| ==> ts[i].estimate >= 0.0
  }

  /** Whether the archive path names job `jobId`: `path.find(jobId) != -1`. */
  predicate NamesJob(path: string, jobId: string) {
    Find(path, jobId) != -1
  }

  /** Index of the first entry whose path names `jobId`, or `|ts|` when none does. */
  function MatchIndex(ts: seq<EstimateEntry>, jobId: string): (k: nat)
    ensures k <= |ts|
    ensures forall i :: 0 <= i < k ==> !NamesJob(ts[i].filePath, jobId)
    ensures k < |ts| ==> NamesJob(ts[k].filePath, jobId)
    decreases |ts|
  {
    if |ts| == 0 then 0
    else if NamesJob(ts[0].filePath, jobId) then 0
    else 1 + MatchIndex(ts[1..], jobId)
  }

  /** Seconds of stored estimates ahead of job `jobId`, which `estimateQueue` adds to now. */
  function QueueWait(ts: seq<EstimateEntry>, jobId: string): real {
    SumEstimates(ts[..MatchIndex(ts, jobId)])
  }

  /** The estimate entry `addToQueue` appends for a job of `numFile` members. */
  function StoredEntry(ts: seq<EstimateEntry>, filePath: string, numFile: int, now: real): EstimateEntry {
    EstimateEntry(filePath, now, ProcessingEstimate(ts, numFile))
  }

  /** The archive paths of the stored estimates, in order. */
  function EstimatePaths(ts: seq<EstimateEntry>): (ps: seq<string>)
    ensures |ps| == |ts| && forall i :: 0 <= i < |ts| ==> ps[i] == ts[i].filePath
    decreases |ts|
  {
    if |ts| == 0 then [] else [ts[0].filePath] + EstimatePaths(ts[1..])
  }

  /** The archive paths of the waiting jobs, in order. */
  function QueuePaths(q: seq<QueueEntry>): (ps: seq<string>)
    ensures |ps| == |q| && forall i :: 0 <= i < |q| ==> ps[i] == q[i].filePath
    decreases |q|
  {
    if |q| == 0 then [] else [q[0].filePath] + QueuePaths(q[1..])
  }

  /**
   * What one pass of the worker loop does: finds the queue empty, abandons
   * the job at the member that raised, or classifies it and pops an
   * estimate (`None` when that pop raised on an empty list, after the
   * results had been written).
   */
  datatype Pass =
    | Idle
    | Failed(job: QueueEntry, index: nat)
    | Done(job: QueueEntry, jobId: string, intake: JobIntake.Intake, processed: Option<EstimateEntry>)

  class Scheduler {
    /** Jobs waiting for the worker, oldest first. */
    var submissionQueue: seq<QueueEntry>
    /** Stored estimates, in enqueue order. */
    var timeQueue: seq<EstimateEntry>

    constructor ()
      ensures submissionQueue == [] && timeQueue == []
    {
      submissionQueue := [];
      timeQueue := [];
    }

    /** `estimateProcessing`: the stored estimates plus `ProcessingPerFile * numFile`. */
    method EstimateProcessing(numFile: int) returns (waitTime: real)
      ensures waitTime == ProcessingEstimate(timeQueue, numFile)
    {
      waitTime := 0.0;
      if |timeQueue| > 0 {
        var i := 0;
        while i < |timeQueue|
          invariant 0 <= i <= |timeQueue|
          invariant waitTime == SumEstimates(timeQueue[..i])
        {
          assert timeQueue[..i + 1][..i] == timeQueue[..i];
          waitTime := waitTime + timeQueue[i].estimate;
          i := i + 1;
        }
        assert timeQueue[..i] == timeQueue;
      }
      waitTime := waitTime + ProcessingPerFile * numFile as real;
    }

    /** `estimateQueue`: now plus the estimates strictly ahead of the first entry naming `jobId`. */
    method EstimateQueue(jobId: string, now: real) returns (eta: real)
      ensures eta == now + QueueWait(timeQueue, jobId)
    {
      var res := 0.0;
      var i := 0;
      while i < |timeQueue|
        invariant 0 <= i <= MatchIndex(timeQueue, jobId)
        invariant res == SumEstimates(timeQueue[..i])
      {
        if Find(timeQueue[i].filePath, jobId) == -1 {
          assert timeQueue[..i + 1][..i] == timeQueue[..i];
          res := res + timeQueue[i].estimate;
        } else {
          break;
        }
        i := i + 1;
      }
      eta := now + res;
    }

    /**
     * `addToQueue`: appends the job to both lists and returns the ETA. The
     * estimate is computed before the job's own entry is stored. Called
     * one at a time, the length check always passes.
     */
    method AddToQueue(filePath: string, numFile: int, emailAddr: string, now: real)
      returns (accepted: bool, eta: real)
      modifies this
      ensures submissionQueue == old(submissionQueue) + [QueueEntry(filePath, emailAddr)]
      ensures timeQueue == old(timeQueue) + [StoredEntry(old(timeQueue), filePath, numFile, now)]
      ensures accepted && eta == now + ProcessingEstimate(old(timeQueue), numFile)
    {
      accepted, eta := false, 0.0;
      var nPrior := |submissionQueue|;
      submissionQueue := submissionQueue + [QueueEntry(filePath, emailAddr)];
      var nCur := |submissionQueue|;
      if nCur == nPrior + 1 {
        var estimate := EstimateProcessing(numFile);
        timeQueue := timeQueue + [EstimateEntry(filePath, now, estimate)];
        accepted, eta := true, now + estimate;
      }
    }

    /** The worker's `submissionQueue.pop(0)`; on an empty queue nothing changes. */
    method Dequeue() returns (job: Option<QueueEntry>)
      modifies this
      ensures old(submissionQueue) == [] ==> job == None && submissionQueue == old(submissionQueue)
      ensures old(submissionQueue) != [] ==>
                job == Some(old(submissionQueue)[0]) && submissionQueue == old(submissionQueue)[1..]
      ensures timeQueue == old(timeQueue)
    {
      if |submissionQueue| == 0 {
        job := None;
      } else {
        job := Some(submissionQueue[0]);
        submissionQueue := submissionQueue[1..];
      }
    }

    /**
     * The completed job's `timeQueue.pop()`: removes the LAST estimate.
     * On an empty list the source raises and the job fails; here nothing changes.
     */
    method CompleteJob() returns (processed: Option<EstimateEntry>)
      modifies this
      ensures old(timeQueue) == [] ==> processed == None && timeQueue == []
      ensures old(timeQueue) != [] ==>
                processed == Some(old(timeQueue)[|old(timeQueue)| - 1]) &&
                timeQueue == old(timeQueue)[..|old(timeQueue)| - 1]
      ensures submissionQueue == old(submissionQueue)
    {
      if |timeQueue| == 0 {
        processed := None;
      } else {
        processed := Some(timeQueue[|timeQueue| - 1]);
        timeQueue := timeQueue[..|timeQueue| - 1];
      }
    }

    /**
     * One pass of `processQueue` on a job whose archive lists `members`:
     * the dequeue, the member loop, the job id and the completing `pop()`.
     * When the member loop raises the handler takes over before the pop,
     * so the abandoned job's estimate stays in the time queue.
     */
    method ProcessNext(members: seq<JobIntake.Member>) returns (pass: Pass)
      modifies this
      ensures old(submissionQueue) == [] ==>
                pass == Idle && submissionQueue == old(submissionQueue) && timeQueue == old(timeQueue)
      ensures old(submissionQueue) != [] ==> submissionQueue == old(submissionQueue)[1..]
      ensures old(submissionQueue) != [] && JobIntake.FirstFailure(members) < |members| ==>
                pass == Failed(old(submissionQueue)[0], JobIntake.FirstFailure(members)) &&
                timeQueue == old(timeQueue)
      ensures old(submissionQueue) != [] && JobIntake.FirstFailure(members) == |members| ==>
                pass.Done? && pass.job == old(submissionQueue)[0] &&
                pass.jobId == JobIntake.JobId(old(submissionQueue)[0].filePath) &&
                pass.intake == JobIntake.Intake(
                  JobIntake.Collect(members, JobIntake.CFiles), JobIntake.Collect(members, JobIntake.CWhitelist),
                  JobIntake.Collect(members, JobIntake.JavaFiles), JobIntake.Collect(members, JobIntake.JavaWhitelist),
                  |members|) &&
                (old(timeQueue) == [] ==> pass.processed == None && timeQueue == []) &&
                (old(timeQueue) != [] ==>
                   pass.processed == Some(old(timeQueue)[|old(timeQueue)| - 1]) &&
                   timeQueue == old(timeQueue)[..|old(timeQueue)| - 1])
    {
      var job := Dequeue();
      match job {
        case None =>
          pass := Idle;
        case Some(entry) =>
          var r := JobIntake.ClassifyMembers(members);
          match r {
            case Failure(i) =>
              pass := Failed(entry, i);
            case Success(intake) =>
              var jobId := JobIntake.JobId(entry.filePath);
              var processed := CompleteJob();
              pass := Done(entry, jobId, intake, processed);
          }
      }
    }

    /** Completion as evidently intended: removes the FIRST estimate, the running job's. */
    method CompleteJobInOrder() returns (processed: Option<EstimateEntry>)
      modifies this
      ensures old(timeQueue) == [] ==> processed == None && timeQueue == []
      ensures old(timeQueue) != [] ==> processed == Some(old(timeQueue)[0]) && timeQueue == old(timeQueue)[1..]
      ensures submissionQueue == old(submissionQueue)
    {
      if |timeQueue| == 0 {
        processed := None;
      } else {
        processed := Some(timeQueue[0]);
        timeQueue := timeQueue[1..];
      }
    }

    /** Enqueue as evidently intended: the stored estimate is the job's own processing time only. */
    method AddToQueueOwnDuration(filePath: string, numFile: int, emailAddr: string, now: real)
      returns (accepted: bool, eta: real)
      modifies this
      ensures submissionQueue == old(submissionQueue) + [QueueEntry(filePath, emailAddr)]
      ensures timeQueue == old(timeQueue) + [EstimateEntry(filePath, now, ProcessingPerFile * numFile as real)]
      ensures accepted && eta == now + ProcessingEstimate(old(timeQueue), numFile)
    {
      var estimate := EstimateProcessing(numFile);
      submissionQueue := submissionQueue + [QueueEntry(filePath, emailAddr)];
      var own := EstimateEntry(filePath, now, ProcessingPerFile * numFile as real);
      timeQueue := timeQueue + [own];
      accepted, eta := true, now + estimate;
    }
  }

  /** Nonnegative estimates have a nonnegative sum. */
  lemma {:induction false} SumNonnegative(ts: seq<EstimateEntry>)
    requires NonnegativeEstimates(ts)
    ensures SumEstimates(ts) >= 0.0
    decreases |ts|
  {
    if |ts| > 0 {
      SumNonnegative(ts[..|ts| - 1]);
    }
  }

  /** With nonnegative stored estimates, the processing estimate is nonnegative and grows with the file count. */
  lemma ProcessingEstimateBounds(ts: seq<EstimateEntry>, m: int, n: int)
    requires NonnegativeEstimates(ts) && 0 <= m <= n
    ensures 0.0 <= ProcessingEstimate(ts, m) <= ProcessingEstimate(ts, n)
  {
    SumNonnegative(ts);
  }

  /** Enqueueing a job with a nonnegative file count keeps every stored estimate nonnegative. */
  lemma StoredEntryKeepsNonnegative(ts: seq<EstimateEntry>, filePath: string, numFile: int, now: real)
    requires NonnegativeEstimates(ts) && numFile >= 0
    ensures NonnegativeEstimates(ts + [StoredEntry(ts, filePath, numFile, now)])
  {
    ProcessingEstimateBounds(ts, numFile, numFile);
  }

  /** When no entry names the job, the wait covers every stored estimate. */
  lemma QueueWaitWithoutMatch(ts: seq<EstimateEntry>, jobId: string)
    requires forall i :: 0 <= i < |ts| ==> Find(ts[i].filePath, jobId) == -1
    ensures QueueWait(ts, jobId) == SumEstimates(ts)
  {
    assert MatchIndex(ts, jobId) == |ts|;
    assert ts[..|ts|] == ts;
  }

  /** When the first entry names the job, or the job id is empty, the wait is zero. */
  lemma QueueWaitAtHead(ts: seq<EstimateEntry>, jobId: string)
    requires |ts| > 0 ==> (jobId == "" || Find(ts[0].filePath, jobId) != -1)
    ensures QueueWait(ts, jobId) == 0.0
  {
    if |ts| > 0 && jobId == "" {
      assert OccursAt(ts[0].filePath, jobId, 0);
    }
  }

  /** Where the first entry naming a job lies once one more entry is appended. */
  lemma {:induction false} MatchIndexAppend(ts: seq<EstimateEntry>, e: EstimateEntry, jobId: string)
    ensures MatchIndex(ts, jobId) < |ts| ==> MatchIndex(ts + [e], jobId) == MatchIndex(ts, jobId)
    ensures MatchIndex(ts, jobId) == |ts| ==> MatchIndex(ts + [e], jobId) >= |ts|
    decreases |ts|
  {
    if |ts| > 0 && !NamesJob(ts[0].filePath, jobId) {
      assert (ts + [e])[1..] == ts[1..] + [e];
      MatchIndexAppend(ts[1..], e, jobId);
    }
  }

  /** A job already in the list keeps its wait when later jobs are appended. */
  lemma QueueWaitKeptByLaterJobs(ts: seq<EstimateEntry>, e: EstimateEntry, jobId: string)
    requires MatchIndex(ts, jobId) < |ts|
    ensures QueueWait(ts + [e], jobId) == QueueWait(ts, jobId)
  {
    MatchIndexAppend(ts, e, jobId);
    var k := MatchIndex(ts, jobId);
    assert (ts + [e])[..k] == ts[..k];
  }

  /** A job not yet in the list never sees its wait shrink when an entry with a nonnegative estimate is appended. */
  lemma QueueWaitGrowsUntilListed(ts: seq<EstimateEntry>, e: EstimateEntry, jobId: string)
    requires MatchIndex(ts, jobId) == |ts| && e.estimate >= 0.0
    ensures QueueWait(ts, jobId) <= QueueWait(ts + [e], jobId)
  {
    MatchIndexAppend(ts, e, jobId);
    var k := MatchIndex(ts + [e], jobId);
    assert ts[..|ts|] == ts;
    assert (ts + [e])[..|ts|] == ts;
    if k == |ts| + 1 {
      assert (ts + [e])[..k] == ts + [e];
    }
  }

  /** No job is running: every stored estimate belongs to a waiting job, in the same order. */
  predicate Aligned(ts: seq<EstimateEntry>, q: seq<QueueEntry>) {
    EstimatePaths(ts) == QueuePaths(q)
  }

  /** Job `running` has been taken by the worker; its estimate is first, then those of the waiting jobs. */
  predicate RunningAhead(ts: seq<EstimateEntry>, q: seq<QueueEntry>, running: string) {
    EstimatePaths(ts) == [running] + QueuePaths(q)
  }

  /** Enqueueing (one entry with the same path on each list) keeps the lists in step, with or without a running job. */
  lemma EnqueueKeepsStep(ts: seq<EstimateEntry>, q: seq<QueueEntry>, e: EstimateEntry, j: QueueEntry, running: string)
    requires e.filePath == j.filePath
    ensures Aligned(ts, q) ==> Aligned(ts + [e], q + [j])
    ensures RunningAhead(ts, q, running) ==> RunningAhead(ts + [e], q + [j], running)
  {
    assert EstimatePaths(ts + [e]) == EstimatePaths(ts) + [e.filePath];
    assert QueuePaths(q + [j]) == QueuePaths(q) + [j.filePath];
  }

  /** Taking the head job from aligned lists leaves that job's estimate running ahead of the rest. */
  lemma DequeueStartsRunning(ts: seq<EstimateEntry>, q: seq<QueueEntry>)
    requires Aligned(ts, q) && |q| > 0
    ensures RunningAhead(ts, q[1..], q[0].filePath)
  {
    assert QueuePaths(q) == [q[0].filePath] + QueuePaths(q[1..]);
  }

  /** Popping the running job's estimate from the front brings the lists back into step. */
  lemma PopFirstRealigns(ts: seq<EstimateEntry>, q: seq<QueueEntry>, running: string)
    requires RunningAhead(ts, q, running)
    ensures |ts| > 0 && ts[0].filePath == running
    ensures Aligned(ts[1..], q)
  {
    assert EstimatePaths(ts)[0] == running;
    assert EstimatePaths(ts) == [ts[0].filePath] + EstimatePaths(ts[1..]);
  }

  /**
   * Popping from the back instead, as the source does, leaves the finished
   * job's estimate first: the lists fall out of step whenever the next
   * waiting job has another path.
   */
  lemma PopLastMisaligns(ts: seq<EstimateEntry>, q: seq<QueueEntry>, running: string)
    requires RunningAhead(ts, q, running)
    requires |q| > 0 && q[0].filePath != running
    ensures !Aligned(ts[..|ts| - 1], q)
    ensures ts[0].filePath == running && ts[..|ts| - 1][0] == ts[0]
  {
    assert EstimatePaths(ts)[0] == running;
  }

  /** Summing from the front gives the same total. */
  lemma {:induction false} SumFront(e: EstimateEntry, ts: seq<EstimateEntry>)
    ensures SumEstimates([e] + ts) == e.estimate + SumEstimates(ts)
    decreases |ts|
  {
    var u := [e] + ts;
    if |ts| == 0 {
      assert u[..0] == [];
    } else {
      assert u[..|u| - 1] == [e] + ts[..|ts| - 1];
      SumFront(e, ts[..|ts| - 1]);
    }
  }

  /** An entry that does not name the job adds its estimate to the job's wait. */
  lemma QueueWaitPastHead(ts: seq<EstimateEntry>, jobId: string)
    requires |ts| > 0 && !NamesJob(ts[0].filePath, jobId)
    ensures QueueWait(ts, jobId) == ts[0].estimate + QueueWait(ts[1..], jobId)
  {
    var rest := ts[1..];
    var k := MatchIndex(rest, jobId);
    assert MatchIndex(ts, jobId) == 1 + k;
    var ahead := rest[..k];
    assert ts[..1 + k] == [ts[0]] + ahead;
    SumFront(ts[0], ahead);
  }

  /**
   * A pass that fails leaves its job's estimate in front of the waiting
   * jobs' with nothing running: the lists stay out of step, and every
   * other job's wait includes the abandoned estimate.
   */
  lemma StaleEstimateDelaysLaterJobs(ts: seq<EstimateEntry>, q: seq<QueueEntry>, stale: string, jobId: string)
    requires RunningAhead(ts, q, stale) && !NamesJob(stale, jobId)
    ensures !Aligned(ts, q)
    ensures |ts| > 0 && QueueWait(ts, jobId) == ts[0].estimate + QueueWait(ts[1..], jobId)
  {
    assert EstimatePaths(ts)[0] == stale;
    QueueWaitPastHead(ts, jobId);
  }

  /** Sum of per-job file counts. */
  function SumCounts(ns: seq<int>): int
    decreases |ns|
  {
    if |ns| == 0 then 0 else SumCounts(ns[..|ns| - 1]) + ns[|ns| - 1]
  }

  /** Each stored estimate is exactly its own job's processing time. */
  predicate OwnDurations(ts: seq<EstimateEntry>, ns: seq<int>) {
    |ts| == |ns| && forall i :: 0 <= i < |ts| ==> ts[i].estimate == ProcessingPerFile * ns[i] as real
  }

  /** Each stored estimate is what `addToQueue` stores: everything stored before it plus its own time. */
  predicate CumulativeEstimates(ts: seq<EstimateEntry>, ns: seq<int>) {
    |ts| == |ns| && forall i :: 0 <= i < |ts| ==> ts[i].estimate == ProcessingEstimate(ts[..i], ns[i])
  }

  /** With own-duration entries, the wait ahead of a prefix is the processing time of exactly those jobs. */
  lemma {:induction false} OwnDurationsSumToWork(ts: seq<EstimateEntry>, ns: seq<int>, k: nat)
    requires OwnDurations(ts, ns) && k <= |ts|
    ensures SumEstimates(ts[..k]) == ProcessingPerFile * SumCounts(ns[..k]) as real
    decreases k
  {
    if k > 0 {
      assert ts[..k][..k - 1] == ts[..k - 1];
      assert ns[..k][..k - 1] == ns[..k - 1];
      OwnDurationsSumToWork(ts, ns, k - 1);
    }
  }

  /** So with own-duration entries, `estimateQueue`'s wait is the work of the jobs ahead. */
  lemma OwnDurationsQueueWait(ts: seq<EstimateEntry>, ns: seq<int>, jobId: string)
    requires OwnDurations(ts, ns)
    ensures QueueWait(ts, jobId) == ProcessingPerFile * SumCounts(ns[..MatchIndex(ts, jobId)]) as real
  {
    OwnDurationsSumToWork(ts, ns, MatchIndex(ts, jobId));
  }

  /**
   * With the entries `addToQueue` stores, two or more jobs of positive
   * size give a total strictly larger than their work: earlier waits are
   * counted again in every later entry.
   */
  lemma {:induction false} CumulativeEstimatesOvercount(ts: seq<EstimateEntry>, ns: seq<int>)
    requires CumulativeEstimates(ts, ns) && |ts| >= 2
    requires forall i :: 0 <= i < |ns| ==> ns[i] > 0
    ensures SumEstimates(ts) > ProcessingPerFile * SumCounts(ns) as real
    decreases |ts|
  {
    var n := |ts|;
    var ts', ns' := ts[..n - 1], ns[..n - 1];
    assert ts[..n - 1] == ts';
    assert CumulativeEstimates(ts', ns') by {
      forall i | 0 <= i < |ts'| ensures ts'[i].estimate == ProcessingEstimate(ts'[..i], ns'[i]) {
        assert ts'[..i] == ts[..i];
      }
    }
    if n == 2 {
      assert ts'[..0] == [];
      assert ts[..1] == [ts[0]];
      assert ns' == [ns[0]];
      assert SumEstimates(ts') == ts[0].estimate;
    } else {
      CumulativeEstimatesOvercount(ts', ns');
    }
    // The last entry repeats everything before it.
    assert ts[n - 1].estimate == SumEstimates(ts') + ProcessingPerFile * ns[n - 1] as real;
    assert SumEstimates(ts') > 0.0 by {
      if n > 2 {
        assert ProcessingPerFile * SumCounts(ns') as real >= 0.0 by { CountsPositive(ns'); }
      }
    }
  }

  /** The file counts of one or more nonempty jobs add up to a positive total. */
  lemma {:induction false} CountsPositive(ns: seq<int>)
    requires forall i :: 0 <= i < |ns| ==> ns[i] > 0
    ensures SumCounts(ns) >= 0
    ensures |ns| > 0 ==> SumCounts(ns) > 0
    decreases |ns|
  {
    if |ns| > 0 {
      CountsPositive(ns[..|ns| - 1]);
    }
  }
}
