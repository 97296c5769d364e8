/**
 * Verified call sequences of the scheduler methods: FIFO service and the ETA of a
 * waiting job, and the two places where the stored estimates go wrong
 * (the completed job's entry popped from the wrong end, and estimates that
 * already include the wait ahead being summed again). Job `b` is looked
 * up by an id that the first path does not contain and the second does,
 * as `B` is to `A.tar.gz` and `B.tar.gz`.
 */
module SchedulerScenarios {
  import opened Wrappers
  import opened StringOps
  import opened SubmissionQueue
  import JobIntake

  /** Jobs of 10, 20 and 5 members: the second one's ETA covers the first alone, and the worker takes them in turn. */
  method ThreeJobsServedInOrder(a: QueueEntry, b: QueueEntry, c: QueueEntry, jobB: string, now: real)
    returns (etaB: real, first: Option<QueueEntry>, second: Option<QueueEntry>, third: Option<QueueEntry>)
    requires !NamesJob(a.filePath, jobB) && NamesJob(b.filePath, jobB)
    ensures etaB == now + ProcessingPerFile * 10.0
    ensures first == Some(a) && second == Some(b) && third == Some(c)
  {
    var s := new Scheduler();
    var _, _ := s.AddToQueue(a.filePath, 10, a.emailAddr, now);
    var ea := s.timeQueue[0];
    assert ea.estimate == ProcessingPerFile * 10.0;
    var _, _ := s.AddToQueue(b.filePath, 20, b.emailAddr, now);
    var _, _ := s.AddToQueue(c.filePath, 5, c.emailAddr, now);
    assert s.submissionQueue == [a, b, c];
    assert MatchIndex(s.timeQueue, jobB) == 1;
    assert s.timeQueue[..1] == [ea];
    etaB := s.EstimateQueue(jobB, now);
    first := s.Dequeue();
    second := s.Dequeue();
    third := s.Dequeue();
  }

  /**
   * Two jobs of 10 and 20 members are queued and the first finishes.
   * Popping the last estimate, as the source does, leaves the first job's:
   * the second is still told to wait for it.
   */
  method WaitAfterFirstJobAsWritten(a: QueueEntry, b: QueueEntry, jobB: string, now: real) returns (etaB: real)
    requires !NamesJob(a.filePath, jobB) && NamesJob(b.filePath, jobB)
    ensures etaB == now + ProcessingPerFile * 10.0
  {
    var s := new Scheduler();
    var _, _ := s.AddToQueue(a.filePath, 10, a.emailAddr, now);
    var ea := s.timeQueue[0];
    assert ea.filePath == a.filePath && ea.estimate == ProcessingPerFile * 10.0;
    var _, _ := s.AddToQueue(b.filePath, 20, b.emailAddr, now);
    var _ := s.Dequeue();
    var _ := s.CompleteJob();
    assert s.timeQueue == [ea];
    assert MatchIndex(s.timeQueue, jobB) == 1;
    assert s.timeQueue[..1] == [ea];
    etaB := s.EstimateQueue(jobB, now);
  }

  /**
   * The first job's pass fails at a member named like a year folder: the
   * handler pops nothing, so the second job is told to wait for the
   * abandoned one, and once the second completes the abandoned estimate is
   * all that remains in the time queue.
   */
  method FailedJobLeavesEstimate(a: QueueEntry, b: QueueEntry, bad: JobIntake.Member, jobB: string, now: real)
    returns (pass: Pass, etaB: real, left: seq<EstimateEntry>)
    requires !NamesJob(a.filePath, jobB) && NamesJob(b.filePath, jobB)
    requires bad.isFile && bad.parts == [JobIntake.CurrentYearRoot]
    ensures pass == Failed(a, 0)
    ensures etaB == now + ProcessingPerFile * 10.0
    ensures |left| == 1 && left[0].filePath == a.filePath
  {
    var s := new Scheduler();
    var _, _ := s.AddToQueue(a.filePath, 10, a.emailAddr, now);
    var ea := s.timeQueue[0];
    assert ea.filePath == a.filePath && ea.estimate == ProcessingPerFile * 10.0;
    var _, _ := s.AddToQueue(b.filePath, 20, b.emailAddr, now);
    assert s.submissionQueue[0] == a;
    assert JobIntake.FirstFailure([bad]) == 0;
    pass := s.ProcessNext([bad]);
    var eb := s.timeQueue[1];
    assert s.timeQueue == [ea, eb];
    assert MatchIndex(s.timeQueue, jobB) == 1;
    assert s.timeQueue[..1] == [ea];
    etaB := s.EstimateQueue(jobB, now);
    assert JobIntake.FirstFailure([]) == 0;
    var _ := s.ProcessNext([]);
    left := s.timeQueue;
  }

  /** The same two jobs with the first estimate popped on completion: the second, now at the head, has no wait. */
  method WaitAfterFirstJobInOrder(a: QueueEntry, b: QueueEntry, jobB: string, now: real) returns (etaB: real)
    requires NamesJob(b.filePath, jobB)
    ensures etaB == now
  {
    var t := new Scheduler();
    var _, _ := t.AddToQueue(a.filePath, 10, a.emailAddr, now);
    var _, _ := t.AddToQueue(b.filePath, 20, b.emailAddr, now);
    var eb := t.timeQueue[1];
    assert eb.filePath == b.filePath;
    var _ := t.Dequeue();
    var _ := t.CompleteJobInOrder();
    assert t.timeQueue == [eb];
    etaB := t.EstimateQueue(jobB, now);
  }

  /**
   * Three jobs of 1000 members, one second of work each, as the source
   * stores them: the estimates are 1, 2 and 4 seconds, and the third job
   * is told to wait 3 seconds behind 2 seconds of work.
   */
  method EstimatesCompound(a: QueueEntry, b: QueueEntry, c: QueueEntry, jobC: string, now: real)
    returns (stored: seq<real>, etaC: real)
    requires !NamesJob(a.filePath, jobC) && !NamesJob(b.filePath, jobC) && NamesJob(c.filePath, jobC)
    ensures stored == [1.0, 2.0, 4.0]
    ensures etaC == now + 3.0
  {
    var s := new Scheduler();
    var ea := EstimateEntry(a.filePath, now, 1.0);
    var eb := EstimateEntry(b.filePath, now, 2.0);
    var _, _ := s.AddToQueue(a.filePath, 1000, a.emailAddr, now);
    assert s.timeQueue == [ea];
    var _, _ := s.AddToQueue(b.filePath, 1000, b.emailAddr, now);
    assert s.timeQueue == [ea, eb];
    assert SumEstimates([ea, eb]) == 3.0 by { assert [ea, eb][..1] == [ea]; }
    var _, _ := s.AddToQueue(c.filePath, 1000, c.emailAddr, now);
    stored := [s.timeQueue[0].estimate, s.timeQueue[1].estimate, s.timeQueue[2].estimate];
    assert MatchIndex(s.timeQueue, jobC) == 2;
    assert s.timeQueue[..2] == [ea, eb];
    etaC := s.EstimateQueue(jobC, now);
  }

  /** The same three jobs with each job's own time stored: 1, 1 and 1 seconds, and the third waits 2. */
  method OwnEstimatesAdd(a: QueueEntry, b: QueueEntry, c: QueueEntry, jobC: string, now: real)
    returns (stored: seq<real>, etaC: real)
    requires !NamesJob(a.filePath, jobC) && !NamesJob(b.filePath, jobC) && NamesJob(c.filePath, jobC)
    ensures stored == [1.0, 1.0, 1.0]
    ensures etaC == now + 2.0
  {
    var t := new Scheduler();
    var ea := EstimateEntry(a.filePath, now, 1.0);
    var eb := EstimateEntry(b.filePath, now, 1.0);
    var _, _ := t.AddToQueueOwnDuration(a.filePath, 1000, a.emailAddr, now);
    assert t.timeQueue == [ea];
    var _, _ := t.AddToQueueOwnDuration(b.filePath, 1000, b.emailAddr, now);
    assert t.timeQueue == [ea, eb];
    assert SumEstimates([ea, eb]) == 2.0 by { assert [ea, eb][..1] == [ea]; }
    var _, _ := t.AddToQueueOwnDuration(c.filePath, 1000, c.emailAddr, now);
    stored := [t.timeQueue[0].estimate, t.timeQueue[1].estimate, t.timeQueue[2].estimate];
    assert MatchIndex(t.timeQueue, jobC) == 2;
    assert t.timeQueue[..2] == [ea, eb];
    etaC := t.EstimateQueue(jobC, now);
  }

  /** The paths and id of the scenarios meet their conditions: `B` names `B.tar.gz` but not `A.tar.gz`, and so on. */
  lemma ExampleIdsNameTheirJobs()
    ensures !NamesJob("A.tar.gz", "B") && NamesJob("B.tar.gz", "B")
    ensures !NamesJob("A.tar.gz", "C") && !NamesJob("B.tar.gz", "C") && NamesJob("C.tar.gz", "C")
  {
    FindAbsentChar("A.tar.gz", 'B');
    FindAbsentChar("A.tar.gz", 'C');
    FindAbsentChar("B.tar.gz", 'C');
    assert OccursAt("B.tar.gz", "B", 0);
    assert OccursAt("C.tar.gz", "C", 0);
  }
}
