# The Hook: submission queue and submission layout

The Hook is a plagiarism checker. Its client web server stores each student's
submission under a fixed directory layout, and then hands the processor an
archive of the assignment. The processor works through the queued archives
one at a time. For each archive it:

- classifies every member file by its top-level folder (previous years,
  current year, exclusions) and by its language (Java or C family);
- derives the owning student from the submission folder name;
- names the job after the archive.

The processor also promises each submitter an ETA. Each queued job gets an
estimated processing time, and a later query for a job sums the estimates of
the entries queued ahead of it.

This project models that core in Dafny and proves properties of it.

| file | module | what it models |
|---|---|---|
| `wrappers.dfy` | `Wrappers` | `Option` and `Result`, used for the error paths |
| `string_ops.dfy` | `StringOps` | the Python string operations the processor relies on: `str.split` with one separator character, `str.find`, `str.rfind`, a slice with a possibly negative start, and `str.replace(p, "")` |
| `submission_queue.dfy` | `SubmissionQueue` | the two module-level lists as the fields of the class `Scheduler`, with `addToQueue`, `estimateProcessing`, `estimateQueue`, the dequeue at the top of `processQueue` and the `timeQueue.pop()` at its end; the estimate arithmetic and its lemmas |
| `job_intake.dfy` | `JobIntake` | the archive-member loop of `processQueue`, which sorts members into the four file lists, counts them, and fails on a malformed member; also the job id derived from the archive path |
| `file_service.dfy` | `FileService` | `GetSubmissionPath` and `GetSubmissionFolderName` of the client |
| `naming_contract.dfy` | `NamingContract` | how the two sides fit together: the owner the processor reads back from a folder is the student number the client wrote into it |
| `scheduler_scenarios.dfy` | `SchedulerScenarios` | verified call sequences of the class methods on concrete queue histories |

Modelling choices:

- **Clock.** `now` is a parameter of every operation that reads the clock.
  The two `arrow.utcnow()` calls in `addToQueue` are taken to return the same
  instant.
- **Times and ETAs.** Times are real-valued seconds. The returned ETA is the
  instant `now + seconds`; the local-time formatting is left out.
- **Members.** An archive member is given as its name, its path already split
  into components (what `normpath(...).split(os.sep)` yields), and whether it
  is a regular file.
- **Crashing lines.** Python raises `IndexError` on `filePathElements[1]` only
  for a regular file whose whole name is a year folder (`CurrentYear` or
  `PreviousYears` with nothing after it). A file such as `CurrentYear/Main.java`
  has two components and is filed, taking the text after the last `_` of its
  own name as owner. The model turns the raise into the error result
  `Failure(index)`. `Scheduler.ProcessNext` shows what the handler then leaves
  behind: the dequeued job is gone, and its estimate stays in the time queue.
- **Empty lists.** `pop` on an empty list raises, and the model returns `None`.
- **Path.Combine.** The client's `Path.Combine` is modelled as the sequence of
  its six components.

In four places the code does something easy to misread. The model follows
the code in each:

1. `addToQueue` compares the queue length after its own append with the
   length before it. That comparison always holds, so every call is accepted
   and the `else` branch cannot be reached. `Scheduler.AddToQueue` promises
   `accepted`.
2. The job id is `tarFilename.replace('.tar.gz', '')`. That removes every
   occurrence, not only a trailing extension.
3. The entry `processQueue` pops from `timeQueue` is the last one, not the
   one belonging to the job it just processed (see Findings).
4. The value `processQueue` computes for `processing_per_file` at the end of a
   job goes to a local variable. The module's rate therefore stays 0.001
   seconds per file (`SubmissionQueue.ProcessingPerFile`).

## Model

| member | source | states |
|---|---|---|
| `StringOps.Split` | hook_system/processor/Src/submissionQueue.py:92 | `str.split` with one separator character: at least one piece, and no piece contains the separator |
| `StringOps.JoinSplit` | hook_system/processor/Src/submissionQueue.py:92 | splitting a string and joining the pieces with the same separator gives the string back, so `split` loses nothing |
| `StringOps.SplitAround` | hook_system/processor/Src/submissionQueue.py:92 | splitting `a + sep + b` gives the pieces of `a` followed by the pieces of `b` |
| `StringOps.SplitWithoutSeparator` | hook_system/processor/Src/submissionQueue.py:92 | a string without the separator splits into itself alone |
| `StringOps.LastSegmentAround` | hook_system/processor/Src/submissionQueue.py:92 | the last `_`-piece of `a + sep + b` is the last piece of `b`: whatever precedes the final separator never affects the owner |
| `StringOps.FindFrom` | hook_system/processor/Src/submissionQueue.py:195 | `str.find`: -1 exactly when the substring occurs nowhere from the start position on, otherwise the lowest position where it occurs |
| `StringOps.FindAbsentChar` | hook_system/processor/Src/submissionQueue.py:195 | a one-character id absent from a path is never found in it |
| `StringOps.RFind` | hook_system/processor/Src/submissionQueue.py:87 | `str.rfind` of a character: -1 exactly when it is absent, otherwise the index of its last occurrence |
| `StringOps.SliceFrom` | hook_system/processor/Src/submissionQueue.py:87 | `s[i:]`: the suffix of `s` from index `i` on for a nonnegative `i`, or its last `-i` characters for a negative `i`, clamped to the length of `s` |
| `StringOps.RemoveAll` | hook_system/processor/Src/submissionQueue.py:134 | `str.replace(p, "")` never lengthens the string |
| `StringOps.RemoveAllAbsent` | hook_system/processor/Src/submissionQueue.py:134 | a string holding no occurrence of the pattern is returned unchanged |
| `StringOps.RemoveAllScan` | hook_system/processor/Src/submissionQueue.py:134 | the left-to-right scan: with no occurrence starting inside `a`, `a + p + b` becomes `a` followed by the result for `b` |
| `StringOps.LastSegment` | hook_system/processor/Src/submissionQueue.py:92 | `s.split(sep)[-1]` is the suffix of `s` after its last separator: it holds no separator, is all of `s` when there is none, and is otherwise preceded by a separator |
| `StringOps.LastPieceOfSplit` | hook_system/processor/Src/submissionQueue.py:92 | the last piece of a split is a suffix of the string, preceded by a separator whenever the string holds one |
| `StringOps.SplitAtSeparator` | hook_system/processor/Src/submissionQueue.py:92 | a string holding the separator splits into at least two pieces |
| `SubmissionQueue.MatchIndex` | hook_system/processor/Src/submissionQueue.py:194-198 | the position where the `estimateQueue` loop stops: no earlier entry's path contains the job id, and the entry at that position (if any) does |
| `SubmissionQueue.Scheduler.constructor` | hook_system/processor/Src/submissionQueue.py:19-22 | both lists start empty |
| `SubmissionQueue.Scheduler.EstimateProcessing` | hook_system/processor/Src/submissionQueue.py:205-212 | the result is the sum of all queued estimates plus the per-file rate times the file count |
| `SubmissionQueue.Scheduler.EstimateQueue` | hook_system/processor/Src/submissionQueue.py:189-203 | the ETA is now plus the estimates of the entries strictly before the first entry whose path contains the job id (all of them when none does) |
| `SubmissionQueue.Scheduler.AddToQueue` | hook_system/processor/Src/submissionQueue.py:35-55 | appends (path, email) to the submission queue and (path, now, estimate) to the time queue; the estimate is what `estimateProcessing` returns before the append; the call is always accepted, ETA now plus that estimate |
| `SubmissionQueue.Scheduler.Dequeue` | hook_system/processor/Src/submissionQueue.py:62-71 | empty queue: nothing taken, nothing changes; otherwise the oldest submission is returned and removed; the time queue is untouched |
| `SubmissionQueue.Scheduler.ProcessNext` | hook_system/processor/Src/submissionQueue.py:57-148 | one pass of the worker loop (the `try` block, lines 61-147): an empty queue changes nothing; otherwise the oldest job is dequeued; a member that raises abandons the job with the time queue untouched; a complete pass yields the four lists, the job id and the `pop()` of the newest estimate |
| `SubmissionQueue.Scheduler.CompleteJob` | hook_system/processor/Src/submissionQueue.py:140 | as written: removes and returns the newest time-queue entry; empty list gives `None` |
| `SubmissionQueue.Scheduler.CompleteJobInOrder` | hook_system/processor/Src/submissionQueue.py:140 | corrected: removes and returns the oldest time-queue entry, which belongs to the job just processed |
| `SubmissionQueue.Scheduler.AddToQueueOwnDuration` | hook_system/processor/Src/submissionQueue.py:46-48 | corrected: same queue updates and same ETA as `AddToQueue`, but the stored estimate is the job's own duration, rate times file count |
| `SubmissionQueue.SumNonnegative` | hook_system/processor/Src/submissionQueue.py:205-212 | nonnegative estimates have a nonnegative sum |
| `SubmissionQueue.ProcessingEstimateBounds` | hook_system/processor/Src/submissionQueue.py:205-212 | the processing estimate is nonnegative and grows with the file count |
| `SubmissionQueue.StoredEntryKeepsNonnegative` | hook_system/processor/Src/submissionQueue.py:46-48 | appending the entry `addToQueue` stores keeps every estimate nonnegative |
| `SubmissionQueue.QueueWaitWithoutMatch` | hook_system/processor/Src/submissionQueue.py:194-198 | an id no path contains waits for the whole time queue |
| `SubmissionQueue.QueueWaitAtHead` | hook_system/processor/Src/submissionQueue.py:194-198 | the empty id, or an id in the head entry's path, waits for nothing |
| `SubmissionQueue.MatchIndexAppend` | hook_system/processor/Src/submissionQueue.py:194-198 | appending an entry keeps where the stop position is whenever the job was already found |
| `SubmissionQueue.QueueWaitKeptByLaterJobs` | hook_system/processor/Src/submissionQueue.py:41-48 | a job's ETA ignores every job queued after it |
| `SubmissionQueue.QueueWaitGrowsUntilListed` | hook_system/processor/Src/submissionQueue.py:189-203 | while a job is not in the time queue, every appended entry can only postpone its ETA |
| `SubmissionQueue.EnqueueKeepsStep` | hook_system/processor/Src/submissionQueue.py:41-48 | enqueueing the same path onto both lists keeps them in step, both when idle and when a job is running |
| `SubmissionQueue.DequeueStartsRunning` | hook_system/processor/Src/submissionQueue.py:69 | after the dequeue, the popped job's time entry is the one left ahead of the submission queue |
| `SubmissionQueue.PopFirstRealigns` | hook_system/processor/Src/submissionQueue.py:140 | removing the first time entry once the running job is done puts the two lists back in step |
| `SubmissionQueue.PopLastMisaligns` | hook_system/processor/Src/submissionQueue.py:140 | as written: when another job is waiting, removing the last time entry leaves the finished job's entry at the head and the lists out of step |
| `SubmissionQueue.QueueWaitPastHead` | hook_system/processor/Src/submissionQueue.py:194-198 | a head entry whose path does not contain the id adds its estimate to the wait |
| `SubmissionQueue.StaleEstimateDelaysLaterJobs` | hook_system/processor/Src/submissionQueue.py:148 | after a failed pass the abandoned job's estimate stays in front of the waiting jobs': the lists are out of step, and every other job's wait includes it |
| `SubmissionQueue.OwnDurationsSumToWork` | hook_system/processor/Src/submissionQueue.py:205-212 | if each entry holds its own duration, any prefix of them sums to rate times the files in that prefix |
| `SubmissionQueue.OwnDurationsQueueWait` | hook_system/processor/Src/submissionQueue.py:189-203 | with own durations, the wait is rate times the files queued ahead of the job |
| `SubmissionQueue.CumulativeEstimatesOvercount` | hook_system/processor/Src/submissionQueue.py:46-48 | as written: with two or more nonempty jobs stored, the queued estimates sum to more than the files actually take |
| `SubmissionQueue.CountsPositive` | hook_system/processor/Src/submissionQueue.py:35-46 | the `numFile` counts of one or more nonempty jobs add up to a positive total |
| `JobIntake.FirstFailure` | hook_system/processor/Src/submissionQueue.py:91-92 | the position of the first member that makes the loop raise; all members before it are handled |
| `JobIntake.Extension` | hook_system/processor/Src/submissionQueue.py:87 | `fileName[fileName.rfind('.'):]` is a suffix of the name: from its last dot on, with no further dot; with no dot, the last character (nothing for an empty name) |
| `JobIntake.OwnerOf` | hook_system/processor/Src/submissionQueue.py:92 | the owner is the suffix of the folder name after its last `_`; it holds no `_`, and is the whole name when there is none |
| `JobIntake.AppendPlaced` | hook_system/processor/Src/submissionQueue.py:94-113 | the `if`/`elif` appends: the placed file is appended to its own list and the other three lists are unchanged |
| `JobIntake.ClassifyMembers` | hook_system/processor/Src/submissionQueue.py:78-113 | fails at the first member that raises; otherwise returns the four lists, each holding its members in archive order, with the file count equal to the number of members |
| `JobIntake.ExtensionIsSuffix` | hook_system/processor/Src/submissionQueue.py:87 | the sliced extension equals a dotted extension exactly when the name ends with it |
| `JobIntake.LanguageBySuffix` | hook_system/processor/Src/submissionQueue.py:94-96 | a member is Java exactly when its name ends in `.java`; it is C family exactly when it ends in `.cpp`, `.c`, `.hpp` or `.h` |
| `JobIntake.PlacementRules` | hook_system/processor/Src/submissionQueue.py:83-113 | each member goes to the right list: year roots get the owner from the folder and the right kind; exclusions get no owner and no kind; non-files, other roots and other extensions go nowhere; only a regular file named exactly like a year root raises |
| `JobIntake.CollectStep` | hook_system/processor/Src/submissionQueue.py:81-113 | handling one more member appends at most that member's file to its own list only |
| `JobIntake.CollectAppend` | hook_system/processor/Src/submissionQueue.py:81-113 | the lists of two concatenated member runs are the concatenations, so archive order is kept |
| `JobIntake.CollectMembership` | hook_system/processor/Src/submissionQueue.py:81-113 | a file is in a list exactly when some member is placed there as that file |
| `JobIntake.ArchiveName` | hook_system/processor/Src/submissionQueue.py:132 | `os.path.split(filePath)[1]` is the suffix of the path after its last `/`, and holds no `/`; a path without `/` is its own archive name |
| `JobIntake.JobId` | hook_system/processor/Src/submissionQueue.py:132-134 | the job id is no longer than the archive name, and is the name itself when it holds no `.tar.gz` |
| `JobIntake.JobIdOfArchive` | hook_system/processor/Src/submissionQueue.py:132-134 | an archive `dir/x.tar.gz` or `x.tar.gz` yields the job id `x` |
| `JobIntake.RemoveSuffixPattern` | hook_system/processor/Src/submissionQueue.py:134 | removing `.tar.gz` from `x + ".tar.gz"` gives `x` when `x` holds no occurrence of it, even where the suffix overlaps the end of `x` |
| `FileService.NatToString` | hook_system/client/ClientServer/Services/FileService.cs:132-133 | the decimal form of a number is a nonempty run of digits |
| `FileService.NatToStringValue` | hook_system/client/ClientServer/Services/FileService.cs:132-133 | the digits read back as the number itself, and only zero starts with `0` |
| `FileService.SubmissionFolderName` | hook_system/client/ClientServer/Services/FileService.cs:137-140 | the first name, an `_`, the last name, an `_`, then the student number, each piece at its position and nothing else |
| `FileService.SplitCourseCode` | hook_system/client/ClientServer/Services/FileService.cs:122-130 | the number part is the last `length - length/2` characters; for length at least 2, the code part is the rest and the halves differ by at most one; for shorter codes the code part is `z` |
| `FileService.SubmissionPath` | hook_system/client/ClientServer/Services/FileService.cs:120-135 | six components in order: year, course code half, course number half, assignment name, submission id, then the student folder |
| `FileService.FolderNamePieces` | hook_system/client/ClientServer/Services/FileService.cs:137-140 | the folder name splits at `_` into the pieces of first name, last name and number; without `_` in them, into exactly those three |
| `FileService.SubmissionPathRecovers` | hook_system/client/ClientServer/Services/FileService.cs:120-140 | the course components give back the course code (or `z` and the code when it is short); the folder's last `_`-piece is the student number's |
| `NamingContract.OwnerOfFolderName` | hook_system/client/ClientServer/Services/FileService.cs:139 | the processor's owner rule (submissionQueue.py line 101) applied to a folder the client named gives back the student number, when the number holds no `_` |
| `NamingContract.CurrentYearFileOwnedByStudent` | hook_system/client/ClientServer/Services/FileService.cs:139 | a Java file under `CurrentYear/<folder>/…` is queued for checking as a current-year file owned by that student |
| `SchedulerScenarios.ThreeJobsServedInOrder` | hook_system/processor/Src/submissionQueue.py:35-71 | three jobs of 10, 20 and 5 files come out in submission order, and the second waits rate times 10 |
| `SchedulerScenarios.WaitAfterFirstJobAsWritten` | hook_system/processor/Src/submissionQueue.py:140 | as written: after the first job finishes, the second still waits for the finished job's estimate |
| `SchedulerScenarios.FailedJobLeavesEstimate` | hook_system/processor/Src/submissionQueue.py:57-148 | as written: when the first job's pass fails at its member loop, the second job is still told to wait for the first, and after the second completes the abandoned estimate is all that remains |
| `SchedulerScenarios.WaitAfterFirstJobInOrder` | hook_system/processor/Src/submissionQueue.py:140 | corrected: after the first job finishes, the second waits for nothing |
| `SchedulerScenarios.EstimatesCompound` | hook_system/processor/Src/submissionQueue.py:46-48 | as written: three jobs of 1000 files store 1, 2 and 4 seconds, and the third is promised 3 seconds of wait |
| `SchedulerScenarios.OwnEstimatesAdd` | hook_system/processor/Src/submissionQueue.py:46-48 | corrected: the same jobs store 1 second each, and the third waits 2 seconds |
| `SchedulerScenarios.ExampleIdsNameTheirJobs` | hook_system/processor/Src/submissionQueue.py:195 | the ids `B` and `C` match only their own archive paths |

## Left out

- The mutex, the threads and the five-second sleep of the idle loop are left out. Each operation is atomic in the model.
- ETA formatting is left out (`arrow`, local time zone, `YYYY-MM-DD HH:mm:ss`). ETAs are real-valued instants.
- Python floats are modelled as exact reals.
- Reading the tar archive is left out: opening it, listing its members, extracting and UTF-8-decoding their contents. A member's contents are not modelled, and a decode error is not among the modelled failures.
- `os.path.normpath` is not modelled. Members arrive with their path already split into components.
- `standardize`, `winnow` and `xmlGenerator` are not part of this model. The model stops at the four lists handed to them.
- Left out as I/O and configuration: the XML results file, `os.remove` of the archive, `config.ini`, the success and failure e-mails, and the exception handler's body.
- The per-job measurement of `processing_per_file` at the end of `processQueue` is not modelled. It writes a local variable, and the message printed after it (which as written lacks a closing parenthesis) is output only. For an archive with no members, the division by `num_files` (submissionQueue.py:146) raises `ZeroDivisionError` after the `pop()` at line 140. The lists end up the same as the model's, but the source then takes its failure handler, while `Scheduler.ProcessNext` with no members reports `Done`.
- `Path.Combine`'s own rules are not modelled: its separator, rooted or empty components, and invalid characters. The path is its six components.
- C# `null` strings and culture-specific number formatting are not modelled. Years and ids are printed in plain decimal, with a `-` for negatives.
- SplitCourseCode: C# `Length` and `Substring` count UTF-16 code units, while a Dafny string counts Unicode scalar values, so a course code with a character outside the Basic Multilingual Plane is halved differently here.
- The rest of `FileService.cs` is not part of this model. That covers saving, moving, deleting and archiving submissions.
- `scrub.py`, `hook_suite.py` and `server.py` are not part of this model.
- JobIdOfArchive: stated only for an `x` without `/` and without an occurrence of `.tar.gz`. For other names, `replace` also strips the inner occurrences; `RemoveAllScan` describes that scan step by step.
- RemoveAll: its lemmas cover a string without the pattern and the scan past one occurrence. No lemma states that the result is free of the pattern, since it need not be: removing `.tar.gz` from `..tar.gztar.gz` leaves `.tar.gz`.
- ClassifyMembers: the failure result carries only the index of the member that raised, not the exception.
- ProcessNext: the archive's member list is a parameter, since reading the tar file is left out. A failed pass is modelled only for the raise inside the member loop and the `pop()` on an empty list. Other exceptions (a missing archive, a decode error, a failing result write) take the same handler path and likewise leave the estimate behind, but are not modelled.

## Findings

| source | as written | input that shows it | evidently intended | confidence | as-written member | corrected member |
|---|---|---|---|---|---|---|
| hook_system/processor/Src/submissionQueue.py:140 | `timeQueue.pop()` removes the newest time entry when a job finishes | submit A, then B; A is processed; the pop removes B's entry and keeps A's, so B is still promised A's processing time and B's own entry is gone | remove the finished job's entry, the oldest (`pop(0)`), keeping the time queue in step with the submission queue; this covers completed jobs only, since a pass that fails pops nothing and leaves its estimate behind whichever end is popped (`SubmissionQueue.StaleEstimateDelaysLaterJobs`) | medium; not executed | `SubmissionQueue.Scheduler.CompleteJob`, `SubmissionQueue.PopLastMisaligns`, `SchedulerScenarios.WaitAfterFirstJobAsWritten` | `SubmissionQueue.Scheduler.CompleteJobInOrder`, `SubmissionQueue.PopFirstRealigns`, `SchedulerScenarios.WaitAfterFirstJobInOrder` |
| hook_system/processor/Src/submissionQueue.py:46-48 | the stored estimate is the full `estimateProcessing` result, which already includes every earlier entry; `estimateQueue` and `estimateProcessing` then add those entries again | jobs A, B, C of 1000 files each store 1, 2 and 4 seconds; C is promised a 3 second wait, though A and B take 2 | store only the job's own duration (rate times file count), so sums of stored entries are sums of work | medium; not executed | `SubmissionQueue.Scheduler.AddToQueue`, `SubmissionQueue.CumulativeEstimatesOvercount`, `SchedulerScenarios.EstimatesCompound` | `SubmissionQueue.Scheduler.AddToQueueOwnDuration`, `SubmissionQueue.OwnDurationsQueueWait`, `SchedulerScenarios.OwnEstimatesAdd` |

`Scheduler.AddToQueue` and `Scheduler.CompleteJob` keep the behaviour as
written, since they are the source's operations. The corrected members stand
beside them and carry the intended properties.
