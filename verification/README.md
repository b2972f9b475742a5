# Verified models of the online judge's state machines

The backend of the judge keeps a lot of its promises in small pieces of state: a queue with an on-demand worker, two
rate limiters, streaks, vote counters, skill counters. This project models those pieces in Dafny and proves what they
promise over every run, or shows exactly when they keep the promise.

Each file is one module. The state that the program updates in place is a class whose methods follow the program's
branches and loops; each method is proved against a function of the old state, and the laws are lemmas about runs of
that function.

- `SubmissionQueue.dfy`: the channel of submissions, the mutex, the flag `isProcessing`, one starter goroutine per
  request and the workers, as atomic steps in any interleaving. Sending to the channel takes no lock. A receiver that is
  handed an item directly is a send followed by a receive.
- `History.dfy`: that queue from outside: what the events of a run say about who is queued, in what order, and who can act.
- `Retirement.dfy`: whether the worker of that queue retires and the flag ends up lowered.
- `Judge.dfy`: running a submission's tests, folding the results into a verdict, and looking the first failure up again.
  The executor is an arbitrary function of the call; whether each result document gets stored is an input.
- `IpLimiter.dfy`: the in-memory limiter for guest accounts.
- `UserLimiter.dfy`: the stored limiter per user and service, its reporter and the administrator's changes.
- `NewUsers.dfy`: that limiter for a user without a stored document, in runs of calls for any services.
- `Streaks.dfy`: daily check-ins, the current and the longest streak.
- `Votes.dfy`: vote records and the counters of threads and comments.
- `Pagination.dfy`: the paged lists, with the 64-bit arithmetic of the offset.
- `Skills.dfy`: solved problems, levels and practice per tag. Recording a submission as accepted and updating the profile
  for it are separate events of a run, because the update runs in its own goroutine.
- `JavaLines.dfy`: which texts the Java harness reads as ints, arrays and pairs.
- `JavaHarness.dfy`: the printer and the parsers of the default Java harness. The digits are those of Unicode 15, which
  the Java 21 of its image implements; the values of a HashMap come in no specified order.
- `Sums.dfy`: sums of a function over a finite set.
- `Common.dfy`: options, results, ordered times, truncating division, searching, trimming.

## Where the code differs from what is said of it

The model follows the code. In these places the code does not do what its documentation, messages or names say; each
has a lemma with the exact condition.

- A submission queued just after the worker saw an empty queue stays queued, although it was answered as being
  processed, until another request arrives (`DrainsIff`, `ASubmissionCanBeStranded`, `AnyRequestMakesItDrain`).
- `isProcessing` can stay up with nothing to process: a worker spawned for nothing waits at the empty queue and does not
  retire. `RetiresIff` says when that can happen, `FlagAtTheEnd` when it does.
- "3 accounts per hour per IP address" (the repository's README.md:108) holds for windows that start with a request; within an arbitrary
  hour 5 can be created (`DocumentedPromiseIff`).
- "Rate limits ... reset hourly" (the repository's README.md:110) holds only for the first window, because the restart of a window is
  not stored; afterwards nothing is limited (`ResetsAsDocumentedIff`, `GrantedExactly`).
- A default service is limited only if the user's stored document has it, because the element that the update creates
  for a missing one has no service name (`DefaultServiceIsLimitedIff`, `MissingServiceIsNeverLimited`).
- The reporter and the limiter disagree at the instant a used-up window ends (`ReporterAgreesIff`).
- Every executor reports `time_limit_exceeded`, the judge waits for `timeout`, so a run out of time is recorded as a
  runtime error (`NoTimeLimitVerdict`).
- Pages after the last are empty only while their offset, in 64 bits, stays in range; a far one fails or shows items
  again (`LaterPagesAreEmptyIff`, `PageByOffset`, `SamePageIff`).
- "to avoid double counting" (backend/internal/handlers/user_skills.go:114): a problem counts once for every update
  before its second recorded acceptance and every time it lists the tag. So it can count twice, when it repeats a tag or
  when the first submission to pass could not be recorded, and never, when it was first accepted while it had no tests or
  when a second acceptance overtakes the first update (`CountersCountDistinctProblemsIff`, `InOrderCountersIff`,
  `UnrecordedPassCountsTwice`, `OvertakenUpdateNeverCounts`).
- Taking back or changing a vote adds to the counters instead of moving a vote (`CountersMatchIff`).
- The documented input line `nums = [2,7,11,15], target = 9` is read only for arrays of one element
  (`TwoSumLineIsReadIff`), and an empty array is printed but cannot be parsed (`ArrayRoundTripIff`).

## Model

| member | source | states |
|---|---|---|
| SubmissionQueue.SafeInEveryRun | backend/internal/handlers/submission.go:187-212 | in every interleaving of any number of handlers, starters and workers: at most one worker goroutine exists, the flag is up exactly while one is live or being spawned, at most 100 submissions are queued, each is received at most once and in queueing order, none is lost |
| History.QueuedIffSent | backend/internal/handlers/submission.go:53-176 | in every run a submission is queued iff its handler sent it, never after its handler answered with an error, and no handler sends or rejects twice |
| History.FirstInFirstOut | backend/internal/handlers/submission.go:175-212 | in every run what is processed and what waits are cut from the list of sends: first in, first out, at most one in hand and at most 100 waiting |
| History.NextActionIff | backend/internal/handlers/submission.go:44-176 | in every run a handler can send or reject next iff it has arrived and done neither, and a send needs fewer than 100 waiting |
| SubmissionQueue.OneInTheCriticalSection | backend/internal/handlers/submission.go:187-210 | no two goroutines are between Lock and Unlock at once |
| SubmissionQueue.RetiresOnlyWhenAllIsProcessed | backend/internal/handlers/submission.go:203-209 | a worker decides to retire exactly when everything ever queued has been processed |
| SubmissionQueue.InternalRunsEnd | backend/internal/handlers/submission.go:187-212 | without new requests the existing goroutines take at most a computable number of steps |
| SubmissionQueue.ReachesQuiescence | backend/internal/handlers/submission.go:187-212 | every run of the existing goroutines can be continued until none can move |
| SubmissionQueue.DrainsIff | backend/internal/handlers/submission.go:187-212 | from every reachable state, however the goroutines go on until none can move, all queued work is processed in order if and only if nothing is queued, or the worker has not seen an empty queue, or a starter has yet to test the flag; the flag is then down iff every worker has exited, and up iff the newest waits at an empty queue |
| SubmissionQueue.AnyRequestMakesItDrain | backend/internal/handlers/submission.go:50-51 | after any request that gets as far as spawning its starter, even one that is then rejected, every way in which the goroutines go on until none can move ends with all that was queued processed |
| Retirement.RetiresIff | backend/internal/handlers/submission.go:187-212 | from a reachable state every way of going on ends with the flag down iff no worker waits at an empty queue or is being spawned for one, and no pending starter (at the lock, or testing a lowered flag) could spawn one with nothing to do: none is pending, or something is queued, no worker or spawner is there to take it, and only one is pending |
| Retirement.FlagAtTheEnd | backend/internal/handlers/submission.go:198-212 | with no pending starter, every way of going on ends with the flag down and all workers exited iff no worker waits at an empty queue or is being spawned for one, and otherwise with the flag up |
| Retirement.WorkIsDoneAndWorkerRetires | backend/internal/handlers/submission.go:198-212 | a worker at work with no pending starter processes everything queued, in order, and ends with the queue empty and the flag down |
| SubmissionQueue.AttendedSubmissionIsProcessed | backend/internal/handlers/submission.go:198-212 | in every interleaving with any further requests, a queued submission whose worker has not seen an empty queue is processed within 501 steps of the worker, at its place in the order |
| SubmissionQueue.EveryRequestServesThoseBefore | backend/internal/handlers/submission.go:50-51 | in every interleaving with any further requests, once the starter of a request has finished, each submission queued before the request is done or has a worker that has not seen an empty queue |
| SubmissionQueue.ThoseBeforeAreProcessed | backend/internal/handlers/submission.go:187-212 | each of them is processed, at its place in the order, within 501 further steps of the worker, in every interleaving |
| SubmissionQueue.ASubmissionCanBeStranded | backend/internal/handlers/submission.go:198-212 | a run of two requests after which a queued submission has no goroutine left to take it |
| SubmissionQueue.Processor.constructor | backend/internal/handlers/submission.go:28-32 | the initial state |
| SubmissionQueue.Processor.Arrive | backend/internal/handlers/submission.go:44-51 | a request spawns its starter first, keeping the invariant |
| SubmissionQueue.Processor.Reject | backend/internal/handlers/submission.go:53-173 | a handler that fails queues nothing |
| SubmissionQueue.Processor.Enqueue | backend/internal/handlers/submission.go:155-175 | a send needs room in the channel and appends to it |
| SubmissionQueue.Processor.StepStarter | backend/internal/handlers/submission.go:187-195 | lock, test and raise the flag, spawn, unlock, each one step of the specification |
| SubmissionQueue.Processor.StepWorker | backend/internal/handlers/submission.go:198-212 | receive, process, lock, test the length, lower the flag, unlock, each one step of the specification |
| Judge.FillResult | backend/internal/handlers/execute.go:113-143 | the entry for each executor outcome, field by field, and whether it counts as an error |
| Judge.RunCodeAgainstTestCases | backend/internal/handlers/execute.go:104-162 | one result per test in order, success exactly when every entry is, the time is the maximum entry (at least 0) |
| Judge.PassedIff | backend/internal/handlers/submission.go:313-333 | a test passes exactly when the run succeeded and the output is the expected one up to surrounding white space |
| Judge.SpacesAre | backend/internal/handlers/submission.go:325 | the 25 characters that trimming removes |
| Judge.JudgeOne | backend/internal/handlers/submission.go:300-333 | the stored result of one test and the verdict so far |
| Judge.JudgeResults | backend/internal/handlers/submission.go:291-358 | the loop's verdict, pass count, first failure, totals and stored documents, in terms of the list of results |
| Judge.VerdictMeans | backend/internal/handlers/submission.go:291-358 | ACCEPTED iff all passed iff the pass count is the number of tests iff no first failure is kept; otherwise verdict and kept result are those of the least-index failure |
| Judge.TallyOwes | backend/internal/handlers/submission.go:291-389 | from the executor's outputs alone: ACCEPTED iff every run succeeds with the expected output up to white space; else the verdict, actual output and error text of the first that does not; the number solved and the averages |
| Judge.TimeLimitVerdictIff | backend/internal/handlers/submission.go:313-324 | the verdict is TIME_LIMIT_EXCEEDED exactly when the first failed test has status "timeout" |
| Judge.NoTimeLimitVerdict | docker/java_executor/main.go:97-104 | with the statuses the executors send, the verdict is never TIME_LIMIT_EXCEEDED and a first failure out of time is RUNTIME_ERROR |
| Judge.AverageWithinTimes | backend/internal/handlers/submission.go:382-389 | the stored average lies between the least time and the maximum of the first loop, and is the total divided with remainder |
| Common.TruncatedDivIs | backend/internal/handlers/submission.go:382-389 | the averages' division: the quotient toward zero |
| Judge.LookupAgreesIff | backend/internal/handlers/submission.go:873-886 | the details query must return the kept first failure iff that one was stored and no other stored failure shares its sequence number |
| Judge.NothingFoundIff | backend/internal/handlers/submission.go:873-886 | the details query comes back empty iff no failed result was stored |
| Judge.LookupAgrees | backend/internal/handlers/submission.go:873-886 | with all results stored and distinct sequence numbers the query and the fold name the same result |
| Judge.Submission.constructor | backend/internal/handlers/submission.go:91-98 | a new submission is pending and has no results |
| Judge.Submission.UpdateStatus | backend/internal/handlers/submission.go:427-463 | which fields an update writes, failure details only when there are some, and nothing when the submission is not found again |
| Judge.Submission.Process | backend/internal/handlers/submission.go:215-391 | the record and the stored results after processing, in terms of what the executor gave: for every failed lookup, for a problem without tests, and for a judged run; when the update itself fails the record is untouched |
| Judge.Submission.FirstFailedResult | backend/internal/handlers/submission.go:873-891 | the lookup returns a legal answer of the query, and nothing only when accepted or no stored result failed |
| IpLimiter.EntryDescribesWindow | backend/internal/middleware/rate_limit.go:457-493 | in every run the stored count is the number of admissions since the window's opening request, and the reset time is one window length after it |
| IpLimiter.WindowsFarApart | backend/internal/middleware/rate_limit.go:474-478 | a later window opens more than one window length after an earlier one |
| IpLimiter.LastAdmittedIff | backend/internal/middleware/rate_limit.go:474-493 | in every run a request is admitted iff fewer than the limit came before it in its window, where windows are cut from the times alone |
| IpLimiter.WindowAdmitsExactly | backend/internal/middleware/rate_limit.go:474-493 | every window admits exactly the smaller of its requests and the limit |
| IpLimiter.AtMostTwiceMaxLessOne | backend/internal/middleware/rate_limit.go:471-493 | in every run with a non-decreasing clock, any requests within one window length include at most 2 * max - 1 admissions |
| IpLimiter.BoundIsReached | backend/internal/middleware/rate_limit.go:471-493 | for every positive limit and window a run reaches that bound |
| IpLimiter.DocumentedPromiseIff | README.md:108 | at most max in any window length holds iff the limit is at most 1 or the window is not positive |
| IpLimiter.FiveGuestsWithinAnHour | backend/cmd/server/main.go:113 | with 3 per 60 minutes, 5 can be admitted within 60 minutes, never more |
| IpLimiter.AddressesAreIndependent | backend/internal/middleware/rate_limit.go:452-478 | in every mixed run an address's entry is what its own requests alone make of it |
| IpLimiter.AnswersAreIndependent | backend/internal/middleware/rate_limit.go:452-493 | a request is answered as by a limiter that serves only its address |
| IpLimiter.AnswerInEveryRun | backend/internal/middleware/rate_limit.go:452-502 | in every mixed run the decision, the remaining use and the reset time sent with it follow from the times of the address's own requests |
| IpLimiter.EveryAddressIsBounded | backend/internal/middleware/rate_limit.go:452-493 | in every run with requests of any addresses, any requests within one window length include at most 2 * max - 1 admissions of one address |
| IpLimiter.RetryAfterIsExact | backend/internal/middleware/rate_limit.go:481-489 | a refused address is refused up to the announced reset time and let through after it, unless the limit is zero |
| IpLimiter.IpRateLimits.Handle | backend/internal/middleware/rate_limit.go:437-503 | the entry, the decision and the headers of one request, in any run; other entries stay |
| UserLimiter.CountIsConserved | backend/internal/middleware/rate_limit.go:116-153 | up to the end of the recorded window, with limit changes in between, the stored count has grown by exactly the admitted requests and never past the largest limit in force |
| UserLimiter.AdmissionLeavesCountInRange | backend/internal/middleware/rate_limit.go:124-144 | an admitted request leaves a count from 1 to the limit in force, a refused one changes nothing |
| UserLimiter.LeftIsExact | backend/internal/middleware/rate_limit.go:116-153 | how many of any number of requests in the recorded window are admitted |
| UserLimiter.ReportIsExact | backend/internal/middleware/rate_limit.go:309-325 | a remaining use reported before the window ends is exactly the number of further admissions in it, all later requests are refused |
| UserLimiter.ReporterAgreesIff | backend/internal/middleware/rate_limit.go:309-317 | in every reachable state, reported remaining use is positive iff a request at that instant is admitted, iff it is not the window's end with the limit used up |
| UserLimiter.HeaderAgreesIff | backend/internal/middleware/rate_limit.go:166-176 | the remaining use sent with an admission is the reported one iff the recorded window lasts |
| UserLimiter.RetryAfterIsExact | backend/internal/middleware/rate_limit.go:126-139 | refusals last up to the announced reset time, the next request is admitted unless the limit is zero |
| UserLimiter.AdmittedIff | backend/internal/middleware/rate_limit.go:116-144 | after any requests and limit changes, a request is admitted in the recorded window iff fewer are counted than the limit then in force, and after it iff that limit is positive |
| UserLimiter.NothingIsLimitedAfterTheWindow | backend/internal/middleware/rate_limit.go:116-153 | after the recorded window exactly the requests that come while the limit in force is positive are admitted, with any limit changes in between |
| UserLimiter.GrantedExactly | backend/internal/middleware/rate_limit.go:116-153 | the number of admissions of every run: what the limit has left up to the end of the window, and after it, with any limit changes, every request that comes while the limit is positive |
| UserLimiter.ResetsAsDocumentedIff | README.md:110 | the limiter answers like one that stores its restarts, on all runs up to a time, iff the recorded window lasts until then, or the limit is not positive, or the window length is negative |
| UserLimiter.StepChangesOneEntry | backend/internal/middleware/rate_limit.go:145-153 | a call changes at most the entry of its service, and no names |
| UserLimiter.ServicesAreIndependent | backend/internal/middleware/rate_limit.go:83-159 | in every run over the whole document the entry of a present service is what its own events make of it |
| UserLimiter.MissingServiceIsNeverLimited | backend/internal/middleware/rate_limit.go:95-153 | in every run with requests for any services and limit changes, a default service that the document lacks stays missing and its next request is admitted |
| UserLimiter.DefaultServiceIsLimitedIff | backend/internal/middleware/rate_limit.go:83-153 | some run of requests ends with one for a default service being refused iff the document has the service |
| UserLimiter.AnnouncedEndIsStoredIff | backend/internal/middleware/rate_limit.go:59-70 | the end of the window announced on creating a document is the stored one iff it was created at a whole millisecond, and else later by less than one |
| NewUsers.NewUserIsGranted | backend/internal/models/rate_limit.go:43-66 | within 60 minutes of a new user's first call, with calls for any services, exactly the smaller of the calls and the limit is admitted: 1000, 100, 200, 200, 100, 50 for administrators and 100, 20, 50, 50, 20, 10 for others, none for any other service |
| NewUsers.FirstAnswer | backend/internal/middleware/rate_limit.go:59-178 | the answer to the first call, with its remaining use and reset time |
| NewUsers.AnswerWithinLimit | backend/internal/middleware/rate_limit.go:116-178 | every later answer in that hour while fewer calls than the limit have been made |
| NewUsers.AnswerPastLimit | backend/internal/middleware/rate_limit.go:124-139 | every later answer in that hour once as many have been made |
| NewUsers.OtherServiceIsUnknown | backend/internal/middleware/rate_limit.go:95-114 | a service without a default limit is unknown in every run and changes no entry |
| NewUsers.MissingServiceAnswer | backend/internal/middleware/rate_limit.go:95-153 | the answer for a default service that a stored document lacks, and the element it leaves |
| NewUsers.ReportWithinTheHour | backend/internal/middleware/rate_limit.go:299-325 | the report in that hour: the six services in order, each with the rest of its limit |
| UserLimiter.RateLimits.LimitFor | backend/internal/middleware/rate_limit.go:83-114 | the entry a request is judged by |
| UserLimiter.RateLimits.Judge | backend/internal/middleware/rate_limit.go:116-144 | the decision on the refreshed copy and the two fields to store |
| UserLimiter.RateLimits.CheckServices | backend/internal/middleware/rate_limit.go:83-178 | the services and the answer after a check |
| UserLimiter.RateLimits.CheckAndUpdate | backend/internal/middleware/rate_limit.go:50-179 | the collection and the answer after a check, creating the default document, with times stored in milliseconds |
| UserLimiter.RateLimits.Report | backend/internal/middleware/rate_limit.go:280-325 | the reported statistics, one per service in order |
| UserLimiter.RateLimits.SetMaxRequests | backend/internal/middleware/rate_limit.go:352-414 | which reply a change gets, the one field it changes, and that nothing else changes |
| Streaks.TailRunIsLongestSuffixBlock | backend/internal/handlers/user_checkin.go:193-217 | the running streak is the longest block of consecutive days at the end of the list |
| Streaks.MaxRunIsLongestBlock | backend/internal/handlers/user_checkin.go:219-248 | the longest streak is the length of a block of consecutive days and no block is longer, for every list |
| Streaks.MaxRunIsLongestSetRun | backend/internal/handlers/user_checkin.go:219-248 | when no day repeats, it is the largest number of consecutive days that are all in the set of days |
| Streaks.BackwardLoop | backend/internal/handlers/user_checkin.go:184-217 | the loop computes 0 unless the last check-in is today or yesterday, and otherwise the running streak of the forward loop |
| Streaks.ForwardLoop | backend/internal/handlers/user_checkin.go:219-248 | the loop computes the longest streak |
| Streaks.ComputeStreaks | backend/internal/handlers/user_checkin.go:184-248 | both loops, and current <= longest for every list |
| Streaks.RecomputationRefinesAccount | backend/internal/handlers/user_checkin.go:50-96 | in every sequential run there is one check-in per day and recomputing from the history gives what a constant-time account gives |
| Streaks.IncrementalLaw | backend/internal/handlers/user_checkin.go:59-95 | a new check-in extends the streak running on that day by one, iff recomputed that day or the next, and raises the longest to it |
| Streaks.LongestStreakOfCalls | backend/internal/handlers/user_checkin.go:50-96 | in every run the longest streak is the largest number of consecutive 24-hour days on each of which a call began |
| Streaks.CurrentStreakOfCalls | backend/internal/handlers/user_checkin.go:50-96 | in every run the current streak is the number of consecutive days with a call up to the last such day, or 0 when that day's first call recomputed later than the next day |
| Streaks.CheckinLog.RecordCheckin | backend/internal/handlers/user_checkin.go:50-96 | the record after a call, and that it succeeds iff the day has no check-in |
| Votes.RecordIsLastSent | backend/internal/handlers/discussions.go:633-695 | in every run at most one record per user and target exists and holds the last value from -1 to 1 sent, and none after a 0 |
| Votes.LiveIsVoters | backend/internal/handlers/discussions.go:641-695 | the records of a target and value are as many as the users whose last vote that is |
| Votes.CountersLaw | backend/internal/handlers/discussions.go:697-725 | from the ballots alone: upvotes = users voting up + n and downvotes = users voting down + 2n + p, where n and p count the downvotes and upvotes ever left; other targets get no counters |
| Votes.CountersMatchIff | backend/internal/handlers/discussions.go:697-725 | the counters never undercount, and match iff no vote on the target was ever changed |
| Votes.TakingBackAnUpvoteLeavesADownvote | backend/internal/handlers/discussions.go:705-716 | the shortest run on which they differ |
| Votes.Discussion.FindVote | backend/internal/handlers/discussions.go:633-639 | the lookup of the user's vote |
| Votes.Discussion.RecordVote | backend/internal/handlers/discussions.go:641-695 | the record is inserted, updated or deleted, and the old value |
| Votes.Discussion.UpdateCounters | backend/internal/handlers/discussions.go:705-725 | the increments of both counters |
| Votes.Discussion.CastVote | backend/internal/handlers/discussions.go:617-725 | the board after a vote; invalid values are rejected |
| Pagination.PageIs | backend/internal/handlers/discussions.go:49-73 | which part of the sorted list a page is |
| Pagination.PageByOffset | backend/internal/handlers/discussions.go:58-73 | for every page number: the query fails iff the offset modulo 2^64 is at least 2^63, is empty iff that is past the list and below 2^63, and else is the part of the list at it |
| Pagination.PagesPartition | backend/internal/handlers/discussions.go:133-137 | the pages 1 to total_pages joined are the list, all but the last are full, the last is not empty |
| Pagination.LaterPagesAreEmptyIff | backend/internal/handlers/discussions.go:58-73 | a page after the last is empty iff its offset modulo 2^64 is past the list and below 2^63, and always while it fits 64 bits |
| Pagination.SamePageIff | backend/internal/handlers/discussions.go:58-73 | a page shows what the first one shows iff its offset is a multiple of 2^64 |
| Pagination.FarPageWrapsAround | backend/internal/handlers/discussions.go:58-73 | the least page number at size 32, after 1, for which that happens |
| Pagination.ListItems | backend/internal/handlers/discussions.go:90-119 | every item carries its author's name as a fresh lookup would give it, in order |
| Pagination.GetPage | backend/internal/handlers/discussions.go:49-138 | for any query parameters the page and size in force, the error, or the items of the slice with their authors' names and the page data |
| Pagination.GetThreads | backend/internal/handlers/discussions.go:49-138 | the same with 10 to a page by default |
| Pagination.GetComments | backend/internal/handlers/discussions.go:256-345 | the same with 20 to a page by default |
| Pagination.EveryPostIsShown | backend/internal/handlers/discussions.go:58-138 | post number i * limit + j is item j of page i + 1, which is one of the announced pages |
| Skills.ReachableProfileOk | backend/internal/handlers/user_skills.go:143-202 | in every run: unique names, easy + medium + hard at most solved and equal when all problems are rated, level as calculated |
| Skills.SkillShows | backend/internal/handlers/user_skills.go:67-76 | in every run a skill's four counters follow from the run, and its level from the numbers: Expert iff hard >= 10 or solved >= 50, at least Advanced iff hard >= 5 or medium >= 15 or solved >= 30, Beginner iff hard < 5, medium < 5 and solved < 15 |
| Skills.LevelsNeverDrop | backend/internal/handlers/user_skills.go:67-76 | between any two moments of a run no skill disappears and no level drops |
| Skills.CountersLaw | backend/internal/handlers/user_skills.go:115-202 | in every order of recorded acceptances and profile updates, each of the four counters of a tag is the sum over the distinct problems it is about of the updates before the problem's second acceptance, times how often it lists the tag |
| Skills.CountersBalance | backend/internal/handlers/user_skills.go:115-202 | a counter plus the accepted problems that no update counts is the number of distinct accepted problems it is about plus the surplus |
| Skills.CountersCountDistinctProblemsIff | backend/internal/handlers/user_skills.go:115-202 | a counter is the number of distinct accepted problems it is about iff the surplus makes up for the missed ones; with none counted too often iff none is missed, and with none missed iff none is counted twice, lists the tag twice, or is counted without being accepted |
| Skills.InOrderCountersIff | backend/internal/handlers/submission.go:258-262 | with submissions that are recorded and update one after the other: with no repeated tag the counters are right iff the first accepted submission of each problem was judged on tests, and with that iff no tag is repeated |
| Skills.UnrecordedPassCountsTwice | backend/internal/handlers/submission.go:393-410 | a run in which a submission passes whose record cannot be written, so that one problem counts twice |
| Skills.OvertakenUpdateNeverCounts | backend/internal/handlers/submission.go:393-410 | a run in which a second acceptance overtakes the first update, so that the problem never counts |
| Skills.PracticeIsLastUpdate | backend/internal/handlers/user_skills.go:134-200 | a skill exists iff a problem with its tag is counted, and shows when the last update for a problem with the tag came |
| Skills.Profile.Practise | backend/internal/handlers/user_skills.go:134-142 | only the practice time of the problem's tags changes |
| Skills.Profile.CountTag | backend/internal/handlers/user_skills.go:145-200 | the tag's skill is raised or created, the others stay |
| Skills.Profile.CountProblem | backend/internal/handlers/user_skills.go:143-202 | all tags of a problem |
| Skills.Profile.UpdateUserSkill | backend/internal/handlers/user_skills.go:79-202 | the profile after a submission, keeping the invariant |
| JavaHarness.DecimalRoundTrip | docker/java_executor/main.go:165-176 | every 32-bit int survives print and parse |
| JavaHarness.ArrayRoundTripIff | docker/java_executor/main.go:155-185 | parsing the printed array gives it back iff it is not empty; the empty one is rejected |
| JavaHarness.TwoSumLineIsReadIff | docker/java_executor/main.go:120-145 | the documented line is read as its array and target iff the array has one element; the empty one and the longer ones throw, each its own exception |
| JavaHarness.PrintResult | docker/java_executor/main.go:171-181 | the text written for an int array |
| JavaHarness.ParseIntArray | docker/java_executor/main.go:155-169 | the array or the exception for any text |
| JavaHarness.ReadValue | docker/java_executor/main.go:128-138 | the value of one pair |
| JavaHarness.ReadPairs | docker/java_executor/main.go:122-139 | the pairs of a line, or the exception of the first bad one |
| JavaHarness.ParseInput | docker/java_executor/main.go:120-153 | the objects returned for any input, or the exception; the values of a line without nums and target in some order |
| JavaLines.DigitIs | docker/java_executor/main.go:165 | which characters are digits, and of what value |
| JavaLines.ParseIntIff | docker/java_executor/main.go:165 | a string is read as an int iff it is digits after at most one sign whose value has 32 bits |
| JavaLines.DecimalIsShortest | docker/java_executor/main.go:175 | the printed int has ASCII digits only, a minus sign iff negative and no zero first |
| JavaLines.PrintedIs | docker/java_executor/main.go:171-181 | the printed array, element by element |
| JavaLines.ArrayTextIsRead | docker/java_executor/main.go:155-169 | an array text is read with any blanks around it and its elements, any commas after the last, and any visible character as closing bracket |
| JavaLines.LoneBracketFails | docker/java_executor/main.go:157-159 | a lone opening bracket throws |
| JavaLines.ArrayLineIsRead | docker/java_executor/main.go:147-150 | a bracketed line without = is read as its array |
| JavaLines.PrintedLineIsReadIff | docker/java_executor/main.go:147-150 | a printed array is read back as a line iff it is not empty |
| JavaLines.PlainLineIsReturned | docker/java_executor/main.go:152 | any other line without = is returned as it is |
| JavaLines.LineOfPairsIsRead | docker/java_executor/main.go:120-145 | a line of pairs of ints, arrays of one int and texts, with any blanks, is read as nums and target when both are named, else as the last value of each name |
| JavaLines.OneValueForEachName | docker/java_executor/main.go:144 | the values returned for other names are one for each, in whatever order |
| JavaLines.NameAloneFails | docker/java_executor/main.go:126-128 | a name without a value throws |

## Left out

- MongoDB, HTTP, tokens and logs: collections are sequences and maps whose reads and writes succeed, except the lookups
  of `processSubmission`, the storing of each test result and the status update, which may fail; a user id is given.
- Sorting and filtering by the database: the lists that are paged come sorted, and the address of a guest is a given string.
- Running user code: an executor is an arbitrary function of the call number and the input.
- The clock: times are integers and every run of the limiters and of check-ins has one that does not go back; a date
  string is its day number.
- Races inside requests outside the queue: a check-in, a vote, a skill update and a rate limit check each are one step,
  and finding or creating an IP entry is one step with the rest.
- Failures inside `processSubmission`: it is one step of the worker that always ends; a panic that would kill the worker
  with the flag raised is not modelled.
- Other users: check-ins, skills and vote records are filtered by user in every query, so one user's records are modelled.
- Go integers other than the page offset: counts, durations and sums of times are unbounded.
- UserLimiter.CheckMissing: the default limits are taken at the request's own time, where the program reads the clock once
  more.
- The Java harness's `main`: the casts of the parsed values and the call of the solution.
- Complexity analysis, acceptance rates, language statistics, test data generators, comment deletion and the frontend:
  they would add only simple members.
