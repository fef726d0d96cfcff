# Verified model of the sylar runtime core

The project models the parts of the server framework whose correctness rests on invariants that cross several
functions, and proves those invariants for every input or every reachable state:

- **Scheduler, fibers, poller, timers and hooked I/O as one system** (`Runtime*.dfy`). Any number of threads pick
  from one queue; fibers park in an event slot or behind a sleep timer; reports, cancellations and expired timers
  put them back. The steps interleave freely, and a theorem holds in every state some run of them reaches; what the
  steps fuse is listed under "Left out". What a run must have done is told from its operations alone - the tasks,
  the timers and the calls they ask for - and found again in the state (`RuntimeTasks.dfy`, `RuntimeTimes.dfy`,
  `RuntimeCalls.dfy`). `RuntimeWaits.dfy` and `RuntimeLimits.dfy` follow the calls that wait, and say exactly when a
  time limit ends the wait; by `RuntimeProgress.dfy` no thread is ever stuck. The pieces also exist in the source's
  own imperative form: `Scheduler.dfy` (the loop of `run`, the fiber states, scheduling a range), `EventPoller.dfy`
  (the descriptor contexts, their operations and idle's pass over the reports), `TimerManager.dfy` (timer objects in
  an ordered set), `HookedIo.dfy` (do_io's retry loop over those two, proved to take the course that
  `HookedCourse.dfy` tells without them). The poller and timer classes are proved to compute the functions that the
  runs are built from (`Poller.dfy`, `Timers.dfy`), and the scheduler's loop is proved to compute the steps of the
  runs (`RunnerSteps.dfy`).
- **The byte buffer** (`ByteArray.dfy`) as the linked list of nodes it is, with its cached node, refined to a flat
  byte sequence; on top of it fixed-width integers and length-prefixed strings (`Endian.dfy`, `TypedStream.dfy`) and
  variable-length integers (`Varint.dfy`, `VarintStream.dfy`).
- **A scanner and a printer**: the log pattern scanner (`LogPattern.dfy`) and the zero-compressing IPv6 printer
  (`Ipv6.dfy`), each with its inverse.

## How it is built

Conservation laws are stated for an arbitrary weight on tasks (`Prelude.Total`): with the indicator of one task as
the weight they count that task's occurrences, so a law for all weights is a law about multisets. A failed assertion
of the source is an outcome that names its line (`Abort`, `Failed`) where the model follows single operations, and a
precondition in `Scheduler.dfy`, where calling the method proves it. Undefined behaviour the code really reaches -
following a null node - is the outcome `NullNode`, and the contracts say exactly when it happens. Positions in the
buffer are taken apart by counting whole nodes (`Start`, `NodeOf`, `Rem`); `DivideIsDivision` ties that to division.
Bitwise operators on unsigned words are defined bit by bit on numbers (`BitOr`, `BitXor`, `Shl`, `Wrap`).

## Where the code does something else than it seems to

Each item is a statement about the code as it is, and the exact condition under which it does meet its purpose:

- `write` and `getWriteBuffers` use the wrong node after rewinding in a buffer filled to the brim; they are right
  exactly when `size < capacity || position == size` (`ByteArray.Write`).
- `setPosition(capacity)`, and reading an empty string that ends at the capacity, follow a null node
  (`ByteArray.SetPosition`, `TypedStream.RoundTrip`).
- The variable-length writers stop before the last group, so nothing written at the end can be read back
  (`Varints.WriterDropsLast`, `VarintStream.WriteThenRead`). The 64-bit readers return 32 bits: right exactly below
  2^31, and for signed values exactly from -2^30 to 2^30 - 1 (`Varints.NarrowedExact`, `Varints.ReadInt64Exact`).
- A string longer than its prefix can say comes back cut, exactly to its length modulo the prefix
  (`TypedStream.DecodeEncode`).
- An event reported by epoll but cancelled before idle takes the descriptor's lock fails the assertion at
  `eventpoller.cpp:88` (`PollerLaws.ReadyLaw`, `PollerRuns.StaleReportAborts`).
- An empty timer set is reported as 0 while the poller waits for `~0ull`, so a poller without timers never stops; and
  a front timer that is already due is overslept by up to 3000 ms (`PollerSleep.StopsIff`, `PollerSleep.WaitCoversIff`).
- `Timer::reset` loses the timer unless it leaves early, and `Timer::refresh` never refreshes: it answers false, except
  for a live timer outside the set, one that `reset` lost, where it erases the end iterator (`TimerManager.Reset`,
  `TimerManager.Refresh`, `ResetLoses`).
- The time limit of a hooked call can be missed: the call waits for its event with its flag set, and only a report or
  another cancellation wakes it. That can happen if and only if, when the deadline check cancels the event, the call
  has not registered yet, or its slot still holds its fiber and epoll_ctl refuses (`RuntimeLimits.LimitNoticedIff`;
  one run for each half in `RuntimeExamples`).
- `delEvent` on a parked fiber's event loses the fiber, exactly then (`RuntimeRuns.DelEventKeepsLinearIff`).
- `%%` in a log pattern is no escape for a percent sign, and `LogFormatter::reset` appends to the old items
  (`LogPattern.DoubledStartsDirective`, `LogPattern.LogFormatter.Reset`).

## Model

| member | source | states |
|---|---|---|
| RuntimeRuns.WakeUpsAreLinear | src/fiber/scheduler.cpp:207-275 | in every reachable state of any number of threads a fiber has at most one wake token (queue entry, event slot, sleep timer, queued or picked sleep closure); a parked one has exactly one unless a thread has just picked it; an ended or running one none |
| RuntimeRuns.NoFiberTwice | src/fiber/scheduler.cpp:217-238 | no fiber is in the hands of two threads, and a picked one cannot be picked again |
| RuntimeTasks.TasksAreConserved | src/fiber/scheduler.cpp:222-291 | for every task, what the operations of a run ask for - told from the operations alone - is found again in an event slot, in idle's hands, queued, held or finished, as often as it was asked for; the active counter is the number of threads holding a task; the clock is the time the operations let pass |
| RuntimeTasks.PinnedCallbacks | src/fiber/scheduler.h:70-105 | a callback scheduled for a certain thread is queued, held and finished together exactly as often as it was scheduled |
| RuntimeTasks.StepAsks | src/fiber/scheduler.h:70-105 | each step adds exactly what it asks for to what is known, and loses nothing |
| RuntimeRuns.PinsAndOrder | src/fiber/scheduler.cpp:208-228 | a pinned task is only held by its thread; a pick takes the earliest entry this thread may take, and nothing only if there is none |
| RuntimeRuns.AssertionsFailOnlyOnMisuse | src/eventpoller/eventpoller.cpp:87-88 | in every reachable state a step fails an assertion if and only if it registers a registered event or handles a stale report; the fiber, scheduler and slot assertions never fail |
| RuntimeRuns.LoopHead | src/fiber/scheduler.cpp:199-206 | at every loop head the reusable callback fiber is null or INIT and the idle fiber is not EXEC; an executing fiber is held by exactly its owner |
| RuntimeRuns.TimeoutsAreSound | src/util/hook.cpp:117-143 | a call reports ETIMEDOUT only if a timer of that very call was handed out and its limit has passed since entry |
| RuntimeTimes.LimitsRunFromTheWait | src/util/hook.cpp:117-143 | in every run a call's handle is on the last timer its waits made, due exactly one limit after that wait began; a timer handed out, a flag or ETIMEDOUT means that one of its own waits began at least one limit ago |
| RuntimeTimes.TimersAreAsMade | src/timer/timer.cpp:26-30 | in every run the set holds the timers the operations made, with the deadlines they were made with or, recurring, later ones; none is missing but a one-shot whose time has come or a check its call has dropped |
| RuntimeTimes.SleepsRunTheirTime | src/util/hook.cpp:152-190 | in every run the wake-up of a sleeper is queued or in hand only after its last sleep has run its full time; before that it is in the set, due at the end of that sleep |
| RuntimeCalls.CallsAreAsBegun | src/util/hook.cpp:106-116 | in every run there are exactly the calls that fibers began, each with its descriptor, event, limit and time of entry |
| RuntimeCalls.EventsEndWaits | src/eventpoller/eventpoller.cpp:205-366 | in every reachable state an accepted report, cancelEvent or cancelAll clears exactly the events it is about, a hangup all registered ones; their work is queued, READ first; a fiber that waited for one is in no slot and queued; nothing else changes |
| RuntimeProgress.NoThreadIsStuck | src/fiber/scheduler.cpp:202-296 | in every reachable state a thread that has not left its loop can go on from where it stands |
| RuntimeProgress.ThreadsStay | src/fiber/scheduler.cpp:277-281 | a thread that has left its loop holds nothing, and its idle fiber has ended |
| RuntimeRuns.WakingUp | src/util/hook.cpp:137-145 | on waking the call times out iff its own flag is set; otherwise do_io goes back to the system call and connect ends; its timer is out of the set |
| RuntimeRuns.DelEventKeepsLinearIff | src/eventpoller/eventpoller.cpp:171-203 | deleting an event keeps the wake-ups linear exactly when its slot holds no fiber |
| RuntimeRuns.StepKeeps | src/fiber/scheduler.cpp:190-298 | every step from a good state is good again, or fails exactly on a misuse |
| RuntimeRuns.StepConserves | src/fiber/scheduler.cpp:222-291 | every step keeps the task balance for every weight and the active count |
| RuntimeSteps.PickShape | src/fiber/scheduler.cpp:207-230 | a pick keeps ownership, pins and the state machine |
| RuntimeSteps.PickLinear | src/fiber/scheduler.cpp:207-230 | a pick takes exactly the picked entry's tokens out of the queue, and afterwards every fiber has as many as it needs |
| RuntimeSteps.EnterShape | src/fiber/scheduler.cpp:236-289 | switching in never meets an executing fiber nor resets a live one |
| RuntimeSteps.YieldShape | src/fiber/scheduler.cpp:238-274 | a yield up to the bookkeeping behind it leaves just that fiber on hold and unowned, and the thread with empty hands and without it as callback fiber |
| RuntimeSteps.FinishShape | src/fiber/fiber.cpp:218-240 | a fiber that ends or throws leaves no callback fiber in a wrong state |
| RuntimeIo.CancelMoves | src/eventpoller/eventpoller.cpp:205-237 | cancelling moves the slot's token to the queue and nothing else |
| RuntimeIo.ReadyMoves | src/eventpoller/eventpoller.cpp:331-366 | handling a report moves the hit slots' tokens to the queue and nothing else |
| RuntimeIo.TimeoutKeeps | src/util/hook.cpp:118-123 | the first half of a deadline check sets the flag of its own call if that is live and unflagged, and then has the cancellation still to do; otherwise it changes nothing and is over |
| RuntimeIo.RevokeKeeps | src/util/hook.cpp:124 | the cancellation behind the flag never fails, keeps the invariant, and touches no fiber and no call |
| RuntimeTimers.IoRegisterKeeps | src/util/hook.cpp:128-137 | fails exactly on a registered event; success arms just the calling fiber and puts it into the slot of its event; a refusal ends the call and takes just its own timer back |
| RuntimeTimers.SleepKeeps | src/util/hook.cpp:152-190 | a sleep arms the fiber and leaves exactly one token, in a timer |
| RuntimeTimers.IoResumeKeeps | src/util/hook.cpp:137-145 | resuming takes the call's own timer out of the set and no other |
| RuntimeTimers.ExpireKeeps | src/eventpoller/eventpoller.cpp:316-317 | expiry puts the callbacks of exactly the due timers into idle's hands, in order, and records which calls' timers were handed out; no fiber gains or loses a token |
| RuntimeTimers.ScheduleKeeps | src/eventpoller/eventpoller.cpp:318-321 | scheduling what idle holds appends a task for each callback, in order, and empties its hands |
| RuntimeWaits.WaitKeeps | src/util/hook.cpp:106-147 | every step keeps: a live call belongs to the fiber that makes it, a slot holds a fiber only for the event its call waits for, and a limit is pursued until its flag is set |
| RuntimeLimits.LimitsArePursued | src/util/hook.cpp:117-137 | in every reachable state a waiting call with a limit has its own timer in the set, or its check queued or in hand, or its flag set; a fiber in a slot waits there in a live call of its own |
| RuntimeLimits.LimitWakesIff | src/util/hook.cpp:123-137 | in every reachable state the cancellation of a deadline check leaves its call out of every slot and queued, picked or running, if and only if the call has registered and, where its slot still holds the fiber, epoll_ctl does not refuse |
| RuntimeLimits.LimitNoticedIff | src/util/hook.cpp:117-145 | over all that can follow: the call can be found waiting with its flag set if and only if that condition fails |
| RuntimeExamples.TooEarly | src/util/hook.cpp:117-141 | a run from the start in which the check cancels before the call registers, and the call then waits with its flag set |
| RuntimeExamples.Refused | src/eventpoller/eventpoller.cpp:226-231 | a run from the start in which epoll_ctl refuses the cancellation and the parked call waits on with its flag set |
| HookedIo.HookedCall.DoIo | src/util/hook.cpp:106-149 | over any answers of the system call and any rounds of other threads the call takes exactly the course of CourseFrom: how it ends, after how many system calls, when; and no timer of the call is left when it ends |
| HookedCourse.LimitDecides | src/util/hook.cpp:117-145 | a wait with a limit goes on through all its rounds exactly if no accepted report is about its event and the cancellation at its deadline, if that is reached, is refused; if it ends, it times out exactly if its deadline has come |
| HookedCourse.LimitedCallEnds | src/util/hook.cpp:106-147 | a call whose limit ends each of its waits is still waiting only where the answers stop |
| HookedIo.HookedCall.WaitOnce | src/util/hook.cpp:112-146 | one wait comes to exactly what WaitFrom says: aborted, refused, still waiting, timed out, or back to the system call; the clock and what is registered included |
| HookedIo.HookedCall.Park | src/util/hook.cpp:137 | the wait comes to exactly what Parked says over the rounds; the flag is set only by this call's own timer, and not before it is due |
| HookedIo.HookedCall.Check | src/util/hook.cpp:118-125 | a check that comes up sets the flag, and takes the event off the descriptor unless the flag was set or epoll_ctl refuses |
| HookedIo.HookedCall.Disarm | src/util/hook.cpp:138-140 | cancelling leaves no live timer of the call |
| HookedIo.HookedCall.Expire | src/eventpoller/eventpoller.cpp:316-321 | the call's check comes up exactly if it is live and due, and is live afterwards exactly if it was and is not due |
| Runtime.FirstEligible | src/fiber/scheduler.cpp:208-228 | the pick loop's result: every earlier entry is not eligible, this one is |
| Scheduling.Scheduler.ScheduleNonLock | src/fiber/scheduler.h:97-105 | appends a non-empty task, drops an empty one, reports whether the queue was empty |
| Scheduling.Scheduler.ScheduleRange | src/fiber/scheduler.h:81-94 | the range loop appends all non-empty items unpinned and in order and leaves the caller's container empty |
| Scheduling.CarryingAt | src/fiber/scheduler.h:81-94 | every item that carries something is scheduled, unpinned, right behind those before it that do, and nothing else is |
| Scheduling.Scheduler.Pick | src/fiber/scheduler.cpp:207-230 | the pick loop removes exactly the first eligible entry and tells others iff it passed a task pinned elsewhere or found none |
| Scheduling.Fiber.Reset | src/fiber/fiber.cpp:99-116 | only from INIT, TERM or EXCEPT; makes the fiber INIT with the new callback |
| Scheduling.Fiber.SwapIn | src/fiber/fiber.cpp:154-164 | only when not executing; makes it EXEC |
| Scheduling.Fiber.YieldToHold | src/fiber/fiber.cpp:193-198 | only when executing; makes it HOLD |
| Scheduling.Fiber.End | src/fiber/fiber.cpp:218-238 | TERM without callback, or EXCEPT with it |
| Scheduling.Runner.PickTask | src/fiber/scheduler.cpp:203-230 | the task in hand is eligible and the loop-head invariant holds |
| Scheduling.Runner.SwitchIn | src/fiber/scheduler.cpp:236-288 | which of the five branches is taken, what each does to the counters, and that every switch and reset meets its assertion |
| Scheduling.Runner.SwitchBack | src/fiber/scheduler.cpp:239-295 | whatever the fiber did, the loop-head invariant is restored, the counters go down, a READY fiber is queued again with its pin |
| Scheduling.Runner.RunOnce | src/fiber/scheduler.cpp:202-296 | one turn restores counters and invariant for every outcome and leaves the loop exactly when idle has ended and nothing is eligible |
| Scheduling.Runner.Run | src/fiber/scheduler.cpp:190-298 | the same over the whole loop and every sequence of outcomes |
| RunnerSteps.Pick | src/fiber/scheduler.cpp:203-230 | from any state that satisfies the invariant of all runs, the code of the pick, with the switch to idle or the end of the loop if there is nothing, computes Runtime's step Pick |
| RunnerSteps.Enter | src/fiber/scheduler.cpp:236-288 | the same for the switch into the task's or the callback fiber; its assertions follow from the invariant |
| RunnerSteps.Yield | src/fiber/scheduler.cpp:239-274 | the same for a yield and the bookkeeping behind the switch |
| RunnerSteps.Finish | src/fiber/scheduler.cpp:239-275 | the same for a fiber that returns or throws, the reuse of the callback fiber included |
| PollerRuns.EveryRun | src/eventpoller/eventpoller.cpp:119-367 | after any run: kernel masks equal the contexts, slots match bits, the pending count is the number of bits, and every piece of work was registered as often as it is pending, delivered and removed together |
| PollerRuns.DeliveredAtMostOnce | src/eventpoller/eventpoller.cpp:87-99 | work registered once is delivered at most once and is in exactly one place |
| PollerRuns.StepKeeps | src/eventpoller/eventpoller.cpp:119-367 | an operation fails an assertion iff it is a misuse, and otherwise keeps invariant and balance, whatever epoll_ctl answers |
| PollerRuns.StaleReportAborts | src/eventpoller/eventpoller.cpp:344-360 | a concrete run that fails the assertion of triggerEvent |
| PollerLaws.AddEventLaw | src/eventpoller/eventpoller.cpp:119-169 | keeps the invariant, registers exactly the given work on success, changes nothing pending on failure; aborts only for a registered event |
| PollerLaws.DelEventLaw | src/eventpoller/eventpoller.cpp:171-203 | removes exactly the slot's work or changes nothing |
| PollerLaws.CancelEventLaw | src/eventpoller/eventpoller.cpp:205-237 | delivers exactly the slot's work or changes nothing |
| PollerLaws.CancelAllLaw | src/eventpoller/eventpoller.cpp:239-278 | delivers the work of every set bit; the assertion behind it never fails |
| PollerLaws.ReadyLaw | src/eventpoller/eventpoller.cpp:331-366 | aborts exactly on a stale report that epoll_ctl accepts; otherwise delivers precisely the reported work |
| PollerLaws.ReportDelivers | src/eventpoller/eventpoller.cpp:331-366 | a report neither refused nor stale clears exactly the registered events it names, with EPOLLERR or EPOLLHUP all registered ones, and queues just their work, READ before WRITE; a refused one changes nothing |
| PollerLaws.CancelDelivers | src/eventpoller/eventpoller.cpp:205-278 | cancelEvent clears just that event, cancelAll every registered one, and their work is queued, READ before WRITE |
| PollerLaws.ReadyAllLaw | src/eventpoller/eventpoller.cpp:323-367 | a whole pass over the reports keeps the invariant and only moves work from slots to the queue; it aborts only at a report that epoll_ctl accepts and that is stale in the state reached by then |
| PollerLaws.ReplaceCtx | src/eventpoller/eventpoller.cpp:140-145 | the chosen epoll_ctl operation is legal and keeps the kernel's table equal to the contexts |
| PollerLaws.CloseKeepsInvIff | src/util/hook.cpp:327-340 | closing a descriptor keeps the mirror exactly when nothing is registered on it any more |
| EventPolling.FdContext.TriggerEvent | src/eventpoller/eventpoller.cpp:87-99 | clears the bit, queues the very callback or fiber of the slot, empties the slot; aborts iff the bit is not set |
| EventPolling.FdContext.Fill | src/eventpoller/eventpoller.cpp:155-167 | sets the bit and fills the slot; aborts iff it was in use |
| EventPolling.EventPoller.ContextResize | src/eventpoller/eventpoller.cpp:72-85 | grows the vector with empty contexts numbered by descriptor, keeps the old ones |
| EventPolling.EventPoller.AddEvent | src/eventpoller/eventpoller.cpp:119-169 | computes Poller.AddEvent on the whole poller state |
| EventPolling.EventPoller.DelEvent | src/eventpoller/eventpoller.cpp:171-203 | computes Poller.DelEvent |
| EventPolling.EventPoller.CancelEvent | src/eventpoller/eventpoller.cpp:205-237 | computes Poller.CancelEvent and queues its task |
| EventPolling.EventPoller.CancelAll | src/eventpoller/eventpoller.cpp:239-278 | computes Poller.CancelAll and queues its tasks |
| EventPolling.EventPoller.HandleReport | src/eventpoller/eventpoller.cpp:331-366 | computes Poller.Ready and queues its tasks |
| EventPolling.EventPoller.HandleReports | src/eventpoller/eventpoller.cpp:323-367 | the loop computes Poller.ReadyAll |
| PollerSleep.NoLostWakeup | src/eventpoller/eventpoller.cpp:293-329 | while the poller is blocked and no timer was due when it asked, a tickle is in the pipe, or owed by a thread between its insertion and its tickle, or the wait covers every deadline in the set |
| PollerSleep.TickleIsOwed | src/timer/timer.cpp:98-105 | a run in which only the tickle still owed keeps the wake-up from being lost |
| PollerSleep.WaitCoversIff | src/eventpoller/eventpoller.cpp:298-307 | the wait ends no later than every deadline exactly when the front one is not due yet |
| PollerSleep.AskIs | src/eventpoller/eventpoller.cpp:298-308 | the wait is the time until the front deadline, at most 3000 ms, and 3000 ms if there is no timer or the front one is due |
| PollerSleep.StopsIff | src/eventpoller/eventpoller.cpp:59-65 | the timer part of stopping holds only for a set whose first deadline is exactly 2^64 - 1 ms away, never for an empty set |
| PollerSleep.StepKeeps | src/timer/timer.cpp:95-107 | inserting, tickling after the insertion, cancelling, asking, blocking and returning, in any order, keep the covering invariant |
| PollerSleep.DueTimerIsOverslept | src/eventpoller/eventpoller.cpp:298-307 | a concrete run that oversleeps a due timer by MAX_TIMEOUT |
| Timers.ComparatorOrders | src/timer/timer.cpp:8-24 | a strict weak order, null last, whose ties are the same pointer with one deadline |
| Timers.CutIsExact | src/timer/timer.cpp:157-163 | wherever lower_bound lands among equal deadlines, the cut takes exactly the due timers |
| Timers.ExpireSplits | src/timer/timer.cpp:147-175 | handed out are exactly the due timers in set order; what remains was due later, or is a recurring due one with its deadline at now plus its period and all else as it was; the order is kept |
| Timers.InsertKeeps | src/timer/timer.cpp:100 | inserting keeps order and adds just that timer |
| Timers.EraseKeeps | src/timer/timer.cpp:41-44 | erasing under the key of insertion removes just that timer |
| Timers.FindFinds | src/timer/timer.cpp:41 | find locates a timer under the key it was inserted with |
| Timers.LowerBound | src/timer/timer.cpp:158 | all before it are less than the key, it is not |
| Timers.RearmKeeps | src/timer/timer.cpp:165-174 | the set stays ordered while keys change, because they change only outside it |
| TimerManagement.TimerManager.AddTimer | src/timer/timer.cpp:95-107 | inserts the new timer; tickles iff it is first |
| TimerManagement.TimerManager.Cancel | src/timer/timer.cpp:37-48 | succeeds iff the callback was still there, then the timer is out of the set; set and callbacks stay in step |
| TimerManagement.TimerManager.ListExpiredCb | src/timer/timer.cpp:147-175 | the new set is Timers.Expire; the callbacks are the due timers', in order; a recurring one is due one period from now, a one-shot is retired, others are untouched |
| TimerManagement.TimerManager.GetNextTimer | src/timer/timer.cpp:131-145 | a positive answer is the exact wait until the earliest deadline; 0 means due or empty |
| TimerManagement.TimerManager.Refresh | src/timer/timer.cpp:50-68 | false for a dead timer and for one in the set; erases the end iterator exactly for a live one outside the set; changes nothing |
| TimerManagement.TimerManager.Reset | src/timer/timer.cpp:70-93 | true without change for the same period, false without change for a dead or lost timer; otherwise takes the timer out of the set for good; set and callbacks stay in step exactly when it leaves early |
| TimerManagement.ResetLoses | src/timer/timer.cpp:50-93 | after one reset a second one fails, and refresh erases the end iterator |
| TimerRuns.EveryRun | src/timer/timer.cpp:26-48 | in any run: in the set iff the callback is there; cancel succeeds at most once and nothing is handed out afterwards; a one-shot at most once; the k-th hand-out no earlier than k periods after creation; a timer in the set is due exactly one period after its creation or last hand-out |
| TimerRuns.ListHandsOutDue | src/timer/timer.cpp:147-175 | in any run, listing hands out each live timer that is due once, and no other |
| TimerRuns.TimersAreAsAdded | src/timer/timer.cpp:26-30 | in any run there are exactly the timers that were added, with the period, callback and kind they were added with, from the time they were added |
| TimerRuns.CancelTakesOut | src/timer/timer.cpp:37-48 | in any run a cancel takes the timer out of the set, and succeeds exactly if it was there |
| TimerRuns.ExpiryKeeps | src/timer/timer.cpp:165-174 | the expiry loop keeps the histories of all timers |
| ByteBuffer.ByteArray.constructor | src/socket/bytearray.cpp:29-37 | a valid empty buffer of one node, big-endian |
| ByteBuffer.ByteArray.Clear | src/socket/bytearray.cpp:308-319 | one node left with its bytes, cursor at its start |
| ByteBuffer.ByteArray.AddCapacity | src/socket/bytearray.cpp:475-505 | the capacity grows by whole nodes, old bytes stay, and where the cached node ends up |
| ByteBuffer.ByteArray.GrownLeast | src/socket/bytearray.cpp:475-505 | nothing is added while there is room; otherwise as few whole nodes as make room |
| ByteBuffer.ByteArray.Write | src/socket/bytearray.cpp:321-357 | the bytes land at Target(), all others stay, position and size advance; the cached node agrees with the position exactly when the write was safe, and a safe write never faults |
| ByteBuffer.ByteArray.WriteLoop | src/socket/bytearray.cpp:328-352 | the node-splitting loop splices the data at one flat position, or walks off the list exactly when it does not fit |
| ByteBuffer.ByteArray.Read | src/socket/bytearray.cpp:359-388 | returns exactly the next bytes and advances; refuses more than is left; the null-node case exactly |
| ByteBuffer.ByteArray.ReadAt | src/socket/bytearray.cpp:390-420 | each outcome exactly; the flat bytes it returns although it starts at the cached node, which are those at `st` exactly when `st` is in that node |
| ByteBuffer.ByteArray.ToString | src/socket/bytearray.cpp:507-515 | exactly the bytes between position and size |
| ByteBuffer.ByteArray.SetPosition | src/socket/bytearray.cpp:422-435 | refuses, faults or succeeds exactly when; on success position, size and cached node agree |
| ByteBuffer.ByteArray.GetReadBuffers | src/socket/bytearray.cpp:532-561 | the regions map the next min(len, readable) flat bytes in order, each but the last up to its node's end |
| ByteBuffer.ByteArray.GetReadBuffersAt | src/socket/bytearray.cpp:563-598 | the same from any position, found by walking from the root; the null-node case exactly |
| ByteBuffer.ByteArray.GetWriteBuffers | src/socket/bytearray.cpp:600-627 | regions covering exactly the next len bytes after making room, where a write would go |
| ByteBuffer.ByteArray.CoversGather | src/socket/bytearray.cpp:545-559 | what covering regions hold, one after the other, is the flat bytes they cover |
| ByteBuffer.ByteArray.CoversUnique | src/socket/bytearray.cpp:545-596 | full regions covering the same stretch are the same list, so the cursor-based and the root-walking form agree |
| ByteBuffer.ByteArray.CoversDisjoint | src/socket/bytearray.cpp:611-625 | covering regions do not overlap in memory |
| ByteBuffer.ByteArray.Receive | samples/EchoServer/main.cpp:23-27 | filling covering regions in order writes the received bytes at the flat position |
| ByteBuffer.ByteArray.ReceiveAndShow | samples/EchoServer/main.cpp:25-38 | receiving, seeking forward and back, and toString give exactly the received bytes, unless they fill the buffer to the brim |
| ByteBuffer.ByteArray.EchoRound | samples/EchoServer/main.cpp:22-40 | one round of the echo server returns what was received |
| ByteBuffer.ByteArray.EndIsAligned | src/socket/bytearray.cpp:501-504 | after a write the cached node is the position's node exactly when the write started at the position |
| ByteBuffer.ByteArray.CursorInRange | src/socket/bytearray.cpp:328 | a position within the capacity is in an existing node at its remainder; the capacity is the end of the list |
| Chunks.FlattenUpdate | src/socket/bytearray.cpp:334 | copying into one node splices into the flat sequence |
| Chunks.FlattenSlice | src/socket/bytearray.cpp:370 | a stretch of one node is a stretch of the flat sequence |
| ByteOrder.SwapReverses | src/socket/endian.h:15-37 | byteswap reverses the bytes in memory |
| ByteOrder.SwapTwice | src/socket/endian.h:15-37 | byteswap undoes itself at every width |
| ByteOrder.WireAt | src/socket/bytearray.cpp:80-119 | the bytes by their places: lowest first in little-endian order, highest first in big-endian order |
| ByteOrder.WireIsHostFree | src/socket/bytearray.cpp:80-119 | what is written depends on the buffer's byte order only, not on the host's |
| ByteOrder.ReadIsHostFree | src/socket/bytearray.cpp:195-224 | reading undoes it on every host |
| ByteOrder.SignRoundTrip | src/socket/bytearray.cpp:80-85 | the casts to unsigned and back keep exactly the values in range |
| ByteOrder.LowFits | src/socket/bytearray.cpp:159-172 | a cast to a narrower type keeps exactly the numbers that fit |
| TypedStream.DecodeEncode | src/socket/bytearray.cpp:159-172 | an item is read back, with exactly its bytes, iff a string's length fits its prefix - whatever follows |
| TypedStream.DecodeString | src/socket/bytearray.cpp:276-298 | a string comes back cut to its truncated length |
| TypedStream.DecodeAllEncodeAll | src/socket/bytearray.cpp:72-119 | a list of items is read back whole |
| TypedStream.WriteFixed | src/socket/bytearray.cpp:72-119 | puts the number's bytes in the buffer's order at the position |
| TypedStream.WriteText | src/socket/bytearray.cpp:159-172 | puts the truncated length and all the bytes there |
| TypedStream.ReadFixed | src/socket/bytearray.cpp:183-224 | the number the next bytes stand for, or out_of_range |
| TypedStream.ReadText | src/socket/bytearray.cpp:276-298 | the string the next bytes stand for, out_of_range, or the null node for an empty one at the end |
| TypedStream.RoundTrip | src/socket/bytearray.cpp:72-298 | writing any list of items, seeking back and reading the same types gives the list and the end position for every node size, order and host; the two null-node cases exactly |
| Varints.ZigzagMeaning | src/socket/bytearray.cpp:48-62 | the wrapped expression is 2v or -2v - 1 for every value, the minimum included |
| Varints.UnzigzagMeaning | src/socket/bytearray.cpp:64-70 | shift and exclusive-or undo that |
| Varints.ZigzagRoundTrip | src/socket/bytearray.cpp:48-70 | decoding inverts encoding on all signed values of w bits |
| Varints.UnzigzagRoundTrip | src/socket/bytearray.cpp:48-70 | encoding inverts decoding on all unsigned values of w bits |
| Varints.EncodeBounds | src/socket/bytearray.cpp:125 | the encoding of 32 bits takes at most 5 bytes, of 64 at most 10 |
| Varints.EncodeAt | src/socket/bytearray.cpp:124-145 | byte k of the full encoding holds bits 7k to 7k + 6, and its top bit says that another byte follows |
| Varints.VarintRoundTrip | src/socket/bytearray.cpp:229-260 | the reader inverts the full encoding and takes exactly its bytes, whatever follows |
| Varints.PrefixFree | src/socket/bytearray.cpp:229-260 | no encoding is a prefix of another |
| Varints.DecodeMeaning | src/socket/bytearray.cpp:229-260 | of any bytes the reader takes those up to the first without the top bit, or until it has its bits, and returns what they spell, cut to the word; it runs out exactly if neither comes |
| Varints.SignedRoundTrip | src/socket/bytearray.cpp:226-228 | composed with zigzag, every signed value comes back |
| Varints.WriterDropsLast | src/socket/bytearray.cpp:124-145 | the writers emit the encoding without its last byte |
| Varints.AsWrittenNeverDecodes | src/socket/bytearray.cpp:124-145 | those bytes alone never decode |
| Varints.OrGroup | src/socket/bytearray.cpp:231-240 | or-ing the next group in adds it, truncated to the word |
| Varints.NarrowedExact | src/socket/bytearray.cpp:247-260 | an int32_t result is right exactly below 2^31 |
| Varints.WidenedExact | src/socket/bytearray.cpp:300-304 | widened again it is right exactly below 2^31 and for the last 2^31 numbers |
| Varints.ReadInt64Exact | src/socket/bytearray.cpp:244-246 | readInt64 on a complete encoding is right exactly from -2^30 to 2^30 - 1 |
| VarintStream.Groups | src/socket/bytearray.cpp:124-145 | the writers' loop stays inside its 5 or 10 bytes and produces AsWritten |
| VarintStream.WriteInt | src/socket/bytearray.cpp:121-136 | both signed writers end in the 32-bit writer, which cuts 64 bits to 32 |
| VarintStream.ReadUint | src/socket/bytearray.cpp:229-260 | the readers' loop computes DecodeVarint of what is left and advances over exactly those bytes |
| VarintStream.ReadIntResult | src/socket/bytearray.cpp:226-246 | what the signed readers return for the number in the stream, and that they advance over exactly its bytes |
| VarintStream.ReadEncoded | src/socket/bytearray.cpp:229-260 | in the buffer too, a complete encoding is read back and the rest stays |
| VarintStream.ReadStringVint | src/socket/bytearray.cpp:300-306 | which bytes it returns, given that the length passes through int32_t |
| VarintStream.WriteThenRead | src/socket/bytearray.cpp:121-145 | nothing the unsigned writers put at the end of a buffer can be read back |
| LogPattern.ScanPrint | src/log/logger.cpp:242-313 | scanning a printed list in normal form gives the list back without error |
| LogPattern.PrintScan | src/log/logger.cpp:242-313 | scanning loses nothing: without unclosed braces, printing gives the pattern back exactly when no directive in it has empty braces |
| LogPattern.DoubledStartsDirective | src/log/logger.cpp:250-255 | after `%%` the second sign starts a directive |
| LogPattern.OneLetter | src/log/logger.cpp:318-345 | the twelve known letters become their fields, with or without a brace format; any other letter becomes the error text and sets the flag |
| LogPattern.NameStops | src/log/logger.cpp:262-266 | a name ends at the first character that is neither a letter nor a brace |
| LogPattern.UnclosedBrace | src/log/logger.cpp:303-312 | a brace never closed: the error text comes before the pending literal text, and the directive's characters follow as literal text without the percent sign |
| LogPattern.LogFormatter.ScanDirective | src/log/logger.cpp:257-294 | the inner loop finds the name and brace format that First defines, and strictly advances |
| LogPattern.LogFormatter.ScanPattern | src/log/logger.cpp:244-313 | the outer loop computes Scan and whether it failed |
| LogPattern.LogFormatter.Init | src/log/logger.cpp:238-345 | the items are the entries looked up by name; the error flag says unclosed brace or unknown name |
| LogPattern.LogFormatter.Reset | src/log/logger.cpp:216-220 | the new items come behind the old ones |
| Ipv6.Print | src/socket/address.cpp:370-394 | the loop writes Printed of the eight groups and the port, on either host |
| Ipv6.BodyShape | src/socket/address.cpp:374-390 | the output is the groups before the first run of zeros, `::` for that run, and the groups behind it |
| Ipv6.ExpandBody | src/socket/address.cpp:374-390 | at most one `::`, and expanding it gives all eight groups back |
| Ipv6.PrintIsLossless | src/socket/address.cpp:370-394 | reading the printed text gives groups and port back, the all-zero, leading and trailing runs included |
| Ipv6.PrintIsInjective | src/socket/address.cpp:370-394 | different addresses or ports print differently, whichever hosts print them |
| Ipv6.DigitsPlain | src/socket/address.cpp:384-393 | groups and port are written without padding, groups in at most four lower-case hexadecimal digits |
| Ipv6.Printout | src/socket/address.cpp:370-394 | the text of an address with a run of zeros inside, brackets and port included |
| Ipv6.NetworkShortIs | src/socket/address.cpp:372-385 | host-order read plus swap is the big-endian number, and zero exactly when the raw bits are |

## Left out

What the steps and classes do not capture:

- Threads, memory ordering and locks: each critical section is one atomic step. `schedule` and `run` take different
  locks (`scheduler.h:73`, `scheduler.cpp:207`) and are assumed to exclude each other on the queue; the thread
  counters, changed without a lock, and `addTimer`, which inserts under a shared lock, are assumed atomic.
- The second acquisition of the poller's lock in `addEvent` by `contextResize`, and the shared locks released twice.
- What Runtime does in one step although the source lets go of a lock in between: from a fiber's yield or end to the
  end of the bookkeeping in `run`, although the fiber shows HOLD before it has switched out; a pick that finds nothing and the switch to idle; locking the weak pointer and
  setting the flag in a deadline check; a refused addEvent and the cancelling of the timer; back from the yield,
  cancelling the timer and looking at the flag; triggering an event and scheduling its work, which nest their locks;
  inserting a timer and the tickle behind it, which PollerSleep takes apart.
- ucontext switching, system calls and epoll itself: their answers are arbitrary parameters; an `epoll_ctl` may fail
  without effect.
- Scheduling an existing fiber from user code: in Runtime only the poller and the sleep timers do, as that is what the
  count of wake-ups is about.
- Scheduling.Runner.RunOnce: a turn of a thread that has the scheduler to itself; the same code among other threads is
  RunnerSteps and Runtime.
- Scheduling.Runner.Run: the loop of a thread that has the scheduler to itself; the same code among other threads is
  RunnerSteps and Runtime.
- HookedIo.HookedCall.DoIo: the other threads act only in rounds about this call's timer and descriptor, and the poller
  is one that its own operations have led to (its invariant is part of Valid).
- In HookedIo the other threads appear as rounds (time passes, idle hands out timers, the call's check is executed,
  epoll reports on its descriptor); full interleaving is in Runtime, where connect_with_timeout and the sleeps are
  steps too and a retry after EINTR is no separate step. The tests in front of the loop (hook enabled, socket, user's
  own non-blocking mode) only bypass it.
- yieldToReady, call, back, stop and join; fiber destructors and their assertions; a second scheduler in the process.
- The use of the erased iterator at `scheduler.cpp:229`: a pick that succeeds is taken to stop before the end.
- Timers that user code cancels inside the whole-system runs; cancelling is covered by TimerRuns.
- Wrap-around of 64-bit deadlines and of `size_t` sums, and running out of memory; the buffer's node count is
  computed by rounding up in integers instead of through a double.
- Freeing of nodes: memory that left the list is simply no longer used. A node size of zero is not modelled.
- std::set is a sorted sequence with lower_bound, find, insert and erase; std::list and std::vector are sequences.
- The shared body of the two read functions and of the three buffer functions is one method each.
- Floating-point readers and writers, file input and output, and hex dumps of the buffer.
- The formatting done by log items, and appenders; for IPv6 only print, for hook.cpp only the parking calls and close.
- Socket, TcpServer, address lookup, Config, Env, Daemon, FSUtil, FdManager, LoadCounter and ConcurrentVector: plumbing
  or bound to libraries, without invariants of the kind proved here.
