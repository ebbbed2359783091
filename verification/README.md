# Verified model of a distributed producer and consumer

The system hands numbered work units from a producer to consumers over framed messages. A PWD plugin
enumerates passwords, a BENCH plugin cuts a file into chunks, and consumers run a pool of worker threads. This
project models the parts of it that carry state or arithmetic, and proves what they promise.

`dafny verify dfyconfig.toml` checks everything. Each file is one module.

| modules | what they model |
|---|---|
| Odometer, Characters, Generator, NextUnit, PwdText, PwdPlugin | the password generator: ten digits carried over up to four character ranges, as bijective base-k numbers; the object that advances them in place; its two text forms; the plugin's numbering, checkpoint and resume |
| BoundedQueue, ThreadPool, CompletedIds | the consumer: the bounded queue as a monitor, the worker pool as a machine of atomic steps, the cache of completed ids |
| WorkTracker, Producer, Protocol, Receiver, PoolProtocol, Sessions | the producer's table and handlers, the consumer's receiver, the whole exchange over a network that loses, delays and repeats messages, the thread pool inside it, and producer sessions resumed one after the other |
| Sha256Constants, Sha256, Padding, Hash, KnownAnswer, Base64, Bytes, Framing, Bench | byte level: SHA-256, base64, length-prefixed frames, the BENCH chunks and their check |
| Checkpoint | the two checkpoint files, with a crash after any single write |
| Decimal, Arithmetic, Sequences, Wrappers | decimal text of integers, comma-separated lists, small facts used throughout, optional values |

Objects that the source updates in place are classes here, and their methods are proved against functions of the
abstract value; the theorems are about those functions. The thread pool and the protocol are step relations: one
step is one region under a lock or one update of an atomic counter, and any step may come next. The 32-bit
sequence counter of the PWD plugin, the 32-bit frame size, the 64-bit bit length of SHA-256 and the 32-bit reading
of JSON numbers in the BENCH handler are modelled with their wrap-around.

Where the code and what is said about it differ, the model follows the code:

- SHA-256 takes 56 used bytes after 0x80 as too many, so a message of length 55 modulo 64 gets one block more than
  section 4.1 of RFC 6234 prescribes (`Padding.PaddingConformsIff`, `Padding.ExtraBlock`, `Hash.HashAt55`).
- README.md and docs/USER_GUIDE.md say that reclaimed work is re-dispatched. Reclaimed units become pending, but
  nothing dispatches pending units: no unit is ever sent twice (`Protocol.NeverSentAgain`).
- The carry loop of the generator does not end on every state: it ends exactly under the condition of
  `NextUnit.LoopEndsIff`. All states reached from a fresh object meet it, and so do its checkpoints resumed with the
  same ranges. A checkpoint resumed after the ranges were edited is safe wherever the run stood if and only if the
  new ranges include the old ones, or there are none (`PwdPlugin.ResumeReturnsIff`); lower case only, one unit, and
  then upper case only makes next_unit hang (`PwdPlugin.EditedRangesHang`).
- The two checkpoint files survive one crash at any moment, but a second one, in the first save after it, can lose
  both (`Checkpoint.CrashSafeIff`, `Checkpoint.TwoCrashesCanLoseBoth`).
- The BENCH handler reads the offset as a 32-bit int. It reads every chunk of every file right if and only if the
  last unit starts below 2^31 (`Bench.ReadRightIff`); at higher offsets it hashes zeros or, where the offset modulo
  2^32 is below 2^31, another part of the file (`Bench.HandlerReadsWrapped`).
- A resumed producer starts numbering one above the last completed number in its checkpoint. That is the number of
  the last success, not the highest, and it is -1 in a session that has completed nothing, whatever earlier sessions
  did. After sessions that could not repeat a number, the next one can send a completed number again unless something
  was completed before the checkpoint and nothing in the session, before or after it, above the last number of then
  (`Sessions.SafeAfterSafeIff`; `Sessions.ReuseAfterIff` for any past). Two sessions that show it:
  `Sessions.OutOfOrderReuses` and `Sessions.IdleSessionReuses`. It cannot happen as long as in every session results
  arrive in number order, at least one arrives, and none after the checkpoint (`Sessions.OrderlySessionsNeverReuse`).
  Only numbers repeat: the ids differ by the producer id, and the plugin goes on from its own position.
- Asking the duplicate cache and pushing a unit are two regions under different locks, so a unit may have been marked
  completed by the time it is pushed, and is then handled again (`Protocol`, `Receiver`, `PoolProtocol`).

## Model

| member | source | states |
|---|---|---|
| Odometer.PlaceIsOrderIsomorphism | src/producer/PWD_NextUnit.h:5-17 | the enabled indices in table order correspond one to one, in order, to the places 0 to k-1 |
| Odometer.BumpIsNextPlace | src/producer/PWD_NextUnit.cpp:57-160 | an advancing digit goes to the next place of the enabled alphabet |
| Odometer.SuccessorAddsOne | src/producer/PWD_NextUnit.cpp:45-163 | carrying and bumping a row is "+1" in bijective base k |
| Odometer.RankBounds | src/producer/PWD_NextUnit.cpp:24-178 | the words of each length have a block of ranks of their own, between 1 + k + ... and k + ... + k^n |
| Odometer.RankInjective | src/producer/PWD_NextUnit.cpp:24-178 | two rows of enabled digits with the same rank are the same row |
| Odometer.RankOrderIsWordOrder | src/producer/PWD_NextUnit.cpp:24-178 | a lower rank means shorter, or of the same length and earlier in alphabet order |
| Characters.CharOfReadsTables | src/producer/PWD_NextUnit.h:28-34 | the character of an index is the entry of the four tables laid end to end |
| Characters.CharOfInjective | src/producer/PWD_NextUnit.h:28-34 | no character stands in the tables twice |
| Characters.SpellUnspell | src/producer/PWD_NextUnit.cpp:297-320 | spelling the digits of a word gives the word back |
| Characters.UnspellSpell | src/producer/PWD_NextUnit.cpp:297-320 | and the digits are determined by the word they spell |
| Characters.BeforeSpelled | src/producer/PWD_NextUnit.cpp:297-320 | the order of rows is the order of the words they spell |
| Generator.NextIsSuccessor | src/producer/PWD_NextUnit.cpp:24-178 | on a well-formed state setNext goes to the successor, or returns DONE with the digits unchanged when all ten are at the top |
| Generator.NextAddsOne | src/producer/PWD_NextUnit.cpp:24-178 | a successful call keeps well-formedness and raises the rank by exactly 1 |
| Generator.DoneAtLastRank | src/producer/PWD_NextUnit.cpp:24-178 | DONE is returned exactly at the last rank |
| Generator.RunReachesEveryRank | src/producer/PWD_NextUnit.cpp:24-178 | after n calls from a fresh object the rank is n, up to the last rank, where it stays |
| Generator.CallsSucceedExactlyTotalTimes | src/producer/PWD_NextUnit.cpp:24-178 | call n succeeds if and only if n is at most k + ... + k^10, and every later call is DONE |
| Generator.EveryWordExactlyOnce | src/producer/PWD_NextUnit.cpp:24-178 | every word of length 1 to 10 over the enabled characters is produced by exactly one call |
| Generator.PasswordsInWordOrder | src/producer/PWD_NextUnit.cpp:24-178 | passwords come shortest first, then in alphabet order |
| Generator.CodeTells | src/producer/PWD_NextUnit.cpp:24-178 | NO_OPTION exactly without a range, and then nothing changes; on DONE only the status changes; a success changes a digit |
| NextUnit.LoopEndsIff | src/producer/PWD_NextUnit.cpp:45-163 | the carry loop, whose pass is proved to be ScanDigit, ends if and only if the carry stops at a blank or enabled digit or runs off the row |
| NextUnit.ReturnsIff | src/producer/PWD_NextUnit.cpp:24-163 | setNext returns at once without a range or after the end, and otherwise if and only if its carry loop ends |
| NextUnit.StuckForever | src/producer/PWD_NextUnit.cpp:45-163 | at a digit outside the enabled ranges no number of passes ends the loop |
| NextUnit.PassByRanges | src/producer/PWD_NextUnit.cpp:45-163 | inside a range a pass adds one to the index; at its end it goes to the next enabled range, or carries; a digit outside the ranges it leaves as it is, with everything else |
| NextUnit.PwdNextUnit.ScanDigit | src/producer/PWD_NextUnit.cpp:45-162 | the four range blocks over the local copy are one pass, whatever the digit |
| NextUnit.PwdNextUnit.constructor | src/producer/PWD_NextUnit.cpp:4-18 | no range enabled, ten blank digits, length 0, status SUCCESS |
| NextUnit.PwdNextUnit.GetLowestIndex | src/producer/PWD_NextUnit.cpp:288-295 | the lowest index of the enabled alphabet, -1 when no range is enabled |
| NextUnit.PwdNextUnit.Carry | src/producer/PWD_NextUnit.cpp:45-163 | the carry loop over the local copy leaves the bumped row and the index it stopped at, or DONE |
| NextUnit.PwdNextUnit.SetNext | src/producer/PWD_NextUnit.cpp:24-178 | digits, length, status and returned code are those of one step of the enumeration, whenever the loop can end; NO_OPTION exactly without a range, DONE exactly when the end is or was reached |
| NextUnit.PwdNextUnit.GetPlainPassword | src/producer/PWD_NextUnit.cpp:297-320 | the NUL-terminated buffer holds the word of the digits, last digit first; null exactly when an index is outside the tables |
| NextUnit.PwdNextUnit.GetPwdAsIndicies | src/producer/PWD_NextUnit.cpp:180-188 | the string built is the length and the indices, comma-separated |
| NextUnit.PwdNextUnit.GetPwdAsText | src/producer/PWD_NextUnit.cpp:190-286 | the string built is the length and the characters, symbols spelled out |
| NextUnit.PwdNextUnit.SetCharIndicies | src/producer/PWD_NextUnit.cpp:346-349 | one digit is replaced, everything else unchanged |
| NextUnit.PwdNextUnit.SetPermuteStatus | src/producer/PWD_NextUnit.cpp:361-364 | any non-zero status is stored as DONE |
| PwdText.SymbolNamesDistinct | src/producer/PWD_NextUnit.cpp:205-275 | the spelled-out names of different symbols differ |
| PwdText.IndiciesUnambiguous | src/producer/PWD_NextUnit.cpp:180-188 | equal index renderings come from equal digits |
| PwdText.TextUnambiguous | src/producer/PWD_NextUnit.cpp:190-286 | equal text renderings of words over the tables come from equal digits |
| PwdText.FormsListWord | src/producer/PWD_NextUnit.cpp:180-286 | both forms list the characters of the word that getPlainPassword spells, from left to right behind its length: one by their indices, the other by themselves or a symbol's name |
| PwdText.ShowsNothingIff | src/producer/PWD_NextUnit.cpp:190-286 | a digit shows as nothing exactly when it is outside the tables |
| Decimal.TextOfValue | src/producer/PWD_NextUnit.cpp:180-188 | a text of digits without leading zeros is the text of its value |
| Decimal.NoLeadingZero | src/producer/producer.cpp:418 | ids and both forms write numbers without leading zeros |
| PwdPlugin.ResumeRestores | src/producer/PWD_plugin.cpp:121-182 | startup from a checkpoint gives back digits, length, status and counter |
| PwdPlugin.MissingKeys | src/producer/PWD_plugin.cpp:121-137 | a key missing from the checkpoint leaves its field as in a fresh plugin and the others as saved; any status but zero means exhausted |
| PwdPlugin.ResumeContinues | src/producer/PWD_plugin.cpp:121-182 | n units, checkpoint, resume, m units are the n+m units of one run, numbers included, also when already done |
| PwdPlugin.ResumeReturnsIff | src/producer/PWD_plugin.cpp:121-182 | a checkpoint of a run with some ranges, resumed under others, lets next_unit return wherever the run stood if and only if the new ranges include the old ones or are none |
| PwdPlugin.MoreRangesAreFine | src/producer/PWD_plugin.cpp:121-182 | with all the old ranges on, the resumed position is well formed, so every later call returns too |
| PwdPlugin.EditedRangesHang | src/producer/PWD_plugin.cpp:121-182 | lower case only, one unit, resumed with upper case only: setNext does not return |
| PwdPlugin.JobsAreTheEnumeration | src/producer/PWD_plugin.cpp:146-165 | a fresh plugin hands out every password once, in order, numbered from 1, each with the index form and the text form of its own digits |
| PwdPlugin.NextJobFollowsGenerator | src/producer/PWD_plugin.cpp:146-165 | a call moves the generator and, if that succeeds, counts and describes the new digits: word, index form, text form, number |
| PwdPlugin.NoRangesNoJobs | src/producer/PWD_plugin.cpp:146-165 | without a range there is never a unit, whatever the plugin was resumed from, and nothing changes |
| PwdPlugin.UnspelledJob | src/producer/PWD_plugin.cpp:154-155 | a digit outside the tables leaves the password empty |
| PwdPlugin.NumberedWraps | src/producer/PWD_plugin.cpp:152 | the 32-bit counter is the number of units, wrapped |
| PwdPlugin.PwdPlugin.constructor | src/producer/PWD_plugin.cpp:121-137 | flags as configured, then each resume key that is present |
| PwdPlugin.PwdPlugin.RestoreDigits | src/producer/PWD_plugin.cpp:122-127 | as many saved digits as there are, up to ten, replace the first digits of the row |
| PwdPlugin.PwdPlugin.NextUnit | src/producer/PWD_plugin.cpp:146-165 | generator and counter move on and the job describes the new position, or there is no job and only the status may change |
| PwdPlugin.PwdPlugin.GetCheckpoint | src/producer/PWD_plugin.cpp:167-182 | digits, length, status and counter |
| BoundedQueue.Monitor.Push | include/common/queue.h:43-52 | appends, or drops the item after shutdown; never above the capacity, first in first out |
| BoundedQueue.Monitor.Pop | include/common/queue.h:54-67 | takes the oldest item; the exception exactly when shut down and empty |
| BoundedQueue.Monitor.TryPush | include/common/queue.h:69-79 | stores the item exactly when there is room and no shutdown |
| BoundedQueue.Monitor.TryPop | include/common/queue.h:81-92 | takes the oldest item, also after shutdown; nothing exactly when empty |
| BoundedQueue.Monitor.Shutdown | include/common/queue.h:106-112 | only the flag changes: what is queued stays to be popped |
| ThreadPool.StepConserves | src/consumer/thread_pool.cpp:36-172 | each step keeps: accepted units = queued + in hand + finished + drained, as multisets |
| ThreadPool.StepCounts | src/consumer/thread_pool.cpp:98-172 | each step keeps: idle_count_ plus workers between its decrement and increment is the worker count; active_count_ counts its bracket; the two totals follow the verdicts and the result callbacks |
| ThreadPool.StepAsks | src/consumer/thread_pool.cpp:159-167 | each step keeps: after every unit counted the worker looks at the queue once, and the idle callback runs once for each time it was empty and for no other |
| ThreadPool.StepExcludes | src/consumer/thread_pool.cpp:98-172 | each step keeps: the callback lock has at most one holder, which is in the handler or a callback |
| ThreadPool.StepKeepsListingHeld | src/consumer/thread_pool.cpp:75-172 | each step keeps: every entry of active_work_ is the unit of a worker between entry and removal |
| ThreadPool.StepKeepsListingComplete | src/consumer/thread_pool.cpp:75-172 | while no two workers between entry and removal hold the same id, a step that is no drain keeps every such worker's entry |
| ThreadPool.RemovalIsSafeIff | src/consumer/thread_pool.cpp:145-148 | a removal leaves the others their entries if and only if no other worker between entry and removal holds the id |
| ThreadPool.HandsDistinct | src/consumer/thread_pool.cpp:98-172 | with distinct accepted ids two workers never hold the same id |
| ThreadPool.StepKeepsInvariant | src/consumer/thread_pool.cpp:28-172 | every atomic step of a worker, the submitter, the drainer, shutdown or the stop signal keeps all of these |
| ThreadPool.EveryRun | src/consumer/thread_pool.cpp:21-172 | in every interleaving after start: conservation, both counters between 0 and the worker count, one callback at a time, entries only for units in hand |
| ThreadPool.ListingExact | src/consumer/thread_pool.cpp:98-172 | with the ids in flight distinct in every state and no drain, the keys of active_work_ are exactly the ids between entry and removal; an id may come again once its first copy has left |
| ThreadPool.DistinctIdsSuffice | src/consumer/thread_pool.cpp:98-172 | if all ids ever accepted are distinct, those in flight always are |
| ThreadPool.StepLowersMeasure | src/consumer/thread_pool.cpp:28-172 | after shutdown every worker step lowers a measure and no other step raises it |
| ThreadPool.WorkIsBounded | src/consumer/thread_pool.cpp:28-172 | in any run after shutdown the workers take at most as many steps as the measure says |
| ThreadPool.SomeoneCanWork | src/consumer/thread_pool.cpp:98-172 | after shutdown some worker can step until all have left |
| ThreadPool.CanFinish | src/consumer/thread_pool.cpp:28-172 | from every state after shutdown the workers' own steps lead to all having left |
| ThreadPool.AllExitedIsDrained | src/consumer/thread_pool.cpp:28-172 | all gone without a stop signal: queue empty, accepted = finished + drained, completed + failed = accepted - drained, every verdict counted and reported once, the idle callback run once for every unit after which the queue was empty |
| ThreadPool.ShutdownDrains | src/consumer/thread_pool.cpp:28-172 | every run through shutdown that no worker can prolong ends with all workers gone, the queue empty, and completed + failed = accepted - drained |
| ThreadPool.ShutdownEnds | src/consumer/thread_pool.cpp:28-34 | and there is such a run: wherever a run without a stop signal stands, shutdown followed by worker steps alone leads to all workers gone, the queue empty, and every accepted unit finished or drained |
| ThreadPool.SubmittedIsFinished | src/consumer/thread_pool.cpp:36-38 | a unit submitted while there is room and no shutdown is among the finished at the end of such a run |
| ThreadPool.DrainTakesAll | src/consumer/thread_pool.cpp:75-96 | drain_pending without interruption is as many pops as units are queued and one clearing, and leaves the queue and active_work_ empty and what was queued drained |
| ThreadPool.StopEndsWork | src/consumer/thread_pool.cpp:98-172 | after the stop signal, whatever is submitted, each worker counts at most one unit more and takes at most sixteen steps |
| CompletedIds.RecencyPlace | src/consumer/consumer.cpp:709-721 | an id's place in the list is the number of different ids marked since its last mark |
| CompletedIds.CachedStep | src/consumer/consumer.cpp:709-721 | trimming at every mark loses nothing: the list stays the most recent ids of the whole history |
| CompletedIds.CachedIff | src/consumer/consumer.cpp:704-721 | an id is cached exactly when it was marked and fewer than the bound of different ids were marked since |
| CompletedIds.CachedSize | src/consumer/consumer.cpp:709-721 | the list holds as many ids as were marked, up to the bound |
| CompletedIds.CompletedCache.IsCompleted | src/consumer/consumer.cpp:704-707 | true exactly for ids among the last 3000 different ones marked |
| CompletedIds.CompletedCache.MarkCompleted | src/consumer/consumer.cpp:709-721 | list and set stay the most recent 3000 different ids, without repeats, and agree |
| WorkTracker.OpenAndDone | src/producer/work_tracker.cpp:84-94 | pending_count and the completed units add up to all units |
| WorkTracker.DoneChanges | src/producer/work_tracker.cpp:11-46 | how each transition changes the set of completed units |
| WorkTracker.WaitingChanges | src/producer/work_tracker.cpp:11-46 | how each transition changes the set of waiting units: an entry and a failure add the unit, sending and completing remove it |
| WorkTracker.OthersUnchanged | src/producer/work_tracker.cpp:16-46 | no transition touches another unit; a failed unit has no owner, a completed one keeps its own |
| WorkTracker.ReclaimReturnsAll | src/producer/work_tracker.cpp:101-113 | afterwards nothing sent belongs to the consumer; exactly its units wait again, the others are unchanged |
| WorkTracker.LastIsLastMarked | src/producer/work_tracker.cpp:26-46 | after any list of results the last completed number is that of the last success for a known id |
| WorkTracker.OutcomesCounted | src/producer/work_tracker.cpp:26-46 | a list of results raises completed_count_ and failed_count_ by exactly the successes and failures for known ids, repeated ones too |
| WorkTracker.LastVerdictDecides | src/producer/work_tracker.cpp:26-46 | after any list of results a known unit is completed if the last result about it was a success, and waits if it was a failure, even if completed before |
| WorkTracker.StrayResults | src/producer/work_tracker.cpp:26-46 | results for unknown ids change nothing |
| WorkTracker.LowestFirst | src/producer/work_tracker.cpp:48-65 | get_pending leaves out only units numbered at least as high as all it returns |
| WorkTracker.GetPendingThrowsIff | src/producer/work_tracker.cpp:48-65 | get_pending throws exactly for a negative count, and returns no more than count |
| WorkTracker.WorkTracker.Add | src/producer/work_tracker.cpp:11-14 | the entry stands under its id, everything else unchanged |
| WorkTracker.WorkTracker.Send | src/producer/work_tracker.cpp:16-24 | a known id becomes Sent and owned; an unknown one changes nothing |
| WorkTracker.WorkTracker.Complete | src/producer/work_tracker.cpp:26-35 | a known id becomes Completed, counts once more and sets the last number |
| WorkTracker.WorkTracker.Fail | src/producer/work_tracker.cpp:37-46 | a known id becomes Pending without owner, from any status, and counts as failed: it waits again (WorkTracker.WaitingChanges) |
| WorkTracker.WorkTracker.PendingCount | src/producer/work_tracker.cpp:84-94 | the number of entries Pending or Sent, in whatever order the table is walked |
| WorkTracker.WorkTracker.GetFailedForConsumer | src/producer/work_tracker.cpp:101-113 | exactly the consumer's Sent entries become Pending, and their ids are returned, each once |
| WorkTracker.WorkTracker.GetPending | src/producer/work_tracker.cpp:48-65 | the first count pending entries in number order, none missing or twice; the exception for a negative count |
| WorkTracker.WorkTracker.ToCheckpoint | src/producer/work_tracker.cpp:115-130 | the counters and the number of open units |
| Producer.IdOfInjective | src/producer/producer.cpp:882 | different numbers give different ids |
| Producer.AddKeeps | src/producer/producer.cpp:892-899 | adding a unit keeps the producer consistent, one unit ahead; the unit has a new id and waits |
| Producer.SendKeeps | src/producer/producer.cpp:901-903 | marking it sent and using up the number makes it consistent again |
| Producer.ResultKeeps | src/producer/producer.cpp:450-466 | results, repeated, late or unknown, keep it consistent |
| Producer.ReclaimKeeps | src/producer/producer.cpp:801-815 | reclaiming keeps it consistent, also between the two halves of a dispatch |
| Producer.TableMatchesCounters | src/producer/producer.cpp:874-912 | the keys are exactly the ids from the start below next_seq_; entries = generated = dispatched = open + completed; the completed units are at most completed_count_ |
| Producer.DispatchKeeps | src/producer/producer.cpp:874-912 | a request answered with k units leaves a consistent state, k further |
| Producer.DispatchedEntries | src/producer/producer.cpp:874-912 | the k units carry consecutive numbers and the asking consumer; older entries are unchanged |
| Producer.Producer.HandleWorkRequest | src/producer/producer.cpp:410-448 | the loop dispatches as many units as threads are free, until the plugin is exhausted or a send fails; each message names the next job, the next number and the producer's own test type, file, optional hash and id, and after the call the tracker has its unit under the message's id and number, sent to the consumer |
| Producer.Producer.HandleResult | src/producer/producer.cpp:450-466 | success completes the unit, anything else fails it; a found password or a file error ends the run |
| Protocol.StepKeepsInvariant | src/producer/producer.cpp:837-912 | every step of the producer, the monitor, the network and the consumers keeps all invariants |
| Protocol.MovedHonest | src/consumer/consumer.cpp:297-310 | an id enters a consumer's cache only after its handler returned success |
| Protocol.RepliedHonest | src/consumer/consumer.cpp:334-350 | a "success" is sent only for an id whose handler succeeded: duplicates are answered only from the cache |
| Protocol.ResultTaken | src/producer/producer.cpp:450-466 | a success completes a known unit, a failure makes it wait again, and nothing else in the world changes |
| Protocol.Reclaimed | src/producer/producer.cpp:801-815 | a reclaim makes wait exactly the units sent to the consumer |
| Protocol.DuplicateCompletes | src/consumer/consumer.cpp:334-350 | a unit that comes again while its id is cached is not handled again, and the answer sent at once completes it |
| Protocol.NewUnitIsKept | src/consumer/consumer.cpp:334-350 | a unit not cached is kept for the push, and nothing is answered |
| Protocol.LostLeavesNothing | src/consumer/consumer.cpp:297-350 | a lost result, a push after shutdown and a send that throws put nothing on the wire and into no pool |
| Protocol.CompletedMeansHandled | src/producer/producer.cpp:450-466 | in every run a unit Completed in the tracker had a handler return success for its id |
| Protocol.CountersInEveryRun | src/producer/producer.cpp:874-912 | in every run, between messages, keys and counters agree, open and completed units add up, pending entries have no owner |
| Protocol.NeverSentAgain | src/producer/producer.cpp:801-912 | later messages carry higher numbers than all earlier ones: a reclaimed unit is never dispatched again |
| Protocol.RequestIsRun | src/producer/producer.cpp:874-912 | the request loop without interruption is a run of the protocol's steps and ends in the state the loop is proved to reach, with or without a failing send |
| Protocol.CompletionsInEveryRun | src/producer/work_tracker.cpp:26-35 | in every run the last completed number is that of the last completion, -1 before the first, and every Completed unit is among the completions |
| Sessions.AnyCompletions | src/producer/producer.cpp:450-466 | a session that sends k units can complete them in any order and repeatedly |
| Sessions.CanReuseIff | src/producer/producer.cpp:258-269 | a session can send a number completed earlier if and only if some completed number is not below its start |
| Sessions.ReuseAfterIff | src/producer/producer.cpp:258-269 | after a session that wrote a checkpoint, whatever came before: if and only if it had completed nothing by then and anything was ever completed, or a completed number is above its last one |
| Sessions.SafeAfterSafeIff | src/producer/producer.cpp:258-269 | after a past without reuse, a session is safe if and only if something was completed before the checkpoint and nothing in the session above the last number of then |
| Sessions.UnwrittenSafeIff | src/producer/producer.cpp:258-269 | a session that ends without a checkpoint is safe if and only if it completed nothing |
| Sessions.OrderlySessionsNeverReuse | src/producer/producer.cpp:258-269 | any number of sessions with results in number order, at least one, and none after the checkpoint, never lead to reuse |
| Sessions.OutOfOrderReuses | src/producer/producer.cpp:258-269 | a session that completes 1 and then 0 is followed by one that can send 1 again |
| Sessions.IdleSessionReuses | include/producer/work_tracker.h:37 | after 0 to 4 in order, an idle session leaves a checkpoint from which the next starts at 0 |
| PoolProtocol.PoolStepIsRun | src/consumer/thread_pool.cpp:36-172 | every atomic step of the pool is a run of the protocol: a push is Submit, the handler's end is Handle, the result callback is Callback and SendReply, draining is Drain, the rest is nothing |
| PoolProtocol.MixedIsRun | src/consumer/consumer.cpp:130-350 | every run in which a consumer is its real pool, in any interleaving with the rest, also between the look into the cache and the push, is a run of the protocol |
| PoolProtocol.CompletedMeansHandledInPool | src/consumer/consumer.cpp:297-350 | so in every such run too a unit Completed in the tracker had a handler return success |
| Receiver.Receiver.CheckUnit | src/consumer/consumer.cpp:334-347 | a cached id is answered "success" at once, any other is kept for the push: the protocol's Receive |
| Receiver.Receiver.SubmitUnit | src/consumer/consumer.cpp:348-350 | the kept unit is pushed whatever was marked since, and dropped after shutdown: the protocol's Submit |
| Receiver.Receiver.OnResult | src/consumer/consumer.cpp:297-310 | a success is marked in the cache, a failure is not: the protocol's step |
| Sha256Constants.RoundConstantsAreCubeRoots | src/common/util.cpp:29-46 | the 64 round constants are 32 fractional bits of the cube roots of the first 64 primes, as section 5.1 of RFC 6234 defines them |
| Sha256Constants.InitialIsSquareRoots | src/common/util.cpp:87-90 | the initial value is 32 fractional bits of the square roots of the first eight primes, as section 6.1 of RFC 6234 defines it |
| Sha256.RotrIsRotation | src/common/util.cpp:48 | rotr is rotation, for every distance used |
| Sha256.Sigma0IsRfc | src/common/util.cpp:51 | sigma0 is the function of section 5.1 of RFC 6234, written with the language's rotation |
| Sha256.Sigma1IsRfc | src/common/util.cpp:52 | sigma1 likewise |
| Sha256.Gamma0IsRfc | src/common/util.cpp:53 | gamma0 likewise |
| Sha256.Gamma1IsRfc | src/common/util.cpp:54 | gamma1 likewise |
| KnownAnswer.AbcState | src/common/util.cpp:56-81 | the compression of the one block of "abc", through 64 schedule words and 64 rounds, is the state RFC 6234 leads to |
| KnownAnswer.AbcDigest | src/common/util.cpp:84-129 | the digest of "abc" is the one section 8.5 of RFC 6234 gives |
| Sha256.ChChooses | src/common/util.cpp:49 | ch takes the bits of y where x has ones and those of z elsewhere |
| Sha256.MajVotes | src/common/util.cpp:50 | maj has ones exactly where two of the three have |
| Sha256.FillSchedule | src/common/util.cpp:57-66 | the array holds the message schedule of section 6.2 of RFC 6234 |
| Sha256.RunRounds | src/common/util.cpp:68-77 | the eight variables end as the 64 rounds of section 6.2 leave them, with the functions proved to be those of section 5.1 |
| Sha256.Transform | src/common/util.cpp:56-81 | the state is replaced by its compression with the block, which is not changed; for the block of "abc" that is the known state (KnownAnswer.AbcState) |
| Padding.PaddingConformsIff | src/common/util.cpp:109-122 | the code pads as section 4.1 of RFC 6234 says if and only if the length is not 55 modulo 64 |
| Padding.ExtraBlock | src/common/util.cpp:109-122 | at 55 modulo 64 sixty-four zeros follow 0x80 where the RFC has none: one block more |
| Padding.PaddedIsWholeBlocks | src/common/util.cpp:109-122 | the stream is always whole blocks |
| Padding.PaddingIsInjective | src/common/util.cpp:109-122 | below 2^64 bits the padded stream determines the message, at all lengths |
| Hash.AbsorbSome | src/common/util.cpp:101-107 | one pass takes as much as the block has room for and compresses it when full |
| Hash.Absorb | src/common/util.cpp:101-107 | whatever the buffer held before, all whole blocks go into the state in order and the rest waits |
| Hash.StoreLength | src/common/util.cpp:117-121 | the last eight bytes are the bit length, big-endian |
| Hash.Pad | src/common/util.cpp:109-122 | afterwards the state is the fold of the compression over the blocks of the padded message |
| Hash.DigestConforms | src/common/util.cpp:84-129 | the digest is that of the padding of section 4.1 for every length not 55 modulo 64; for "abc" it is the known one (KnownAnswer.AbcDigest) |
| Hash.HashAt55 | src/common/util.cpp:109-122 | at 55 modulo 64: which blocks the RFC compresses last, and which the code does |
| Hash.HexTextInjective | src/common/util.cpp:124-128 | equal texts come from equal hash values |
| Hash.Sha256Bytes | src/common/util.cpp:84-129 | returns the digest of the bytes |
| Hash.Sha256File | src/common/util.cpp:131-201 | returns the same digest for a file of any length, read in pieces of 65536 with a partial one at the end; "" when it does not open |
| Base64.DecodeEncode | src/producer/BENCH_plugin.cpp:40-54 | decoding what was encoded gives the bytes back, for every byte sequence |
| Base64.EncodedLength | src/producer/BENCH_plugin.cpp:43 | four characters for every three bytes begun |
| Base64.DecodeUnpadded | src/consumer/BENCH_Handler.cpp:19-52 | decoding gives the bytes back also when the padding is missing |
| Base64.OutsidersReadAsA | src/consumer/BENCH_Handler.cpp:12-52 | characters outside the alphabet are not skipped: they decode like an A in their place |
| Base64.PassYields | src/consumer/BENCH_Handler.cpp:19-52 | a pass makes one byte fewer than the characters up to the last of four that is no =, and takes four, or one where only = follow |
| Base64.LoneCharacterIsDropped | src/consumer/BENCH_Handler.cpp:19-52 | a character followed only by = is dropped, and decoding starts again one place on |
| Base64.EncodeIsRfc | src/producer/BENCH_plugin.cpp:40-54 | the text is that of section 4 of RFC 4648, defined bit by bit |
| Base64.LetterIsTable | src/producer/BENCH_plugin.cpp:41 | the letters are those of the table |
| Base64.Base64Encode | src/producer/BENCH_plugin.cpp:40-54 | the loop yields the encoding |
| Base64.FillTable | src/consumer/BENCH_Handler.cpp:12-17 | the table holds each letter's value and 0 elsewhere |
| Base64.Base64Decode | src/consumer/BENCH_Handler.cpp:11-52 | the loop ends on every text, well formed or not, with the decoding |
| Framing.RoundTripIff | src/common/socket.cpp:275-294 | a frame comes back as sent if and only if the payload is shorter than 2^32 bytes |
| Framing.FrameBytes | src/common/socket.cpp:275-280 | the size stands first, in four bytes, the most significant first, and the payload follows |
| Framing.FramesOfStream | src/common/socket.cpp:275-294 | every list of such payloads comes back in order |
| Framing.StreamRoundTripIff | src/common/socket.cpp:275-294 | a list of payloads comes back exactly if and only if all are shorter than 2^32 bytes |
| Framing.CutFrameIsRejected | src/common/socket.cpp:282-294 | a frame cut anywhere yields an error, never a payload |
| Framing.FramesOfCutStream | src/common/socket.cpp:275-294 | a stream cut anywhere yields exactly the frames whole before the cut |
| Framing.Socket.WriteBytes | src/common/socket.cpp:255-262 | short writes or not, all bytes go out in order, or a proper part and a failure |
| Framing.Socket.ReadExact | src/common/socket.cpp:264-273 | short reads or not, the next bytes in order; fewer only at the end, after a timeout or a failure |
| Framing.Socket.SendFrame | src/common/socket.cpp:275-280 | the frame whole, or a proper part of it and a failure |
| Framing.Socket.RecvFrame | src/common/socket.cpp:282-294 | a payload only if it is the first frame of the stream, and always when nothing fails; a timeout is told from every other failure |
| Framing.Socket.SendAll | src/common/socket.cpp:275-280 | a list of payloads goes out as their frames in order, or a proper part of that and a failure |
| Framing.Socket.ReceiveAll | src/common/socket.cpp:282-294 | repeated recv_frame up to its first error returns a beginning of the stream's frames, and all of them when nothing fails |
| Framing.Exchange | src/common/socket.cpp:255-294 | over two sockets, whatever the short writes, short reads, failures and the cut: only payloads sent are received, in order; without a failure exactly those whose frames lie whole before the cut, and all if it is not cut |
| Bench.ExhaustedIffExit | src/producer/BENCH_plugin.cpp:94-157 | next_unit is exhausted, for good, exactly when exit_conditions holds |
| Bench.JobsCoverFile | src/producer/BENCH_plugin.cpp:94-131 | the decoded data of the units, in order, is the file from the offset on |
| Bench.CountJobs | src/producer/BENCH_plugin.cpp:94-131 | ceil(bytes left / chunk size) units are still to come |
| Bench.JobsNumbered | src/producer/BENCH_plugin.cpp:94-131 | the units of a run are numbered on from the counter, one chunk size apart |
| Bench.NextCases | src/producer/BENCH_plugin.cpp:94-131 | when there is a unit, when an exception and when nothing, for every plugin and file; only a unit changes anything |
| Bench.NoSourceNoUnit | src/producer/BENCH_plugin.cpp:30-105 | without a source file, or with one that does not exist, there is never a unit |
| Bench.ReadAtIs | src/producer/BENCH_plugin.cpp:112-118 | a read yields the file's bytes where it has any and zeros elsewhere |
| Bench.WholeFile | src/producer/BENCH_plugin.cpp:30-131 | from a fresh start the units are the whole file, as many as total_chunks, numbered from 1 and one chunk size apart |
| Bench.ResumeContinues | src/producer/BENCH_plugin.cpp:78-141 | resuming from the checkpoint after any n units yields exactly the remaining ones, offsets and numbers included |
| Bench.ChunkSizeMustBePositive | src/producer/BENCH_plugin.cpp:107-129 | a chunk size of zero or below makes no progress |
| Bench.ReadRightIff | src/consumer/BENCH_Handler.cpp:66-106 | the handler reads every chunk of every file of the size right if and only if the last unit starts below 2^31 |
| Bench.UnitReadRightIff | src/consumer/BENCH_Handler.cpp:66-106 | one unit the plugin hands out is read right in every file of the size if and only if it starts below 2^31 |
| Bench.HighOffsetMisread | src/consumer/BENCH_Handler.cpp:66-106 | a unit from 2^31 on is misread in a file of zeros with a single 1 at its offset |
| Bench.EveryUnitMatches | src/consumer/BENCH_Handler.cpp:66-120 | a consumer with the same file reports a match for every unit if the last one starts below 2^31 |
| Bench.MatchMeansSameDigest | src/consumer/BENCH_Handler.cpp:100-109 | a unit read right matches; a misread one only if two different byte strings have one digest |
| Bench.HandlerReadsWrapped | src/consumer/BENCH_Handler.cpp:66-106 | what is hashed at any offset: the bytes at the offset modulo 2^32 where that is below 2^31, zeros where the int is negative |
| Bench.VerdictCases | src/consumer/BENCH_Handler.cpp:66-120 | failure exactly for a negative size of a file that is there; without the file, or for size zero, no match; a match only with bytes read and the job's own digest |
| Bench.BenchPlugin.constructor | src/producer/BENCH_plugin.cpp:59-88 | the chunk size, and offset and counter from the checkpoint |
| Bench.BenchPlugin.NextUnit | src/producer/BENCH_plugin.cpp:94-131 | the job holds offset, size, text, digest and number of the next chunk; offset and counter move on |
| Bench.HandleWork | src/consumer/BENCH_Handler.cpp:58-133 | the verdict compares the digest of the consumer's own bytes with the job's; a negative size fails, no local bytes is no match |
| Checkpoint.CrashSafeIff | src/common/checkpoint.cpp:78-137 | whatever moment save is cut at, load gives the old result or the new state, if and only if the primary it copies is complete or, when nothing loads, has no beginning that reads as another state, or, when nothing is copied, the backup already serves |
| Checkpoint.CrashPointsEnd | src/common/checkpoint.cpp:78-102 | a save passes from the disk it finds to the saved one, also when the primary does not open |
| Checkpoint.UnopenedIsUntouched | src/common/checkpoint.cpp:78-102 | a file changes only when it could be opened, and the backup only when the primary could be read too |
| Checkpoint.FirstSaveIsSafe | src/common/checkpoint.cpp:78-137 | a save without a primary, as the first into an empty directory, is crash safe |
| Checkpoint.TornPrimaryIsSafe | src/common/checkpoint.cpp:78-137 | and so is a save over a torn primary when nothing loads |
| Checkpoint.CompletePrimaryIsSafe | src/common/checkpoint.cpp:78-137 | with a complete primary and all opens succeeding every save is crash safe |
| Checkpoint.TwoCrashesCanLoseBoth | src/common/checkpoint.cpp:81-101 | a crash in the first save after a crash can leave nothing to load |
| Checkpoint.LastTwoStatesKept | src/common/checkpoint.cpp:78-102 | after k saves the primary is the k-th state and the backup the one before |
| Checkpoint.CheckpointManager.Save | src/common/checkpoint.cpp:78-102 | the files it passes through, write by write, are exactly the crash points |
| Checkpoint.CheckpointManager.LoadState | src/common/checkpoint.cpp:104-137 | the primary if it parses, else the backup if it parses |

## Left out

- ThreadPool.EveryRun: the pool is modelled on values as a step relation, not as an object with real threads; only the interleaving of lock regions and atomic updates is captured, not memory ordering below them.
- ThreadPool.CanFinish: handlers and callbacks are single steps that end; a handler that never returns is not modelled.
- ThreadPool.AllExitedIsDrained: counts units drained from the queue; the units drain_pending copies from active_work_ may also be finished by their worker, and are not counted as drained.
- Sessions.OrderlySessionsNeverReuse: orderly is sufficient and can be watched as results arrive; the exact condition per session is Sessions.SafeAfterSafeIff.
- Protocol.CountersInEveryRun: the request handler is one thread, as it is over UDP; several TCP request handlers racing on next_seq_ are not modelled. Results and reclaiming may come between any two of its steps.
- Protocol.CompletedMeansHandled: a unit may be completed without its result having been stored anywhere; the consumer's result sink is not modelled. A result reported by the handler as neither success nor failure is a failure.
- Producer.TableMatchesCounters: completed_count_ is only bounded from below, because a unit with several results counts several times.
- Producer.Producer.HandleWorkRequest: the plugin appears as the jobs it still has, and the first failing send as a number; the message's time stamp is left out. A send that fails delivers nothing.
- WorkTracker.WorkTracker.Complete: the job and the two always empty time stamps of an entry are left out; 64-bit counters are unbounded.
- WorkTracker.WorkTracker.GetPending: std::sort is a stable insertion sort here; the contract does not fix the order of entries with equal numbers.
- NextUnit.PwdNextUnit.SetNext: is proved where its loop ends; the loop is split into one method for a pass and two for copying. Its precondition is exactly the condition of NextUnit.ReturnsIff.
- PwdPlugin.PwdPlugin.constructor: the starting_password branch (src/producer/PWD_plugin.cpp:68-110) is left out: it stores characters left to right although index 0 is the last one, and its symbol table has no '^', so it is not an inverse of get_plainPassword.
- PwdPlugin.JobsAreTheEnumeration: max_password_length is only printed; it does not bound the generator, whose length limit is 10.
- Hash.Sha256File: read errors other than the end of the file are left out; the byte total is unbounded until it is taken modulo 2^64 bits.
- Hash.Absorb: the source writes this loop out three times; here it is one method.
- Base64.Base64Encode: shifts, masks and ors of the 24-bit groups are division, remainder and addition.
- Framing.Socket.RecvFrame: a send that returns 0 is left out, because the write loop would then repeat it for ever; UDP chunking of frames is not modelled.
- Bench.BenchPlugin.NextUnit: total_chunks is not a field, because nothing but set_bench_source_file uses it; 64-bit offsets are unbounded.
- Bench.ReadRightIff: is about the bytes read; that a misread unit is reported as a mismatch holds only as far as SHA-256 has no collision on the two byte strings, as Bench.MatchMeansSameDigest says.
- PoolProtocol.MixedIsRun: one consumer is its real pool, the others are the protocol's; the failures reported for drained units and the callback's result all count as sent, and may be lost.
- Checkpoint.CheckpointManager.LoadState: a file that exists opens; a torn file is one that does not parse. Creating the directory is left out.
- Protocol: a restarted producer is a new run in which no message of an earlier one is left. That assumes a new producer id, which the source only makes likely: src/producer/producer.cpp:601-604 draws one of 10000; the monitor's erase of a consumer that is no longer in the map is left out.
- The producer's map of connected consumers: registering, activity times and closing stale sockets do not touch the table; only the reclaiming that follows is modelled.
- The consumer's first message: downloading the file and starting the pool are left out; its unit is submitted without asking the cache, which is empty then.
- JSON parsing and the to_json/from_json pairs: they rest on a library and copy fields.
- Sockets, threads, clocks, signals, console status, statistics, file download, manifests and archive checks: input, output and platform calls.
- The ECHO plugin and handler, the result sink, parse_duration and is_localhost_host: they would only add easy members.
