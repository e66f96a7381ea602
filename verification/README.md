# Verified models of the operating systems examples

This project models the synchronization protocols of the repository as step
machines and proves what they promise for every schedule, every number of
threads and every input. It also models two sequential programs: the
bookkeeping of traceroute and the n-th prime by trial division.

How the machines are built (`Runs.dfy`): a machine is a total function from a
state and a scheduler action to a state. One action is one load, store,
semaphore, queue or monitor operation of one thread; an action that is not
possible (a blocked thread) leaves the state alone. A run is what a finite
sequence of actions makes of the initial state, and the theorems quantify over
all such sequences. Safety comes from inductive invariants, progress from
measures that bound the steps of every run together with the fact that some
thread can step unless the run is complete. Beside each machine stands a class
with the program's variables as fields or arrays. Its methods change them in
place, one step each, and are proved equal to the step function; `Play` runs a
schedule with them and states what the program then promises.

| file | program |
|---|---|
| `PetersonTso.dfy` | Peterson's lock with xchg on store buffers (FIFO buffer per thread, xchg drains it, the exit store is buffered) |
| `PetersonBank.dfy` | the money transfer inside Peterson's lock, sequentially consistent |
| `LockFamily.dfy` | all methods of `cs_enter`/`cs_leave` around the deposit loop |
| `OneSlotCell.dfy` | the C# cell with its monitor |
| `ThresholdWatch.dfy` | the counter with a condition variable |
| `SharedRing.dfy`, `PoisonPill.dfy` | the circular buffer, and producers and consumers with their shutdown |
| `SlotPool.dfy`, `SlotPoolPeak.dfy` | the pool of worker slots with in-order collection, and when its reported maximum is right |
| `QueuePool.dfy`, `QueuePoolPeak.dfy` | the pool fed by a message queue, and when its reported maximum is right |
| `Traceroute.dfy` | flat and nested probe loops, shared host names and their cleanup |
| `NthPrime.dfy` | the n-th prime |
| `Runs.dfy`, `Sums.dfy`, `Rows.dfy`, `Division.dfy` | runs of machines, sums over threads, rows of probes, quotients |

## Where the code differs from what it says

- The atomic branch of `Peterson_wait` locks only the store to `turn`
  (04-critical_section/Peterson_xchg.h:48-49); by `ExclusiveIffTurnLocked`
  that is enough on store buffers.
- `ReadFromCell` returns the cell after it has left the lock, so what it returns
  need not be the line it printed; `ReturnsItsLineIff` says when it is, and
  `AlwaysReturnsItsLinesIff` for which programs it always is.
- `watch_count` tests the count once with `if` and acts "after the condition is
  met" (05-synchronization/sync_cond_var.c:78-85); that holds in every run exactly
  without wakeups that nobody sent, or if it never waits (`AlwaysAboveIff`).
- A threshold that the increments cannot reach hangs the watcher
  (`StuckIffOutOfReach`).
- The number of deposits in `expected` is a 32-bit product (`CheckPassesIff`).
- The flat traceroute ignores the option for the first TTL (`SamePacketsIff`).
- The cleanup of traceroute excludes one static string but not the other
  (`StaticStringIsFreedIff`).
- `max_threads_used` of the queue-fed pool is updated without protection: it is
  never too large (`UsedIsExact`) and always right only for one thread or one job
  (`QueuePoolPeak.MaximumIsRightIff`).
- The slot pool reads the number of permits left after it has taken one, so the
  maximum it reports can miss a peak (`SlotPoolPeak.MaximumIsRightIff`).
- In the transfer at sequential consistency a thread may need one turn of its
  busy wait before it can get on, so the progress theorem says "at once or after
  one turn".

## Model

| member | source | states |
|---|---|---|
| `PetersonTso.ExclusiveIffTurnLocked` | 04-critical_section/Peterson_xchg.h:45-88 | on store buffers, every run of two threads looping over the lock keeps them apart exactly when the store to `turn` is an xchg |
| `PetersonTso.BothEnter` | 04-critical_section/Peterson.h:40-54 | with a plain store to `turn` a run ends with both threads in the critical section, for both kinds of store to `flag` |
| `PetersonTso.CriticalLoadsAreCurrent` | 04-critical_section/Peterson_xchg.h:69-88 | in every run a thread in the critical section reads at every address the last value stored in any critical section, although the exit is a plain buffered store |
| `PetersonTso.RefinesAtomicLock` | 04-critical_section/Peterson_xchg.h:45-88 | every step of every run is a step of one atomic lock around memory without buffers, flushes being invisible, and the holder loads at every address what the memory of that lock has there |
| `PetersonTso.DrainedMemoryIsLogical` | 04-critical_section/Peterson_xchg.h:69-88 | when both buffers are empty, memory holds every store of every critical section |
| `PetersonTso.LoadSeesDrained` | 04-critical_section/Peterson_xchg.h:64-65 | a load that searches the own buffer from the newest store reads what memory will hold once the buffer is drained |
| `PetersonTso.LoadOfTurnSeesDrained` | 04-critical_section/Peterson_xchg.h:64-65 | a load of `turn` with a buffered plain store reads what memory will hold once the buffer is drained |
| `PetersonTso.NextKeepsInv` | 04-critical_section/Peterson_xchg.h:45-88 | flag, turn, buffer and data invariant kept by every instruction, store and flush |
| `PetersonTso.SomebodyGetsIn` | 04-critical_section/Peterson_xchg.h:64-65 | no deadlock: from every reachable state with a spinning thread, a continuation of entry code and flushes only leads one thread into the critical section |
| `PetersonTso.WaiterGetsIn` | 04-critical_section/Peterson_xchg.h:45-88 | no lockout: every spinning thread itself can get in by entry code, flushes and at most one exit of its rival |
| `PetersonTso.BypassedAtMostOnce` | 04-critical_section/Peterson_xchg.h:45-67 | bounded bypass on store buffers: as long as a thread that has stored `turn` keeps waiting, its rival enters at most once |
| `PetersonTso.Machine.Load` | 04-critical_section/Peterson_xchg.h:64-65 | the loop over the buffer from its newest store returns the value the specification sees |
| `PetersonTso.Machine.Play` | 04-critical_section/Peterson_xchg.h:45-88 | plays any schedule on the in-place machine; with a locked store to `turn` no moment of it has two threads inside |
| `PetersonBank.ExclusiveAndConserved` | 04-critical_section/bank_transactions_Peterson.c:57-78 | in every run at most one thread is inside, and rich + poor is AMOUNT whenever none is |
| `PetersonBank.FinalBalances` | 04-critical_section/bank_transactions_Peterson.c:98-111 | when both threads have ended rich is 0, poor is AMOUNT, the transactions number from ceil(AMOUNT/10)+1 to AMOUNT+1 for AMOUNT >= 1, and each thread waited at most as often as it transferred |
| `PetersonBank.TransferTakesWhatIsDrawn` | 04-critical_section/bank_transactions_Peterson.c:99-104 | in every run a transfer takes from rich_guy 1 + r % 10 for the r that rand() returned for it, or what is left if that is less |
| `PetersonBank.WaitsAreExact` | 04-critical_section/bank_transactions_Peterson.c:62-66 | in every run the wait counter of a thread is the number of its transactions that have been through a busy wait, each counted once |
| `PetersonBank.NextKeepsInv` | 04-critical_section/bank_transactions_Peterson.c:57-111 | lock and money invariant kept by every single load and store |
| `PetersonBank.NextKeepsCount` | 04-critical_section/bank_transactions_Peterson.c:98-111 | every load and store keeps the account of transfers that move 1 to 10 and of the last, empty ones |
| `PetersonBank.BypassedAtMostOnce` | 04-critical_section/bank_transactions_Peterson.c:60-67 | from any reachable state, as long as a thread that has stored `turn` keeps waiting, its rival enters at most once |
| `PetersonBank.WorkIsBounded` | 04-critical_section/bank_transactions_Peterson.c:98-111 | on every schedule at most 16*|AMOUNT|+30 steps are not busy waiting |
| `PetersonBank.SomebodyWorks` | 04-critical_section/bank_transactions_Peterson.c:57-78 | in every reachable state that is not final some thread works at once or after one turn of its busy wait, whatever rand() returns |
| `PetersonBank.EveryRunCanEnd` | 04-critical_section/bank_transactions_Peterson.c:98-111 | every run can be continued until both threads have ended |
| `PetersonBank.Bank.Play` | 04-critical_section/bank_transactions_Peterson.c:194-198 | plays any schedule; once both threads have ended the check of main never reports bad transactions |
| `LockFamily.RefinesOneLock` | everything.h:274-384 | every method but the empty one and the plain variable refines one abstract lock for any number of threads; tokens free plus threads inside is 1 |
| `LockFamily.ExclusiveIffSound` | everything.h:274-384 | for two or more threads the methods that exclude in every run are exactly those, the other two fail in some run |
| `LockFamily.LeaveNeverBlocks` | everything.h:370-377 | a thread in cs_leave never waits: even the queue with room for one message is empty while a thread is inside |
| `LockFamily.StepKeepsTokens` | everything.h:111-220 | free tokens plus holders stay 1 under every step of every method |
| `LockFamily.FinalBalance` | 04-critical_section/CPUtime/v2021/bank_deposit_CPUtime.c:131-140 | every complete run ends with start + threads*rounds*(amount - fee) although read and write of the balance are separate steps |
| `LockFamily.CheckPassesIff` | 04-critical_section/CPUtime/v2021/bank_deposit_CPUtime.c:166-170 | the value main expects equals the balance of a complete run exactly when the number of deposits is below 2^32 or a deposit changes nothing |
| `LockFamily.WorkIsBounded` | 04-critical_section/CPUtime/v2021/bank_deposit_CPUtime.c:131-140 | on every schedule at most 4*rounds*threads steps are not waiting |
| `LockFamily.SomebodyWorks` | everything.h:274-335 | before the end some thread gets on, at once or after one test of the lock |
| `LockFamily.EveryRunCanEnd` | 04-critical_section/CPUtime/v2021/bank_deposit_CPUtime.c:131-140 | every run can be completed |
| `LockFamily.Account.Play` | 04-critical_section/CPUtime/v2021/bank_deposit_CPUtime.c:229-232 | plays any schedule; a complete run has the exact balance |
| `OneSlotCell.NoLostWakeup` | 05-synchronization/monitor-Csharp/producer-consumer/ProducerConsumerSimple.cs:106-122 | in every run a thread waits only for an event still to come or whose pulse is being sent, and never do both wait |
| `OneSlotCell.LinesAndResults` | 05-synchronization/monitor-Csharp/producer-consumer/ProducerConsumerSimple.cs:89-95 | in every run the printed lines are 1, 2, 3 and so on up to n; the k-th read returns k or k+1, the last one n |
| `OneSlotCell.ReturnsItsLineIff` | 05-synchronization/monitor-Csharp/producer-consumer/ProducerConsumerSimple.cs:119-123 | a read returns the item it printed exactly when the producer has not stored the next one after the lock was released, and otherwise that next one |
| `OneSlotCell.AlwaysReturnsItsLinesIff` | 05-synchronization/monitor-Csharp/producer-consumer/ProducerConsumerSimple.cs:104-124 | in every run every read returns the line it printed exactly if there is at most one item |
| `OneSlotCell.ReadCanReturnTheNextItem` | 05-synchronization/monitor-Csharp/producer-consumer/ProducerConsumerSimple.cs:119-123 | a run in which the first read prints 1 and returns 2 |
| `OneSlotCell.NextKeepsInv` | 05-synchronization/monitor-Csharp/producer-consumer/ProducerConsumerSimple.cs:104-146 | monitor, flag and history invariant kept by every step of both threads |
| `OneSlotCell.NoDeadlock` | 05-synchronization/monitor-Csharp/producer-consumer/ProducerConsumerSimple.cs:126-146 | before both loops are done some thread can step |
| `OneSlotCell.WorkIsBounded` | 05-synchronization/monitor-Csharp/producer-consumer/ProducerConsumerSimple.cs:70-95 | no run has more than 24n+22 steps that change anything, so every run that goes on completes |
| `OneSlotCell.Cell.Play` | 05-synchronization/monitor-Csharp/producer-consumer/ProducerConsumerSimple.cs:89-95 | plays any schedule; when both loops are done both sides printed exactly 1 to n |
| `ThresholdWatch.FinalCount` | 05-synchronization/sync_cond_var.c:34-62 | a run in which all threads end counts rounds*threads+100, with or without wakeups nobody sent |
| `ThresholdWatch.WatcherActsAboveThreshold` | 05-synchronization/sync_cond_var.c:77-85 | without wakeups nobody sent, or with a threshold of 0 or less, the 100 is added only at a count that has reached the threshold |
| `ThresholdWatch.AlwaysAboveIff` | 05-synchronization/sync_cond_var.c:77-85 | the 100 is added at or above the threshold in every run exactly if no wakeup comes without a signal or the threshold is 0 or less |
| `ThresholdWatch.WokenTooEarly` | 05-synchronization/sync_cond_var.c:77-85 | a run, for every program with a threshold of 1 or more, in which a wakeup nobody sent lets the watcher act at count 0 |
| `ThresholdWatch.NeverStuck` | 05-synchronization/sync_cond_var.c:48-53 | no run is stuck if the threshold is at most rounds*threads |
| `ThresholdWatch.StuckIffOutOfReach` | 05-synchronization/sync_cond_var.c:77-83 | some run hangs exactly when the threshold exceeds rounds*threads, whether or not there can be wakeups nobody sends |
| `ThresholdWatch.NextKeepsInv` | 05-synchronization/sync_cond_var.c:34-90 | mutex, count and wait invariant kept by every step |
| `ThresholdWatch.WorkIsBounded` | 05-synchronization/sync_cond_var.c:39-61 | every schedule has at most 7*rounds*threads+7 steps of threads |
| `ThresholdWatch.Counter.Play` | 05-synchronization/sync_cond_var.c:112-117 | plays any schedule; when all threads are done the count is exact |
| `SharedRing.RingRefinesFifo` | 05-synchronization/monitor-java/ProducerConsumer-java-v1.4/ProducerConsumer.java:156-195 | any sequence of guarded Append and Take calls returns what a bounded FIFO returns and keeps in = (out + count) mod length |
| `SharedRing.PutIsAppendIff` | 05-synchronization/monitor-java/ProducerConsumer-java-v1.4/ProducerConsumer.java:171-182 | Append without its wait keeps the ring sound exactly when it is not full, and then adds the item at the end |
| `SharedRing.GetIsTakeIff` | 05-synchronization/monitor-java/ProducerConsumer-java-v1.4/ProducerConsumer.java:184-194 | Take without its wait keeps the ring sound exactly when it is not empty, and then removes the first item |
| `SharedRing.SharedStorage.Append` | 05-synchronization/monitor-java/ProducerConsumer-java-v1.4/ProducerConsumer.java:171-182 | guarded append in the array: stores behind all others or changes nothing |
| `SharedRing.SharedStorage.Take` | 05-synchronization/monitor-java/ProducerConsumer-java-v1.4/ProducerConsumer.java:184-194 | guarded take from the array: the item that has been there longest or nothing |
| `PoisonPill.TakenInOrder` | 05-synchronization/producer_consumer.c:289-298 | in every run the characters the ring hands out of each producer are those it made, in its order; where it hands out a quit item all data of all producers came out before; it has handed out one quit item per ended consumer |
| `PoisonPill.PrintedInOrder` | 05-synchronization/producer_consumer.c:332-348 | in every run, of whatever data, each consumer prints the characters it takes in the order it takes them, but for one in hand or the quit item |
| `PoisonPill.SoleConsumerPrints` | 05-synchronization/producer_consumer.c:332-348 | a single consumer prints what the ring hands out, in that order |
| `PoisonPill.OneToOneInOrder` | 05-synchronization/producer_consumer.c:289-348 | of one producer it prints at any moment a beginning of the data and in the end all of it |
| `PoisonPill.EverythingPrinted` | 05-synchronization/producer_consumer.c:332-348 | when all consumers have ended the printed characters are the produced ones as multisets, the ring is empty and as many quit items were taken as there are consumers |
| `PoisonPill.EverythingPrintedIff` | 05-synchronization/producer_consumer.c:338-346 | and this holds exactly if no producer makes the quit item |
| `PoisonPill.NextKeepsInv` | 05-synchronization/producer_consumer.c:289-348 | ring, log and consumer invariant kept by every append, take and print |
| `PoisonPill.NoDeadlock` | 05-synchronization/producer_consumer.c:208-237 | no run is stuck, for any numbers of producers and consumers and any capacity |
| `PoisonPill.WorkIsBounded` | 05-synchronization/producer_consumer.c:208-237 | no run has more than 3*(items + consumers) steps |
| `PoisonPill.Program.Play` | 05-synchronization/producer_consumer.c:208-237 | plays any schedule; each consumer has printed in the order taken, and a run that ends has printed all data, in order if there is one producer and one consumer |
| `SlotPool.FreeSlotIsAlwaysFound` | 05-synchronization/sync_working_threads_partial_sem.c:154-171 | the branch "free thread index not found" is never reached, although slots are released during the scan |
| `SlotPool.PermitMeansFreeSlot` | 05-synchronization/sync_working_threads_partial_sem.c:144-162 | in every run a permit of the main thread is good for a slot from sem_wait to the creation of the worker: a free one the scan has still to come to, the one found, or the one allocated |
| `SlotPool.SlotsAreLeft` | 05-synchronization/sync_working_threads_partial_sem.c:144-162 | the jobs that hold a slot are fewer than the slots while the main thread has a permit |
| `SlotPool.JobNumberIsStable` | 05-synchronization/sync_working_threads_partial_sem.c:210-234 | as long as the worker of a slot is not joined no step changes the slot's w and no other slot has the same job |
| `SlotPool.JobsGoForward` | 05-synchronization/sync_working_threads_partial_sem.c:223-227 | a job goes idle, busy, done under every step, and is done when collected |
| `SlotPool.AllCollectedAtEnd` | 05-synchronization/sync_working_threads_partial_sem.c:359-360 | at the end all jobs are done and collected and all slots and permits are back; the maximum is at most the slots and the jobs |
| `SlotPool.MaximumIsGreatestRead` | 05-synchronization/sync_working_threads_partial_sem.c:147-152 | in every run the main thread reads from the semaphore how many permits are out, once for each job, and the maximum it keeps is the greatest number read; a complete run with a job reports 1 at least |
| `SlotPoolPeak.MaximumIsRightIff` | 05-synchronization/sync_working_threads_partial_sem.c:144-152 | the maximum equals the most permits ever out, in every run but between permit and read, and also in every run that has ended, exactly if min(slots, jobs) is at most 1 |
| `SlotPoolPeak.EndCanBeLost` | 05-synchronization/sync_working_threads_partial_sem.c:144-152 | for two or more slots and jobs a complete run that reports 1 although 2 permits were out at once |
| `SlotPool.NoDeadlock` | 05-synchronization/sync_working_threads_partial_sem.c:236-267 | in-order collection with one slot or more never deadlocks |
| `SlotPool.WorkIsBounded` | 05-synchronization/sync_working_threads_partial_sem.c:341-357 | every run has at most (jobs+1)*(slots+17) steps |
| `SlotPool.NextKeepsInv` | 05-synchronization/sync_working_threads_partial_sem.c:140-267 | slot, job and permit invariant kept by all three kinds of thread |
| `SlotPool.Pool.Play` | 05-synchronization/sync_working_threads_partial_sem.c:341-360 | plays any schedule; never "not found", the maximum is the greatest number read, and the end comes only with all jobs done and, with a job, a maximum of 1 at least |
| `QueuePool.JobsAreReceivedInOrder` | 05-synchronization/sync_working_threads_partial_mq_sem.c:186-192 | on every schedule the job numbers received are 0, 1, 2 and so on, and no two workers have the same job |
| `QueuePool.JobsGoForward` | 05-synchronization/sync_working_threads_partial_mq_sem.c:205-209 | a job goes idle, busy, done, and is done when collected |
| `QueuePool.UsedIsExact` | 05-synchronization/sync_working_threads_partial_mq_sem.c:194-219 | threads_used equals the workers between post and wait, so that wait never blocks; the recorded maximum is at most the greatest value of threads_used so far, and that at most min(threads, jobs) |
| `QueuePoolPeak.MaximumIsRightIff` | 05-synchronization/sync_working_threads_partial_mq_sem.c:194-200 | the recorded maximum equals the greatest value of threads_used, in every run whenever no update is under way, and also in every run that has ended, exactly if min(threads, jobs) is at most 1 |
| `QueuePoolPeak.EndCanBeLost` | 05-synchronization/sync_working_threads_partial_mq_sem.c:199-200 | for two or more threads and jobs a complete run that reports 1 although 2 threads were used at once |
| `QueuePoolPeak.NextKeepsSole` | 05-synchronization/sync_working_threads_partial_mq_sem.c:194-200 | with one worker the maximum is right or about to be, under every step |
| `QueuePool.AllCollectedAtEnd` | 05-synchronization/sync_working_threads_partial_mq_sem.c:370-378 | when main goes on all jobs were received in order, done and collected |
| `QueuePool.NoDeadlock` | 05-synchronization/sync_working_threads_partial_mq_sem.c:356-378 | neither the full queue nor in-order collection deadlocks |
| `QueuePool.WorkIsBounded` | 05-synchronization/sync_working_threads_partial_mq_sem.c:186-220 | every run has at most 13*jobs + min(threads, jobs) + 1 steps |
| `QueuePool.NextKeepsInv` | 05-synchronization/sync_working_threads_partial_mq_sem.c:179-242 | queue, counter and job invariant kept by every step |
| `QueuePool.Pool.Play` | 05-synchronization/sync_working_threads_partial_mq_sem.c:370-378 | plays any schedule; prefix 0,1,2,... received and all jobs done at the end |
| `Traceroute.RunBoth` | 07-sockets/traceroute/successive_traceroute/traceroute.c:54-61 | the flat program and the nested one from TTL 1, run against any replies, send the same packets and end alike; both go on over timeouts, socket errors and message 11 code 0, and the first answer or other message is the final probe of the flat one; that of the nested one is the last such reply of the same, last row |
| `Traceroute.SamePacketsIff` | 07-sockets/traceroute/successive_traceroute/traceroute.c:54-55 | the flat loop, which ignores the first TTL, sends what the nested one does exactly if that is 1 or there is nothing to send |
| `Traceroute.TerminalIsInLastRow` | 07-sockets/traceroute/basic_traceroute/traceroute.c:540-542 | a final probe is in the last row probed |
| `Traceroute.ProbingIsDecided` | 07-sockets/traceroute/successive_traceroute/ip_stuff.c:270-343 | whatever the replies: over timeouts, socket errors and message 11 code 0 probing goes on without a final probe; the first answer or other message is the final probe; a failed send ends the program |
| `Traceroute.TerminalIff` | 07-sockets/traceroute/successive_traceroute/ip_stuff.c:272-343 | the branches of the message parser set the final probe exactly for answers and messages other than 11 code 0 |
| `Traceroute.NestedTraceroute` | 07-sockets/traceroute/basic_traceroute/traceroute.c:503-543 | the nested loops end with the row of the first answer or message other than 11 code 0, send these packets and leave the last such probe as the final one |
| `Traceroute.ProbeRow` | 07-sockets/traceroute/basic_traceroute/traceroute.c:505-536 | one row of the nested loop, up to a failed send, with the last probe that ends the way as the final one |
| `Traceroute.Tracer.SendProbes` | 07-sockets/traceroute/successive_traceroute/traceroute.c:54-61 | the flat loop with its break ends with the row of the first answer or message other than 11 code 0, sends these packets, leaves that probe as the final one and the names and results as specified |
| `Traceroute.SharersAreARun` | 07-sockets/traceroute/successive_traceroute/ip_stuff.c:528-538 | a heap name is shared by a contiguous run of probes of one row whose replies all come from one and the same address, the first of which allocated it |
| `Traceroute.ProbesShareIff` | 07-sockets/traceroute/successive_traceroute/ip_stuff.c:500-538 | two probes share a heap name exactly if they and all probes between them are in one row and got their replies from one address, equal in all bits, of family 2 or 10 |
| `Traceroute.NeighboursShareIff` | 07-sockets/traceroute/successive_traceroute/ip_stuff.c:532-538 | neighbours of a row share a heap name exactly if they got their replies from one address of family 2 or 10 |
| `Traceroute.HeapStringsAreFreedOnce` | 07-sockets/traceroute/successive_traceroute/ip_stuff.c:120-146 | cleanup frees a heap string at most once, exactly if its last sharer is not behind the final probe, and leaves no probe that holds a freed one |
| `Traceroute.FreesAtLastSharer` | 07-sockets/traceroute/successive_traceroute/ip_stuff.c:128-142 | the cleanup of one probe frees its string exactly if it holds one, neither null nor the static string of a timeout, and no later probe of the row holds it |
| `Traceroute.CleanedHosts` | 07-sockets/traceroute/successive_traceroute/ip_stuff.c:132-142 | a cleaned probe has lost its pointer unless it is the static string of a timeout, no other probe has changed |
| `Traceroute.StaticStringIsFreedIff` | 07-sockets/traceroute/successive_traceroute/ip_stuff.c:128-142 | a static string is passed to free() exactly if a reply without address family is the last such one of its row and not behind the final probe |
| `Traceroute.StaticStringCanBeFreed` | 07-sockets/traceroute/successive_traceroute/ip_stuff.c:128-142 | replies for which the static string is passed to free() |
| `Traceroute.NameKinds` | 07-sockets/traceroute/successive_traceroute/ip_stuff.c:518-550 | a probe has no name exactly if its send failed, the static string of a timeout exactly if nothing came, that for a bad family exactly if the reply has no family |
| `Traceroute.Tracer.SetFinalProbe` | 07-sockets/traceroute/successive_traceroute/ip_stuff.c:256-266 | keeps the final probe the least of all probe numbers it has been called with, in whatever order |
| `Traceroute.Tracer.DoOneProbe` | 07-sockets/traceroute/successive_traceroute/ip_stuff.c:518-550 | fills in one probe as the specification of names and results says and keeps the least final probe; the result is an error exactly for messages other than 11 code 0 and 3 code 3 |
| `Traceroute.Tracer.IsUsedElsewhere` | 07-sockets/traceroute/successive_traceroute/ip_stuff.c:130-138 | the scan over the row finds another holder exactly if there is one |
| `Traceroute.Tracer.FreeMemProbe` | 07-sockets/traceroute/successive_traceroute/ip_stuff.c:120-146 | the cleanup of one probe in the array; a probe with the static string of a timeout is left alone |
| `Traceroute.Tracer.FreeProbes` | 07-sockets/traceroute/successive_traceroute/traceroute.c:65-67 | the cleanup loop up to the final probe |
| `Traceroute.Tracer.CleanUp` | 07-sockets/traceroute/successive_traceroute/traceroute.c:65-67 | the cleanup loop on the array the probes have filled: heap strings freed rightly, never null nor the static string of a timeout, which timed-out probes keep |
| `Traceroute.Tracer.DoTraceroute` | 07-sockets/traceroute/successive_traceroute/traceroute.c:53-67 | the whole flat program for all replies: packets; the final probe by the replies as in ProbingIsDecided; every heap string freed at most once and exactly if its last sharer is not behind the final probe; no freed name still held; null and the static string of a timeout never freed, the one for a bad family exactly as StaticStringIsFreedIff says; probes behind the final one untouched; nothing freed when a failed send ends it |
| `Traceroute.CleanupIsRight` | 07-sockets/traceroute/successive_traceroute/traceroute.c:65-67 | the cleanup of the names left by any replies frees only strings, and rightly, leaves no dangling name, and keeps the names of timeouts and those behind the final probe |
| `NthPrime.Finder.ComputePrime` | 03-pthreads/pthread_join3.c:14-39 | the endless loop ends for every n and leaves the prime with exactly n primes up to it; a number that is not positive changes nothing |
| `NthPrime.TrialDivisionDecides` | 03-pthreads/pthread_join3.c:25-29 | trying the factors up to half the candidate decides primality |
| `NthPrime.NthPrimeIsUnique` | 03-pthreads/pthread_join3.c:30-34 | there is only one n-th prime |
| `NthPrime.PrimeBeyond` | 03-pthreads/pthread_join3.c:22-37 | no prime is the last one |
| `NthPrime.EnoughPrimes` | 03-pthreads/pthread_join3.c:22-37 | for every n some bound has at least n primes below it, which makes the loop end |

## Left out

- Semaphore and wait placeholders: producer_consumer.c, ProducerConsumer.java and the two pools leave these calls as comments; they are modelled as the comments and the drawing at 05-synchronization/sync_working_threads_partial_sem.c:29-48 place them, with append and take as single atomic steps. The ring starts with count 0 although the C program does not set it in main.
- Memory models other than store buffers (PetersonTso) and sequential consistency (all others); compiler reordering; the branch of Peterson_xchg.h for builtins is modelled as the x86 instructions it stands for.
- Traceroute.StaticStringIsFreedIff: states which static string the cleanup passes to free(), not what free() then does.
- NthPrime.Finder.ComputePrime: unbounded integers; 32-bit overflow of the candidate is not modelled.
- LockFamily.CheckPassesIff: only the 32-bit product wraps; 64-bit sums are unbounded.
- PetersonBank.FinalBalances: AMOUNT 0, for which the simulated work divides by zero, is modelled without that division.
- OneSlotCell.NoLostWakeup: without spurious wakeups and interrupts; the loop around Wait makes them harmless for the data.
- Failed and interrupted system calls, SEM_UNDO, the unused argument of cs_init, the limits of System V queues, signal handlers, barriers at the start.
- Thread identifiers, and the cancelling of the workers of the queue-fed pool after the results have been joined.
- Traceroute.NestedTraceroute: the first TTL is at least 1, as the printed rows are numbered.
- Data buffers, sockets, times and error texts of probes; name resolution (a resolved name is a new heap string); the network, which is an arbitrary sequence of replies.
- Failed allocation of a probe (init never fails in the source) and strings behind the final probe, which the program does not free.
- Fairness: progress is stated as bounds on working steps and the absence of stuck states, not over infinite runs.
- Printing, options, random numbers (arbitrary arguments), clocks and simulated work.
- The exercises that are meant to race, the stubs, sync_assignment_cond.c, and the process examples: they promise nothing to prove.
