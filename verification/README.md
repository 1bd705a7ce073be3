# Verified models of an e-paper desk display's firmware

This project models three parts of the firmware in Dafny 4.11 and proves what they are for.

* **Inter-thread communication of RT-Thread** (`rt-thread/src/ipc.c`, `rt-thread/src/scheduler_comm.c`):
  mutexes with priority inheritance, the message queue, the mailbox, semaphores and events. The build has
  one core, so a lock section is one atomic step and other threads run wherever the code unlocks. Each
  component is a class whose methods are these steps; `Run` takes any schedule of them, for any number of
  threads. What it ensures holds in every reachable state, and says what the schedule has led to.
* **cJSON and cJSON_Utils** (`packages/cJSON-v1.7.17`): the parser and the printer with their buffers, the
  two-pass string decoder, sibling lists, the list merge sort, comparison, JSON Pointer (RFC 6901) and JSON
  Merge Patch (RFC 7396).
* **microtar, untar and the CRC-32** (`applications/microtar/microtar.c`, `applications/common/common.c`).

`dafny verify dfyconfig.toml` checks everything.

## How the model is built

* Code that updates fields is a class with those fields; the methods are proved against functions on values,
  and the laws are lemmas about these functions. `Valid()` is the invariant.
* A C string is the inductive type `CString.Str`: the byte under a pointer and what lies behind it. A JSON
  value is the tree `Json.Json`; `JsonMeaning.Meaning` forgets the order of members, so two values that are
  equal up to member order at every depth have the same meaning.
* Printing functions take the text that follows as an argument (`RenderTo(t, format, d, rest)`), so
  "what is in the buffer, followed by what is still to come" never changes while the printer runs.
* The message queue's nodes are numbers of slots in the pool. `Places` says for each slot whether it is free,
  queued or with a thread; `Replay` gives a run its meaning as operations on a queue of byte strings.
* What a schedule means is a function on values beside each class: `MessageQueue.StepOf`, `MessageWaits.Turn`,
  `Mailbox.Turn`, `Semaphore.StepOf`, `Event.StepOf`. `Do` computes one step of it and `Run` all of them. For the
  mutex, `Kernel.StepEvents` and `Kernel.Done` say what one step does, and `Kernel.Lawful` what a log may be.
* `Kernel.moment` records, for the proof, when each thread came to its place in a wait list: when it began to
  wait, or when its priority was last changed. Wait lists are sorted by priority and then by that moment.
* `JsonStrings` and `JsonGrammar` state RFC 8259 as relations between texts and values, without the parser.
  With `strict` they are the grammar of the RFC; without, the departures listed below are allowed.
* In the mutex model `sm` and `st` are the mutexes and threads whose priority may be out of date. They are
  empty unless a wait timed out: then the clean-up runs late and only recomputes when two priorities match.
* A wait list is a `WaitLists.Gate`: the threads that sleep, in order, and those that were woken and have not
  run yet. `Mailbox.Post` and `MessageWaits.Desk` put two of them beside the mailbox and the message queue.
* The target has 32-bit `unsigned`, `size_t` and `long`. In microtar positions are unsigned, and `fseek` takes a
  long: an offset above 2^31-1 is negative and is refused. A read succeeds wherever the stream has the bytes.
  `TarWalk` says what the loops over an archive do, entry by entry; the reader is proved for any format of
  headers (`TarReader.Decoder`) and used with that of `TarFormat.Decode`. Loops that need not end are modelled
  by any number of `turns`.
* Allocation succeeds. `rt_sched_thread_ready` on a suspended thread succeeds. Every mutex ceiling is 0xFF.

## Main results

1. `PriorityInheritance.Kernel.Run`: over all runs ownership, hold counts, wait lists and boosting are
   right; without timeouts every priority is exact. `UpdatePriority` ends on every wait graph, with cycles
   or without, and keeps the order of all waiters whose priority it does not change. `Kernel.Release`: the mutex
   goes to the waiter that has been longest in its place among the most urgent. `Kernel.Run` also says what the
   log is: the events of the schedule's steps in their order, each lawful after those before it.
   `Kernel.Delete`: a closed thread keeps a mutex unless it closed itself and held it once.
2. `MessageQueue.Queue.Run`: in every interleaving each slot is in exactly one place, the entry count is the
   queue length, the overflow branches are dead, and messages, nodes and log are what the schedule means
   (`RunOf`): what is sent is what the same thread came with, urgent messages go to the front, and what is
   received is what was at the head, cut to size (`SentAsGiven`, `UrgentOvertakes`, `ReceivingMeans`).
   `MessageWaits.Desk.Run` and `Mailbox.Post.Run`: while a thread sleeps, everything that is available has a
   thread that was woken for it.
3. `JsonGrammar.ParseMeaning` and `JsonParser.ParseText`: on every text, the parser returns a value if and only if
   the text is one of it by RFC 8259 with the departures below; `JsonStrings.StringMeaning` is the same for
   strings, with the escapes of section 7 as a table. `JsonPrinted.PrintedIsJson`: what is printed is a JSON text
   by the RFC. `JsonRoundTrip.PrintParse` and `JsonEndToEnd.PrintAndParse`: parsing what was printed gives the same tree.
   `JsonPrinter.Print` and `PrintPreallocated` succeed if and only if the text and two more bytes fit.
4. `JsonParser.DecodedFits` and `DecodeString`: the estimate of the first pass bounds what the second writes,
   for every input, also where the two passes are out of step.
5. `MergePatch.MergeIsPatched`: merge_patch is the function of RFC 7396. `MergePatch.RoundTrip`: applying the
   generated patch restores the goal if and only if every null member of the goal that is reached through
   objects is in the source already. `RoundTripExactly`: this holds for all values over a set of names if and
   only if any two of these names compare in the same way with case and without (`JsonMeaning.OrderKept`),
   whichever variants of the two functions are called. `FollowsExactly`, `GenerateExactly` and
   `NothingMeansSameExactly` give the exact conditions for each function alone.
6. `SortList.Sort`, `SortIsSorted`, `JsonCompare.CompareDecides`: sorting relinks the same nodes in order, and
   comparison decides equality up to member order; without case it does if and only if no two names differ
   only in case (`JsonCompare.DecidesExactly`).
7. `JsonPointer.FollowExactly`, `MatchesToken`, `EncodedNames`, `PointerByRfc`: pointers are written, matched and
   followed as section 4 of RFC 6901 says. `JsonPointer.PointerInverse`, `InvertsExactly`: the pointer found for a node leads back to it, without case
   exactly where no two names differ only in case. `JsonPointer.IndexGrammar`:
   the index decoder gives the index of RFC 6901 if and only if the token is not empty, is not a digit from '1'
   to '9' followed by bytes from '0' upwards that are not all digits, and has no value of 2^32 or more.
8. `TarFormat.RecordSays`, `RecordWritten`, `ChecksumIsSum`: the fields lie where the ustar interchange format has
   them, in what is read and in what is written. `TarWriter.PackAndUntar`, `PackAndFind`: archives come back as they were written, in any chunking, if their
   end, or the entry, begins below 2^31. `TarReader.Tar.Untar` and `Find` follow `TarWalk.UntarFrom` and
   `FindFrom` on every archive; `TarWalk.ThroughExactly`, `FilesExactly` and `FindExactly` say exactly when all
   entries, all files or one entry are reached.
9. `Crc32.SoftCrc32`, `Crc32.CrcFile`: the table-driven CRC is the bit-by-bit one, in any split into chunks, and
   has the check value of CRC-32 (`Crc32.CheckValue`).

## Where the code departs from what one would expect

* `decode_array_index_from_pointer` bounds only the first byte by '9': "1:" is read as 20, and an empty token
  as 0 (`JsonPointer.MisreadExample`). It computes modulo 2^32, so "4294967296" is read as 0
  (`JsonPointer.WrapAround`, `IndexWraps`). On all other tokens it follows RFC 6901 (`JsonPointer.IndexGrammar`).
* A pointer that does not begin with a slash is no pointer by RFC 6901; following it leads to the whole value.
  Otherwise pointers are followed as the RFC says (`JsonPointer.NoSlash`, `FollowExactly`).
* The parser takes every control character for white space (`JsonGrammar.ControlIsBlank`), and accepts raw control
  characters in strings (`JsonStrings.StringMeaning`), leading zeros (`JsonGrammar.LeadingZero`), of a number 63 bytes at most, a byte order mark
  that is not alone, and text behind the value unless it is told to refuse that (`JsonGrammar.TrailingText`). With
  the `\u` escapes below, these are all departures of what is accepted (`JsonGrammar.ParseMeaning`).
* `generate_merge_patch` sorts both objects without regard to case, always below the first level and in
  `cJSONUtils_GenerateMergePatch` also at the first, and then walks them with `strcmp`. Where two names change
  their order with case, members that do not differ are lost: the patch from {"a":1,"B":2} to {"B":2} leads to
  {} (`MergePatch.AllIsLost`, `OrderIsLost`, `OrderIsLostBelow`). Where two names differ only in case,
  `compare_json` takes them for the same, and two levels down no patch is generated
  (`MergePatch.UpperCaseIsLost`, `CaseIsLost`). Every pair of names that compares differently without case is in
  values for which the round trip fails, and over names without such a pair it never fails
  (`MergePatch.RoundTripFails`, `RoundTripExactly`).
* `cJSONUtils_MergePatch` follows RFC 7396 only where no two names differ only in case
  (`MergePatch.WrongMember`, `FollowsExactly`).
* A `\u` escape whose first four digits are not all hexadecimal is read as U+0000 rather than refused, which is
  how the two passes of `parse_string` get out of step; the decoded string then ends there: "\uZZZZ" is read
  as the empty string (`Unicode.LettersAreNul`, `NotHexIsNul`). The code departs from a reading that refuses
  such escapes exactly on the strings that it accepts although they meet one (`Unicode.LiteralExactly`,
  `DecodeStrictly`, `StringExactly`).
  The reading that serves as the yardstick refuses lone surrogates, as the code does; the grammar in section 7
  of RFC 8259 contains them (`Unicode.LoneSurrogate`, `LiteralAccepts`).
* `add_item_to_array` does not reset the `next` of an item it appends behind others, and does not test whether
  the item is in the list already. There is a well-formed list afterwards if and only if the list was empty, or
  `next` was NULL and the item was not in the list; the list's last item, appended again, meets the first
  condition only (`Siblings.Parent.Append`, `Insert`, `Siblings.AppendLinked`, `AppendAgain`).
* `mtar_next` seeks to an offset that may not fit a long, and `untar` and `mtar_find` ignore that it failed: the
  next header cannot be read, and the loop ends. Of three files of 1 GiB the third is lost
  (`TarWriter.ThirdIsLost`); `untar` gets to the end if and only if the null record begins below 2^31
  (`TarWalk.ThroughExactly`), and writes the files of exactly the entries that begin there
  (`TarWalk.UntarReaches`, `FilesExactly`). It returns 0 all the same.
* `untar` counts a file's bytes down in an int, so a file of 2 GiB or more comes out empty, and everything
  behind it is lost (`TarWriter.BigFileIsLost`).
* Positions wrap at 2^32. An entry of 4 GiB less 512 bytes leads back to itself, and `untar` never ends
  (`TarWriter.UntarNeverEnds`, `TarWalk.NeverEnds`, `LargestEntry`).
* A thread that is closed between being woken by a mailbox or a message queue and running takes its wake-up with
  it: another one may sleep on although there is mail (`Mailbox.LoseWakeup`). That happens exactly when another
  thread sleeps and there are no more woken threads than things available (`Mailbox.Post.Close`,
  `MessageWaits.Desk.Close`, `WaitLists.WakeupLost`).
* `_thread_detach_from_mutex` calls `rt_mutex_release` once for each mutex, which only the owner may do: a closed
  thread still owns a mutex exactly if it owned it and somebody else closed it or it held it more than once
  (`PriorityInheritance.Kernel.Delete`). `_thread_exit` releases nothing (`Kernel.Retire`).
* `cJSON_PrintPreallocated` needs one byte more than text and NUL (`JsonPrinter.PrintPreallocated`).

## Model

| member | source | states |
|---|---|---|
| PriorityInheritance.Enqueue | rt-thread/src/ipc.c:241-285 | the thread is placed behind all that are at least as urgent and in front of the rest |
| PriorityInheritance.PlacedSorted | rt-thread/src/ipc.c:241-285 | so a list in which equally urgent threads stand in the order of their arrival stays so |
| PriorityInheritance.GetMutexPriority | rt-thread/src/ipc.c:845-865 | the result is the minimum of the initial priority and the priorities of all held mutexes |
| PriorityInheritance.Reinsert | rt-thread/src/ipc.c:888-893 | a thread whose priority changed is put behind all others that are at least as urgent; the members are the same, and the first priority moves in the same direction |
| PriorityInheritance.Kernel.ChangePriority | rt-thread/src/scheduler_comm.c:175-217 | the priority is set, and the room left in that direction shrinks |
| PriorityInheritance.Kernel.Requeue | rt-thread/src/ipc.c:888-897 | the thread is taken out and placed behind its equals, the list is sorted again, and the mutex priority is that of its first waiter |
| PriorityInheritance.Kernel.Propagate | rt-thread/src/ipc.c:883-902 | one turn settles the mutex and leaves only its owner out of date; the owner's new priority moves in the same direction |
| PriorityInheritance.Kernel.Turn | rt-thread/src/ipc.c:878-919 | a turn either settles something stale or moves one more priority the same way |
| PriorityInheritance.Kernel.UpdatePriority | rt-thread/src/ipc.c:868-920 | started where only one thread's equation is broken, the loop restores all equations and ends on every wait graph; in every wait list those whose priority has not changed keep their order |
| PriorityInheritance.Kernel.QueuesKept | rt-thread/src/ipc.c:888-893 | two waiters that have not come to their places anew (where nothing is stale: whose priorities have not changed) stand in the same order before and after |
| PriorityInheritance.Kernel.Inherit | rt-thread/src/ipc.c:868-920 | the loop itself: where nothing else is stale, exactly the threads whose priority changed have come to their places anew |
| PriorityInheritance.Kernel.TakeFree | rt-thread/src/ipc.c:1366-1381 | taking a free mutex makes the thread its owner with hold 1 and keeps the invariant |
| PriorityInheritance.Kernel.Suspend | rt-thread/src/ipc.c:1402-1422 | a blocked taker joins the sorted wait list; only the owner's equation may then be broken |
| PriorityInheritance.Kernel.TakeBlocked | rt-thread/src/ipc.c:1395-1430 | blocking and propagating keep the whole invariant |
| PriorityInheritance.Kernel.SetHold | rt-thread/src/ipc.c:1350-1361 | a nested take or release changes the hold count by one and is logged |
| PriorityInheritance.Kernel.Take | rt-thread/src/ipc.c:1324-1444 | which of the four outcomes a take has, as the mutex, its owner and the time limit decide; that every one keeps the invariant, and that nobody who waits is overtaken without a new priority |
| PriorityInheritance.Kernel.Leave | rt-thread/src/ipc.c:922-943 | the leaving owner's list loses exactly this mutex and its priority is settled without it |
| PriorityInheritance.Kernel.Grant | rt-thread/src/ipc.c:1634-1664 | the first waiter becomes owner with hold 1 and leaves the wait list |
| PriorityInheritance.Kernel.HandOver | rt-thread/src/ipc.c:1620-1680 | hand-off to the first waiter keeps the invariant and logs a release and a grant |
| PriorityInheritance.Kernel.GiveUp | rt-thread/src/ipc.c:1620-1700 | releasing without waiters frees the mutex and keeps the invariant |
| PriorityInheritance.Kernel.Release | rt-thread/src/ipc.c:1581-1707 | only the owner can release; what happens to owner, hold, wait lists and log; the last release grants the mutex to the one that has been longest in its place among the most urgent |
| PriorityInheritance.Kernel.Timeout | rt-thread/src/thread.c:117-145 | the thread leaves the wait list with an error; only its mutex becomes stale |
| PriorityInheritance.Kernel.RefreshMutex | rt-thread/src/ipc.c:827-842 | the priority of a mutex that lost a waiter is recomputed; at most its owner stays out of date |
| PriorityInheritance.Kernel.Recover | rt-thread/src/ipc.c:1478-1506 | the clean-up after a wait that failed, and which owner may stay stale |
| PriorityInheritance.Kernel.Resume | rt-thread/src/ipc.c:1446-1520 | a taker that wakes returns the error it was woken with, and owns the mutex if and only if that is RT_EOK |
| PriorityInheritance.Kernel.Detach | rt-thread/src/ipc.c:1076-1100 | a thread that is dropped leaves the wait list, nothing else changes |
| PriorityInheritance.Kernel.Close | rt-thread/src/ipc.c:1076-1138 | dropping a waiting thread keeps the invariant, its mutexes and all other threads' waits |
| PriorityInheritance.Kernel.ReleaseAll | rt-thread/src/thread.c:166-171 | each mutex of the list is released once: who owns it afterwards, and what is logged |
| PriorityInheritance.Kernel.Retire | rt-thread/src/thread.c:79-107 | a thread that waits for no mutex is closed, under the invariant |
| PriorityInheritance.Kernel.Delete | rt-thread/src/thread.c:435-490 | which mutexes the closed thread still owns, if and only if, and what is logged |
| PriorityInheritance.Kernel.constructor | rt-thread/src/ipc.c:1005-1030 | free mutexes and fresh threads satisfy all equations |
| PriorityInheritance.Kernel.Do | rt-thread/src/ipc.c:1324-1707 | every step keeps the invariant and does what it says with its own thread and mutex; the log grows by what the step causes; only a timeout makes anything stale, and nobody is overtaken |
| PriorityInheritance.Kernel.Run | rt-thread/src/ipc.c:827-1707 | every run keeps the invariant; a run without timeouts keeps every priority exact; the log is what the steps cause in their order: takes are granted to the callers when nobody else has the mutex, releases are done by owners |
| PriorityInheritance.Kernel.OwnerInLog | rt-thread/src/ipc.c:1340-1664 | a thread owns a mutex if and only if the log grants it more often than it releases it, and by how much |
| PriorityInheritance.Kernel.StepFits | rt-thread/src/ipc.c:1324-1707 | what a step causes is what it may cause after the log so far |
| PriorityInheritance.Kernel.NoInversion | rt-thread/src/ipc.c:868-920 | through any chain of blocked owners nobody is less urgent than who waits behind, timeouts or not |
| PriorityInheritance.Kernel.PriorityIsInherited | rt-thread/src/ipc.c:845-865 | without deadlock and timeouts, a thread's priority is the initial priority of somebody behind it, or its own |
| MessageQueue.Queue.constructor | rt-thread/src/ipc.c:3084-3143 | all slots are free and the queue is empty |
| MessageQueue.NodesFit | rt-thread/src/ipc.c:3111-3132 | every node lies in the pool, with room for a message, and nodes do not overlap |
| MessageQueue.NodesCounted | rt-thread/src/ipc.c:3111-3113 | a node is as small as alignment allows, and there are as many as the pool has room for, cut to 16 bits |
| MessageQueue.Init | rt-thread/src/ipc.c:3084-3143 | the number of slots is the number of aligned nodes in the pool, cut to 16 bits; it fails if that is 0 |
| MessageQueue.Queue.Acquire | rt-thread/src/ipc.c:3397-3481 | a send gets a slot if and only if one is free and the message fits |
| MessageQueue.Queue.Fill | rt-thread/src/ipc.c:3483-3489 | writing length and bytes without the lock disturbs nothing |
| MessageQueue.Queue.Link | rt-thread/src/ipc.c:3491-3542 | the message becomes the last, or the first if urgent; the count cannot overflow |
| MessageQueue.Queue.Fetch | rt-thread/src/ipc.c:3785-3872 | a receive takes the head if and only if there is one |
| MessageQueue.Queue.Copy | rt-thread/src/ipc.c:3874-3880 | what is copied is the message that was taken, cut to the receiver's size |
| MessageQueue.Queue.Release | rt-thread/src/ipc.c:3886-3909 | the slot is free again and the caller gets what was taken for it |
| MessageQueue.Queue.Reset | rt-thread/src/ipc.c:3983-4010 | every queued slot is freed, slots held by threads are not |
| MessageQueue.Queue.Do | rt-thread/src/ipc.c:3368-4020 | every step of every thread keeps the invariant and does to the queue what the step means, with its own thread, data and urgency |
| MessageQueue.Queue.Run | rt-thread/src/ipc.c:3368-4020 | every interleaving keeps the partition, and messages, threads and log are what the schedule means, step by step |
| MessageQueue.SentAsGiven | rt-thread/src/ipc.c:3397-3542 | what a thread is going to send is what it came with when it last began a send |
| MessageQueue.SendingMeans | rt-thread/src/ipc.c:3368-3558 | a send puts its message to the end of the queue, or to the front if it is urgent |
| MessageQueue.ReceivingMeans | rt-thread/src/ipc.c:3753-3912 | a receive gets the first message, cut to its size, and gives a node back |
| MessageQueue.UrgentOvertakes | rt-thread/src/ipc.c:3683-3689 | an urgent message is received before everything that is queued |
| MessageQueue.RoomForOne | rt-thread/src/ipc.c:3529-3538 | while a thread holds a slot, fewer messages are queued than there are slots |
| MessageQueue.LinkGood | rt-thread/src/ipc.c:3518-3533 | linking keeps partition, links, contents and meaning |
| MessageQueue.FetchGood | rt-thread/src/ipc.c:3857-3873 | taking the head keeps partition, links, contents and meaning |
| MessageQueue.ReleaseGood | rt-thread/src/ipc.c:3888-3889 | returning a slot keeps partition, links, contents and meaning |
| MessageQueue.FirstInFirstOut | rt-thread/src/ipc.c:3477-3872 | without urgent messages and resets, what was sent is what was taken followed by what is queued |
| MessageWaits.Desk.Send | rt-thread/src/ipc.c:3395-3481 | when a send gets a node, fails or sleeps, and that every sleeping thread stays served |
| MessageWaits.Desk.Link | rt-thread/src/ipc.c:3491-3558 | the message is in the queue and the first reader is woken |
| MessageWaits.Desk.Receive | rt-thread/src/ipc.c:3778-3880 | when a receive gets a message, fails or sleeps, and that every sleeping thread stays served |
| MessageWaits.Desk.Release | rt-thread/src/ipc.c:3881-3912 | the node is free and the first writer is woken |
| MessageWaits.Desk.Close | rt-thread/src/thread.c:435-490 | closing a woken thread loses a wake-up, if and only if |
| MessageWaits.Desk.Do | rt-thread/src/ipc.c:3368-4020 | every step keeps every sleeping thread served and does what the step means, with its own arguments |
| MessageWaits.Desk.Run | rt-thread/src/ipc.c:3368-4020 | no interleaving loses a wake-up; queue and wait lists are what the schedule means |
| WaitLists.WakeServes | rt-thread/src/ipc.c:102-147 | one more thing and one more woken thread keep every sleeping thread served |
| WaitLists.InOrder | rt-thread/src/ipc.c:102-147 | the first of the list is woken, who joins or leaves does so at its place, and all others keep their order |
| WaitLists.RunsServes | rt-thread/src/ipc.c:2878-2940 | any thread may take what is available, woken for it or not |
| WaitLists.WakeupLost | rt-thread/src/thread.c:435-490 | exactly when closing a woken thread loses its wake-up |
| Mailbox.Post.Send | rt-thread/src/ipc.c:2555-2686 | a send returns or sleeps; mail is appended and the first reader woken |
| Mailbox.Post.Receive | rt-thread/src/ipc.c:2837-2964 | a receive returns or sleeps; mail is removed and the first writer woken |
| Mailbox.Post.Close | rt-thread/src/thread.c:435-490 | closing a woken thread loses a wake-up, if and only if |
| Mailbox.Post.Do | rt-thread/src/ipc.c:2555-3030 | every step keeps every sleeping thread served, does what the step means with its own arguments, and answers so |
| Mailbox.WokenReaderGets | rt-thread/src/ipc.c:2555-2964 | a mail in the empty mailbox goes to the first sleeping reader |
| Mailbox.Post.Run | rt-thread/src/ipc.c:2555-3030 | no run loses a wake-up; mail, wait lists and all answers are what the schedule means |
| Mailbox.LoseWakeup | rt-thread/src/thread.c:435-490 | two readers, one mail, and the woken reader closed: the other one sleeps on |
| Mailbox.Box.DoSend | rt-thread/src/ipc.c:2578-2668 | send is append, refused exactly when full; the overflow branch is dead |
| Mailbox.Box.DoUrgent | rt-thread/src/ipc.c:2760-2792 | urgent is prepend, refused exactly when full |
| Mailbox.Box.DoReceive | rt-thread/src/ipc.c:2855-2944 | receive removes the first mail, refused exactly when empty |
| Mailbox.Box.Run | rt-thread/src/ipc.c:2555-3030 | every sequence of operations refines a bounded double-ended queue, contents and results |
| Mailbox.FirstAndLast | rt-thread/src/ipc.c:2578-2944 | an urgent mail is received first, a sent one last |
| Mailbox.NothingLost | rt-thread/src/ipc.c:2555-2964 | without reset, initial and accepted mail equals delivered and remaining mail |
| Semaphore.Sem.Take | rt-thread/src/ipc.c:558-642 | granted, waiting or failed, and what each changes |
| Semaphore.Sem.Release | rt-thread/src/ipc.c:695-741 | the first waiter gets the token, else the value grows up to its maximum |
| Semaphore.Sem.Reset | rt-thread/src/ipc.c:767-784 | all waiters fail and the value is set |
| Semaphore.Sem.SetLimit | rt-thread/src/ipc.c:786-819 | the limit is cut to 16 bits and set unless it is 0; the branch that resumes threads is dead |
| Semaphore.Sem.Timeout | rt-thread/src/thread.c:117-145 | the thread leaves the list with an error, and the others keep their order |
| Semaphore.Sem.Do | rt-thread/src/ipc.c:558-819 | every step keeps the invariant and does what the step means |
| Semaphore.Sem.Run | rt-thread/src/ipc.c:558-819 | no token is idle while somebody waits, and tokens are conserved, in every run; value, wait list and every thread's status are what the schedule means |
| Event.Group.Send | rt-thread/src/ipc.c:1956-2052 | exactly the satisfied waiters are resumed, all on the same flags, before any are cleared |
| Event.Group.Receive | rt-thread/src/ipc.c:2088-2176 | got, sleeps or refused, and which flags are cleared |
| Event.ResumedThread | rt-thread/src/ipc.c:1986-2030 | a resumed thread got the flags it wanted out of those that were set; others are untouched |
| Event.SatisfiedMeans | rt-thread/src/ipc.c:1992-2012 | all wanted flags are set, or some of them |
| Event.ClearedMeans | rt-thread/src/ipc.c:2024-2041 | a flag is cleared if and only if a resumed thread wanted it, got it and wanted to have it cleared |
| Event.StayingInOrder | rt-thread/src/ipc.c:1986-2030 | those who are not resumed keep their order |
| Event.Group.Do | rt-thread/src/ipc.c:1956-2285 | every step keeps the invariant, does what the step means and answers so |
| Event.Group.Run | rt-thread/src/ipc.c:1956-2285 | in every run nobody waits for what is there; flags, waiters, what each got and all answers are what the schedule means |
| JsonRoundTrip.StringRoundTrip | packages/cJSON-v1.7.17/cJSON.c:783-1031 | every C string is read back from its printed form, whatever follows |
| JsonRoundTrip.NumberRoundTrip | packages/cJSON-v1.7.17/cJSON.c:310-384 | every 32-bit integer is read back from its decimal form |
| JsonRoundTrip.ReadValue | packages/cJSON-v1.7.17/cJSON.c:1322-1448 | every value is read back at every depth, formatted or not, whatever follows |
| JsonRoundTrip.ReadItems | packages/cJSON-v1.7.17/cJSON.c:1451-1608 | the elements of an array are read back |
| JsonRoundTrip.ReadMembers | packages/cJSON-v1.7.17/cJSON.c:1611-1835 | the members of an object are read back |
| JsonRoundTrip.PrintParse | packages/cJSON-v1.7.17/cJSON.c:1105-1835 | parsing the printed text gives the same tree, nested at most 1000 deep |
| JsonEndToEnd.PrintAndParse | packages/cJSON-v1.7.17/cJSON.c:1089-1270 | printer and parser on their buffers: whatever can be printed is parsed as what it was |
| Unicode.Utf8Correct | packages/cJSON-v1.7.17/cJSON.c:725-770 | the bytes written for a code point are its encoding by section 3 of RFC 3629 |
| Unicode.ScalarRead | packages/cJSON-v1.7.17/cJSON.c:662-723 | every Unicode scalar value, escaped alone or as a surrogate pair, is read as itself |
| Unicode.LoneSurrogate | packages/cJSON-v1.7.17/cJSON.c:682-704 | a lone surrogate is refused |
| Unicode.LiteralExactly | packages/cJSON-v1.7.17/cJSON.c:625-723 | an escape is read as four hexadecimal digits, or a pair of them, if and only if its first four digits are hexadecimal |
| Unicode.LiteralAccepts | packages/cJSON-v1.7.17/cJSON.c:662-723 | an escape is refused if and only if the quote comes too soon or half of a surrogate pair is missing |
| Unicode.DecodeAccepts | packages/cJSON-v1.7.17/cJSON.c:829-887 | the second pass succeeds if and only if every backslash begins an escape that is not refused |
| Unicode.DecodeStrictly | packages/cJSON-v1.7.17/cJSON.c:829-887 | refusing such escapes changes the second pass on exactly the strings that meet one |
| Unicode.StringExactly | packages/cJSON-v1.7.17/cJSON.c:783-909 | which strings parse_string accepts, and that it departs exactly on those of them that meet an escape without hexadecimal digits |
| Unicode.NotHexIsNul | packages/cJSON-v1.7.17/cJSON.c:649-653 | any four bytes that are not all digits are read as U+0000, which ends the string |
| Unicode.LettersAreNul | packages/cJSON-v1.7.17/cJSON.c:649-653 | "\uZZZZ" is read as the empty string |
| JsonParser.StepFits | packages/cJSON-v1.7.17/cJSON.c:829-887 | what one turn of the second pass writes was set aside by the first, in step or out of step |
| JsonParser.DecodedFits | packages/cJSON-v1.7.17/cJSON.c:796-887 | decoded bytes never exceed the bytes between the quotes less the escapes counted |
| JsonParser.ScanString | packages/cJSON-v1.7.17/cJSON.c:796-819 | the first pass finds the closing quote, if any, and counts the escapes |
| JsonParser.WriteUtf8 | packages/cJSON-v1.7.17/cJSON.c:725-774 | the bytes written backwards are the UTF-8 form, and nothing else is touched |
| JsonParser.ParseHex4At | packages/cJSON-v1.7.17/cJSON.c:625-658 | the value of four hexadecimal digits, 0 if one is not a digit |
| JsonParser.ReadLiteral | packages/cJSON-v1.7.17/cJSON.c:662-723 | length and code point of an escape or a surrogate pair |
| JsonParser.DecodeOne | packages/cJSON-v1.7.17/cJSON.c:831-887 | one turn of the second pass decodes correctly within its share of the buffer |
| JsonParser.DecodeString | packages/cJSON-v1.7.17/cJSON.c:820-890 | the allocated buffer suffices for every input and holds the decoded string |
| JsonParser.ParseBuffer.SkipWhitespace | packages/cJSON-v1.7.17/cJSON.c:1048-1071 | the buffer is at the first byte that is not white space, or at the terminating NUL |
| JsonParser.ParseBuffer.ReadString | packages/cJSON-v1.7.17/cJSON.c:783-909 | refines the string reader whose meaning JsonStrings.StringMeaning states |
| JsonParser.ParseBuffer.ReadNumber | packages/cJSON-v1.7.17/cJSON.c:310-384 | refines the integer grammar |
| JsonParser.ParseBuffer.ReadValue | packages/cJSON-v1.7.17/cJSON.c:1322-1374 | refines the value grammar, success and failure, and restores the depth |
| JsonParser.ParseBuffer.ReadArray | packages/cJSON-v1.7.17/cJSON.c:1451-1546 | refines the array grammar with its nesting limit |
| JsonParser.ParseBuffer.ReadItems | packages/cJSON-v1.7.17/cJSON.c:1483-1523 | the loop collects the elements in order up to the bracket |
| JsonParser.ParseBuffer.ReadObject | packages/cJSON-v1.7.17/cJSON.c:1611-1721 | refines the object grammar with its nesting limit |
| JsonParser.ParseBuffer.ReadMembers | packages/cJSON-v1.7.17/cJSON.c:1641-1699 | the loop collects the members in order up to the brace |
| JsonParser.ParseText | packages/cJSON-v1.7.17/cJSON.c:1074-1147 | a value is returned if and only if the text is one of it by the grammar with the departures named, nested at most 1000 deep |
| JsonStrings.StrictIsSpelled | packages/cJSON-v1.7.17/cJSON.c:783-909 | a reader that refuses escapes without hexadecimal digits reads a string if and only if it is spelled by section 7 of RFC 8259, except for raw control characters and lone surrogates |
| JsonStrings.StringMeaning | packages/cJSON-v1.7.17/cJSON.c:783-909 | parse_string returns a string if and only if it is spelled so, or meets an escape without hexadecimal digits |
| JsonStrings.SlashExample | packages/cJSON-v1.7.17/cJSON.c:863-867 | an escaped slash is a slash |
| JsonGrammar.ValueMeaning | packages/cJSON-v1.7.17/cJSON.c:1322-1374 | parse_value returns a value if and only if the text begins with one of it, by sections 2 to 7 of RFC 8259 with the departures named |
| JsonGrammar.ParseMeaning | packages/cJSON-v1.7.17/cJSON.c:1089-1147 | the same for a whole text, with byte order mark, white space and what may lie behind |
| JsonGrammar.JsonIsParsed | packages/cJSON-v1.7.17/cJSON.c:1089-1147 | every JSON text by RFC 8259, of 32-bit integers and nested at most 1000 deep, is parsed as what it says |
| JsonGrammar.ControlIsBlank | packages/cJSON-v1.7.17/cJSON.c:1048-1071 | a control character is taken for white space |
| JsonGrammar.LeadingZero | packages/cJSON-v1.7.17/cJSON.c:310-384 | 01 is read as 1 |
| JsonGrammar.TrailingText | packages/cJSON-v1.7.17/cJSON.c:1136-1149 | without the check, text behind the value is ignored |
| JsonPrinter.PrintBuffer.Ensure | packages/cJSON-v1.7.17/cJSON.c:449-532 | room is made if and only if it can be, and what was written survives |
| JsonPrinter.PrintBuffer.UpdateOffset | packages/cJSON-v1.7.17/cJSON.c:535-545 | the offset moves behind what was printed |
| JsonPrinter.PrintBuffer.PrintNumber | packages/cJSON-v1.7.17/cJSON.c:555-622 | the decimal form is in the buffer, if and only if it fits |
| JsonPrinter.PrintBuffer.PrintString | packages/cJSON-v1.7.17/cJSON.c:912-1031 | the escaped string is in the buffer, if and only if it fits |
| JsonPrinter.EscapeSize | packages/cJSON-v1.7.17/cJSON.c:939-963 | the computed output length is exact |
| JsonPrinter.PrintBuffer.PrintValue | packages/cJSON-v1.7.17/cJSON.c:1377-1448 | the buffer holds what it held followed by the text of the value, if and only if text and two bytes fit |
| JsonPrinter.PrintBuffer.PrintArray | packages/cJSON-v1.7.17/cJSON.c:1549-1608 | the same for arrays |
| JsonPrinter.PrintBuffer.PrintObject | packages/cJSON-v1.7.17/cJSON.c:1724-1835 | the same for objects |
| JsonPrinter.Print | packages/cJSON-v1.7.17/cJSON.c:1197-1270 | the result is the text and a NUL; it fails if and only if that exceeds what a buffer can hold |
| JsonPrinter.PrintPreallocated | packages/cJSON-v1.7.17/cJSON.c:1302-1319 | succeeds if and only if the buffer has two bytes more than the text |
| JsonPrinted.StringIsSpelled | packages/cJSON-v1.7.17/cJSON.c:912-1031 | every printed string is spelled by section 7 of RFC 8259 |
| JsonPrinted.NumberIsSpelled | packages/cJSON-v1.7.17/cJSON.c:555-622 | every printed integer is a numeral of it by section 6 |
| JsonPrinted.PrintedIsJson | packages/cJSON-v1.7.17/cJSON.c:1197-1835 | every printed value is a JSON text of it by RFC 8259, formatted or not |
| JsonPrinted.Layout | packages/cJSON-v1.7.17/cJSON.c:1549-1835 | the white space of nested values, formatted and not, byte by byte |
| Siblings.Parent.GetItem | packages/cJSON-v1.7.17/cJSON.c:1861-1878 | the node with that index, or NULL |
| Siblings.Parent.Append | packages/cJSON-v1.7.17/cJSON.c:1966-1997 | append on the sequence; links stay inverse and the head's prev is the tail, if and only if the list was empty or the item's next was NULL and it was not in the list; otherwise there is no well-formed list |
| Siblings.Parent.Insert | packages/cJSON-v1.7.17/cJSON.c:2273-2305 | insert at the index, append past the end; the links are right if and only if the item was not in the list and, past the end, its next was NULL |
| Siblings.Parent.Detach | packages/cJSON-v1.7.17/cJSON.c:2197-2231 | remove at the index; the node points nowhere |
| Siblings.Parent.Replace | packages/cJSON-v1.7.17/cJSON.c:2307-2354 | update at the index; the links are right if and only if the replacement was not another item of the list |
| Siblings.AppendLinked | packages/cJSON-v1.7.17/cJSON.c:1966-1997 | an item whose next is not NULL leaves no list |
| Siblings.AppendAgain | packages/cJSON-v1.7.17/cJSON.c:1966-1997 | nor does the last item when it is appended again |
| Siblings.Build | packages/cJSON-v1.7.17/cJSON.c:1495-1530 | a list built by the parser or by duplication has its elements in order and well-formed links |
| SortList.AlreadySorted | packages/cJSON-v1.7.17/cJSON_Utils.c:499-508 | only ordered lists are left as they are |
| SortList.Middle | packages/cJSON-v1.7.17/cJSON_Utils.c:510-522 | the two cursors find the middle |
| SortList.Merge | packages/cJSON-v1.7.17/cJSON_Utils.c:535-593 | merging relinks the nodes of both lists in order |
| SortList.Sort | packages/cJSON-v1.7.17/cJSON_Utils.c:485-594 | the same nodes in non-decreasing order with correct links; it ends for every list |
| SortList.SortIsSorted | packages/cJSON-v1.7.17/cJSON_Utils.c:596-603 | for names that the comparison tells from each other the result is the sorted list of members |
| SortList.OneOrder | packages/cJSON-v1.7.17/cJSON_Utils.c:596-603 | there is only one way to put members in strict order |
| JsonCompare.SortedMeaning | packages/cJSON-v1.7.17/cJSON_Utils.c:656-658 | sorting keeps the members and makes their order strict |
| JsonCompare.CompareDecides | packages/cJSON-v1.7.17/cJSON_Utils.c:605-691 | comparison is equality up to member order at every depth, where it tells the names from each other |
| JsonCompare.DecidesExactly | packages/cJSON-v1.7.17/cJSON_Utils.c:84-110 | comparison without case decides equality for all values over some names if and only if no two of them differ only in case |
| JsonMeaning.LowerIsKept | packages/cJSON-v1.7.17/cJSON_Utils.c:84-110 | names without upper-case letters compare in the same way with case and without |
| JsonMeaning.Find | packages/cJSON-v1.7.17/cJSON.c:1890-1920 | finds the value a name has in the object, if it has one, when it respects case |
| JsonMeaning.Remove | packages/cJSON-v1.7.17/cJSON.c:2233-2270 | removes exactly that name, when it respects case |
| JsonMeaning.Add | packages/cJSON-v1.7.17/cJSON.c:2021-2062 | adds exactly that name and value |
| JsonMeaning.LettersFold | packages/cJSON-v1.7.17/cJSON_Utils.c:83-111 | each of the 26 letters becomes the small letter in the same place of the alphabet, and nothing else changes |
| JsonMeaning.FirstDifference | packages/cJSON-v1.7.17/cJSON_Utils.c:83-111 | the first byte that differs decides, and a string comes before what it is the beginning of |
| MergePatch.MergeInto | packages/cJSON-v1.7.17/cJSON_Utils.c:1322-1380 | the loop over the patch computes the merge function, with case and without |
| MergePatch.MergeIsPatched | packages/cJSON-v1.7.17/cJSON_Utils.c:1322-1380 | merge_patch, when it respects case, is MergePatch of section 2 of RFC 7396, as a map at every depth |
| MergePatch.FollowsExactly | packages/cJSON-v1.7.17/cJSON_Utils.c:1382-1390 | both public variants follow the RFC for all values over some names if and only if the variant tells these names from each other |
| MergePatch.WrongMember | packages/cJSON-v1.7.17/cJSON_Utils.c:1358-1375 | without case, a member goes whose name differs in case from the one that is patched |
| MergePatch.GeneratePatch | packages/cJSON-v1.7.17/cJSON_Utils.c:1392-1472 | the loop over both sorted objects computes the patch function |
| MergePatch.NothingGenerated | packages/cJSON-v1.7.17/cJSON_Utils.c:1464-1469 | where no two names differ only in case, there is no patch if and only if two objects mean the same |
| MergePatch.NothingMeansSameExactly | packages/cJSON-v1.7.17/cJSON_Utils.c:1464-1469 | and that condition on the names is the exact one |
| MergePatch.GenerateMeaning | packages/cJSON-v1.7.17/cJSON_Utils.c:1392-1472 | for names whose order does not depend on case, the patch says which members go, come and differ, and nothing else |
| MergePatch.GenerateExactly | packages/cJSON-v1.7.17/cJSON_Utils.c:1392-1472 | and that condition on the names is the exact one |
| MergePatch.RoundTrip | packages/cJSON-v1.7.17/cJSON_Utils.c:1322-1472 | for such names, applying the generated patch gives the goal if and only if its null members are in the source already |
| MergePatch.RoundTripExactly | packages/cJSON-v1.7.17/cJSON_Utils.c:1322-1472 | the round trip works for all values over some names if and only if any two of the names compare in the same way with case and without |
| MergePatch.RoundTripFails | packages/cJSON-v1.7.17/cJSON_Utils.c:1409-1461 | every pair of names that does not is in values for which it fails |
| MergePatch.RoundTripWithoutNulls | packages/cJSON-v1.7.17/cJSON_Utils.c:1322-1472 | in particular it does for every goal without null members reached through objects |
| MergePatch.UpperCaseIsLost | packages/cJSON-v1.7.17/cJSON_Utils.c:1453-1457 | values that differ only in the case of one name two levels down give no patch |
| MergePatch.CaseIsLost | packages/cJSON-v1.7.17/cJSON_Utils.c:1453-1457 | the same for any two names that differ only in case |
| MergePatch.AllIsLost | packages/cJSON-v1.7.17/cJSON_Utils.c:1409-1451 | from {"a":1,"B":2} to {"B":2} the generated patch leads to {} |
| MergePatch.OrderIsLost | packages/cJSON-v1.7.17/cJSON_Utils.c:1409-1451 | the same for any two names whose order depends on case |
| MergePatch.OrderIsLostBelow | packages/cJSON-v1.7.17/cJSON_Utils.c:1409-1461 | and one level down in every variant |
| JsonPointer.MatchesEncoded | packages/cJSON-v1.7.17/cJSON_Utils.c:121-197 | a token matches exactly the name that it encodes |
| JsonPointer.EncodedNames | packages/cJSON-v1.7.17/cJSON_Utils.c:173-197 | a token that was written unescapes, by section 4 of RFC 6901, to the name |
| JsonPointer.MatchesToken | packages/cJSON-v1.7.17/cJSON_Utils.c:121-155 | a name matches a token if and only if it is well escaped and unescapes to the name |
| JsonPointer.FollowExactly | packages/cJSON-v1.7.17/cJSON_Utils.c:302-347 | following a pointer is its evaluation by section 4 of RFC 6901, unless it does not begin with a slash, on trees whose arrays have fewer than 2^32 elements |
| JsonPointer.NoSlash | packages/cJSON-v1.7.17/cJSON_Utils.c:302-347 | a pointer that does not begin with a slash leads to the whole value |
| JsonPointer.EncodedSize | packages/cJSON-v1.7.17/cJSON_Utils.c:158-171 | the computed length of a token is exact |
| JsonPointer.ComparePointers | packages/cJSON-v1.7.17/cJSON_Utils.c:121-155 | the loop decides the match |
| JsonPointer.DecodeArrayIndex | packages/cJSON-v1.7.17/cJSON_Utils.c:275-300 | the loop decodes an index, with the wrap-around of size_t |
| JsonPointer.IndexRoundTrip | packages/cJSON-v1.7.17/cJSON_Utils.c:275-300 | the decimal form of an index decodes to that index |
| JsonPointer.IndexGrammar | packages/cJSON-v1.7.17/cJSON_Utils.c:275-300 | a token gives the index of section 4 of RFC 6901 if and only if it is not one of those named and its value fits size_t |
| JsonPointer.Accepts | packages/cJSON-v1.7.17/cJSON_Utils.c:275-300 | a token is accepted exactly by the grammar of RFC 6901, except on the tokens named |
| JsonPointer.IndexWraps | packages/cJSON-v1.7.17/cJSON_Utils.c:286-289 | the decimal form of any number is decoded modulo 2^32 |
| JsonPointer.WrapAround | packages/cJSON-v1.7.17/cJSON_Utils.c:286-289 | "4294967296" is decoded as 0 |
| JsonPointer.MisreadExample | packages/cJSON-v1.7.17/cJSON_Utils.c:286-289 | "1:" is decoded as 20 |
| JsonPointer.GetItem | packages/cJSON-v1.7.17/cJSON_Utils.c:302-347 | the loop follows the pointer down the tree |
| JsonPointer.FollowPointer | packages/cJSON-v1.7.17/cJSON_Utils.c:302-347 | following the pointer to a node leads to that node, if comparing tells the names from each other |
| JsonPointer.SearchFinds | packages/cJSON-v1.7.17/cJSON_Utils.c:199-260 | the depth-first search returns the pointer to the target |
| JsonPointer.PointerInverse | packages/cJSON-v1.7.17/cJSON_Utils.c:199-347 | for every node of a tree with unique names, the pointer found for it leads back to it, under the same condition |
| JsonPointer.PointerByRfc | packages/cJSON-v1.7.17/cJSON_Utils.c:199-260 | the pointer found for a node is one to it by RFC 6901 |
| JsonPointer.InvertsExactly | packages/cJSON-v1.7.17/cJSON_Utils.c:199-347 | and for all trees over some names that condition is the exact one |
| JsonPointer.WrongNode | packages/cJSON-v1.7.17/cJSON_Utils.c:121-155 | without case, the pointer to the second of two names that differ only in case leads to the first |
| TarFormat.RawRoundTrip | applications/microtar/microtar.c:30-41 | a record is read back from its 512 bytes |
| TarFormat.FieldsRead | applications/microtar/microtar.c:30-41 | where each field lies in the 512 bytes that are read |
| TarFormat.FieldsWritten | applications/microtar/microtar.c:30-41 | and in those that are written |
| TarFormat.RecordSays | applications/microtar/microtar.c:90-114 | what a header says, from the bytes at these offsets |
| TarFormat.RecordWritten | applications/microtar/microtar.c:116-137 | what is written at these offsets |
| TarFormat.DigitsByPlace | applications/microtar/microtar.c:107-134 | octal digits stand for powers of 8 |
| TarFormat.Permissions | applications/microtar/microtar.c:107-134 | 644 is 420, read and written |
| TarFormat.ChecksumIsSum | applications/microtar/microtar.c:49-60 | the checksum is the sum of all 512 bytes with eight blanks in place of it |
| TarFormat.ComputeChecksum | applications/microtar/microtar.c:49-60 | the two loops sum all bytes with blanks for the checksum |
| TarFormat.ChecksumFits | applications/microtar/microtar.c:131-134 | the checksum has at most six octal digits |
| TarFormat.ChecksumRead | applications/microtar/microtar.c:90-103 | the checksum that was written is the one that is computed when reading |
| TarFormat.HeaderRoundTrip | applications/microtar/microtar.c:90-137 | every header that fits is read back from its record |
| TarFormat.NullRecordRead | applications/microtar/microtar.c:93-96 | a record of zeros is the null record |
| TarFormat.FieldsOfHeader | applications/microtar/microtar.c:116-137 | no field that is written lets sscanf or strcpy run on into the next one |
| TarFormat.NumberAlone | applications/microtar/microtar.c:107-110 | sscanf reads a field that ends as if nothing lay behind it |
| TarFormat.StringAlone | applications/microtar/microtar.c:112-113 | and so does strcpy |
| TarArchive.RoundUp | applications/microtar/microtar.c:44-46 | the next multiple of the record size |
| TarArchive.RoundUp32 | applications/microtar/microtar.c:44-46 | the same in unsigned numbers, 0 for the last lengths below 2^32 |
| TarArchive.RecordAt | applications/microtar/microtar.c:247-258 | header, data and next entry are where the reader looks |
| TarWalk.ThroughExactly | applications/common/common.c:43-123 | untar gets to the null record, with all files whole, if and only if it begins at an offset that can be sought |
| TarWalk.UntarReaches | applications/common/common.c:43-123 | while no position goes beyond 2^32, untar writes the files of exactly the entries that begin at an offset that can be sought, and how it ends |
| TarWalk.FilesExactly | applications/common/common.c:76-92 | then it writes every file whole if and only if every regular entry is below 2 GiB and it and its data begin at such an offset |
| TarWalk.FirstTooLong | applications/microtar/microtar.c:247-258 | behind an entry that is too long nothing is found |
| TarWalk.NeverEnds | applications/common/common.c:55-118 | where mtar_next leads back to the same entry, untar never ends |
| TarWalk.LargestEntry | applications/microtar/microtar.c:247-258 | that is so for an entry of 4 GiB less 512 bytes |
| TarWalk.FindExactly | applications/microtar/microtar.c:261-284 | an entry is found if and only if it is the first of its name and begins at an offset that can be sought; MTAR_ENOTFOUND if and only if there is none and the end can be sought |
| TarWalk.FindStuck | applications/microtar/microtar.c:261-284 | otherwise the search ends with MTAR_ESEEKFAIL, while no position goes beyond 2^32 |
| TarReader.DataRead | applications/microtar/microtar.c:307-337 | the next bytes of the entry are read, for every way of cutting it, and at its end the reader is back at the header |
| TarReader.DataUnread | applications/microtar/microtar.c:319-323 | behind the last header that can be sought the data cannot |
| TarReader.HeaderRead | applications/microtar/microtar.c:287-304 | at an entry its header is read and the position stays; at the end the null record |
| TarReader.NextRead | applications/microtar/microtar.c:247-258 | next goes to where the following entry begins, modulo 2^32; if that cannot be sought, the next header cannot be read |
| TarReader.Tar.Seek | applications/microtar/microtar.c:233-237 | an offset that is not a long is refused, and the position is set all the same |
| TarReader.Tar.ReadHeader | applications/microtar/microtar.c:287-304 | the new state and the result, error cases included |
| TarReader.Tar.Next | applications/microtar/microtar.c:247-258 | the new state and the result, error cases included |
| TarReader.Tar.ReadData | applications/microtar/microtar.c:307-337 | the new state and the result, error cases included |
| TarReader.Tar.ReadAll | applications/common/common.c:84-99 | all data of an entry, with a buffer of any size, if they can be sought |
| TarReader.Tar.Untar | applications/common/common.c:43-123 | any number of turns of the loop write the files and end as the walk over the entries says |
| TarReader.Tar.Find | applications/microtar/microtar.c:261-284 | any number of turns of the search answer as the walk over the entries says |
| TarReader.Tar.FindAndRead | applications/microtar/microtar.c:261-337 | and all data of the entry that is found |
| TarWriter.Writer.WriteHeader | applications/microtar/microtar.c:340-346 | the record of the header is appended |
| TarWriter.Writer.WriteData | applications/microtar/microtar.c:374-387 | data is appended, and padded to a full record when it is complete, also when the position has wrapped |
| TarWriter.Writer.WriteItem | applications/microtar/microtar.c:340-387 | an entry is appended, its data in any non-empty pieces |
| TarWriter.Writer.Finalize | applications/microtar/microtar.c:390-393 | two records of zeros are appended |
| TarWriter.Pack | applications/microtar/microtar.c:340-393 | the stream is the archive of the entries |
| TarWriter.PackAndUntar | applications/common/common.c:43-123 | what was packed is unpacked as the walk says; as it was, in any chunking, if the end of the archive can be sought |
| TarWriter.PackAndFind | applications/microtar/microtar.c:261-393 | what was packed is found by name, the first entry of that name, with its data, if they can be sought |
| TarWriter.BigFileIsLost | applications/common/common.c:76-92 | a file of 2 GiB can be packed and is unpacked as an empty one, and what lies behind it is lost |
| TarWriter.ThirdIsLost | applications/microtar/microtar.c:183-184 | of three files of 1 GiB the third is lost |
| TarWriter.UntarNeverEnds | applications/microtar/microtar.c:247-258 | on a file of 4 GiB less 512 bytes untar never ends |
| Crc32.TableIsRight | applications/common/common.c:199-232 | every entry of the table is eight bits of the division |
| Crc32.ByteAtOnce | applications/common/common.c:234-240 | one turn through the table does eight bits |
| Crc32.SoftCrc32 | applications/common/common.c:234-240 | the result is the bit-by-bit CRC-32 of section 8 of RFC 1952 |
| Crc32.CrcJoin | applications/common/common.c:265-274 | the CRC of a whole is the CRC of its end begun with the CRC of its beginning |
| Crc32.CrcFile | applications/common/common.c:265-274 | the fold over any pieces is the CRC of the file |
| Crc32.CheckValue | applications/common/common.c:234-240 | the CRC of "123456789" is 0xCBF43926 |

## Left out

- Mutex ceilings, mutex deletion and detaching: hand-off does not raise the new owner to a ceiling and deletion does not propagate, so the exact equations do not cover them.
- The pointers of `rt_list_t`: wait lists are sequences of threads, in the order of the list.
- PriorityInheritance.Kernel.Delete: a thread that closes itself is marked as closed after the releases, not before; they do not look at the mark.
- PriorityInheritance.Kernel.Timeout: after a timeout only the inequalities are claimed for the stale mutex and its owner, because the source recomputes late and only when two priorities match.
- Lengths of time: a time limit ends a wait at any moment. A thread that was woken may do anything that an awake thread may do.
- MessageQueue.Queue.constructor: takes the number of slots; `MessageQueue.Init` divides the pool.
- Semaphore.Sem.Take: the position in the wait list is a parameter, so that both orders, by arrival and by priority, are covered. The same holds for `Event.Group.Receive`.
- Floating-point numbers and locale: JsonText.ParseNumber answers `OutOfModel` for a numeral with a fraction or an exponent or beyond 32 bits.
- JsonParser.ParseBuffer.ReadNumber: copying and `strtod` are one loop over the digits, and what `ParseNumber` leaves out is reported as `Unsupported`.
- JsonPrinter.PrintBuffer.PrintNumber: prints 32-bit integers, the `%d` branch; `%1.15g` and `%1.17g` are left out with the floating-point numbers.
- Siblings.Build: `parse_array`, `parse_object` and `cJSON_Duplicate` link nodes in the loop modelled here, while `JsonParser.ParseBuffer.ReadItems` and `ReadMembers` collect the same elements in a sequence; that both are one loop is not proved.
- JsonCompare.Sorted: members whose names the comparison does not tell from each other may lie in another order in the code (`SortList.SortIsSorted` is for names that it does tell apart). No result depends on that order; the failing examples have at most one such member in an object.
- Raw items, reference items, `cJSON_Minify`, error positions of failed parses, and text without a terminating NUL.
- MergePatch.MergeInto: edits the tree as a value; the links are the subject of `Siblings`. The same holds for `GeneratePatch` and `CompareJson`.
- Restoring the head's `prev` after `sort_list`: the source does not, so edits after sorting are not claimed.
- JSON Patch (`apply_patch`, `create_patches`) and `decode_pointer_inplace`, which does not invert the encoder.
- TarFormat.ReadOctal: signs in numeric fields, and numbers beyond 32 bits, are not modelled. On a record with a field that does not end within itself `TarFormat.Decode` answers `Unmodelled`; what sscanf and strcpy make of it is not modelled.
- TarReader.Tar.Untar: once positions have wrapped to a place where no entry begins, only the files written before are known.
- The file system under `untar` and `crcfile`: files are byte sequences; names are not joined to directories.
- Display, fonts, sensors, power management, the network client, configuration files: hardware, user interface or glue.
