# Proofs about the coroutine server's scheduler, timers, pool and byte-level loops

The server is a chat and face-login service on a vendored copy of libco. These files model the parts of
it that keep state (the coroutine switch on shared stacks, the timing wheels, the event loop with its
poll calls, condition variables and mutex, the database connection pool, the cutting of a byte stream
into messages, coroutine-local environment variables, and the hooked write and poll) and prove what
they are for.

Most components come in three layers. A module of values and functions says what each operation does.
Lemmas prove properties of these functions over all inputs and all runs. A class then keeps the state
in fields, arrays and objects that its methods update in place, step by step as the program does, and
the contract of every method equates its effect with the function, so that the lemmas hold for it.
Doubly linked nodes appear only in `IntrusiveList`, which is about the list operations alone and which
no other module uses: `EventLoopClass` keeps its lists as sequences of identifiers and its waiting items
in a map of immutable values, so that it shows the order of the updates but not the linking.
`Basics` holds what several modules share.

| component | functions and lemmas | objects |
|---|---|---|
| shared-stack switching | `SharedStack`, `SharedStackProof`, `SharedStackTheorems`, `SharedStackExact`, `SharedStackRelease`, `SharedStackLoss`, `CoSwitchTurns` | `CoSwitch` |
| hierarchical timing wheel | `TimingWheel`, `TimingWheelProof`, `TimingWheelTheorems`, `TimingWheelOrder` | `TimeWheelClass` |
| libco timeout wheel | `LibcoWheel` | `LibcoTimeout` |
| intrusive lists | | `IntrusiveList` |
| event loop, poll, condition variables | `EventLoop`, `EventLoopLists`, `EventLoopProof`, `EventLoopSteps`, `EventLoopTiming`, `EventLoopTheorems`, `EventLoopWakes`, `EventLoopEpoll`, `EventLoopLostSignal`, `EventLoopUnclamped`, `EventLoopDeadlines`, `EventLoopOrder` | `EventLoopClass` |
| coroutine mutex | `CoMutex` | `CoMutexClass` |
| connection pool | `DbPool` | `DbPoolClass` |
| message reassembly | `Frames` | `Connection` |
| coroutine environment | `CoEnv` | `CoEnvClass` |
| hooked write, send and poll | `SysWrappers`, `PollCount` | `SysWrappers` |

## What the proofs say, and where the code does not do what one might expect

* Shared stacks look private over every schedule, with two qualifications. `coctx_make` writes the
  address of the entry function near the top of the shared buffer before the present occupant has been
  saved. So what a coroutine gets back is byte for byte what it left, with that word overwritten exactly
  if another coroutine was first started on its stack while it was the occupant
  (`SharedStacksLookPrivateExactly`, `FirstStartStampsOccupant`); outside the word it is always what it
  left (`SharedStacksLookPrivate`). And resetting or releasing the occupant of a stack can cost another
  coroutine saved from that stack its bytes: the copy back needs a previous occupant, so a coroutine
  that is switched to while the stack is vacant finds what the released one left (`ReleasedRun`).
  `ReleaseCanLose` gives such a run from every initial state with an unused stack in a share group. If
  some other coroutine is switched in on the stack before, the image does come back
  (`RestoreIffOccupied`). After any run a release is safe for every continuation of the program exactly
  if no other coroutine waits to come back to the stack (`ReleaseSafeIff`, `ReleaseSafeInRuns`), byte for
  byte as well as outside the entry word.
* The hierarchical wheel fires a timer once, at its tick, across wraps of the 32-bit clock, unless its
  first list is index 0 of level 0, 1 or 2. `timer_shift` never drains these lists, so such a timer stays
  there for ever (`TimerFate`); `LostIff` says for which delays this happens. `add_timer` leaves the
  cancel flag as `malloc` returns it: if it happens to be set, the timer is never called (`AddedFate`).
* The millisecond wheel is a calendar exactly while the number of lists to take fits an int; for a longer
  clock step there are items on the wheel for which it takes less than what is due (`CalendarIff`).
* A condition waiter whose deadline the millisecond wheel clamped can be taken from the wheel early. If
  it is signalled while it waits in that drain, the signal is lost on it: it leaves the queue, goes back
  to the wheel, and only its deadline can resume it (`SignalReaches`, `SignalLost`,
  `OrphanWaitsForDeadline`). `SignalIsLost` gives a run from a fresh event loop, on a wheel of any
  size from two lists up, in which a coroutine resumed in the drain sends that signal. A wait whose deadline lies within
  the window when it starts is not affected, in any run (`UnclampedIsHeard`).
* A waiting poll keeps its descriptors registered exactly as long as no other coroutine starts to poll
  one of them (`PollRegistersIff`): the second registration fails unnoticed, so the second poll hears
  nothing (`SecondIsDeaf`), and the first of the two to return takes the registration away from the
  other (`ReturnDeafens`).
* The connection count stays within the configured maximum exactly if that is at least two
  (`ConnectionsConserved`). If every initial connect fails and the maximum is at most two, no thread ever
  gets a connection; in every other case some thread can (`StarvedIff`).
* The reassembly loop ends on a buffer exactly if every length it meets is positive. A length of zero
  hands out the same empty message for ever without changing the buffer, a negative one copies from
  outside the buffer; which of them happens depends on the first such length (`FateIff`, `ZeroRepeats`,
  `StuckIff`). The message buffer suffices up to messages of seven reads and one byte
  (`BufferSuffices`, `LongerOverflows`).
* The hooked poll is not transparent for duplicate descriptors: the caller's old revents stay in place
  exactly if there are duplicates and the scheduler has nothing to report or fails (`StaleIff`,
  `OldEventTold`), and errors and hang-ups that no slot asked for are masked away (`HangupHidden`).
  `TransparentIff` says for one call when a slot is told what it would be told on its own, and
  `TransparentForAll` which lists of slots are safe to pass. The result counts descriptors, not slots;
  `CountsIff` says for which lists that makes no difference.

## Model

| member | source | states |
|---|---|---|
| SharedStackTheorems.SharedStacksLookPrivate | src/coroutine/co_routine.cpp:531-679 | over every schedule of creates, nested resumes, yields, ends, resets and releases that respects the side condition, the coroutine that has control sees the bytes from its stack pointer up that it left when it last lost control, as on a machine without shared stacks, outside the entry word |
| SharedStackExact.SharedStacksLookPrivateExactly | src/coroutine/co_routine.cpp:531-679 | over every such schedule, first starts on occupied stacks included: it sees byte for byte what it left, with the entry word written over if and only if another coroutine was first started on its stack while it was the occupant |
| SharedStackTheorems.MakeWritesTopWord | src/coroutine/coctx.cpp:110-118 | making a coroutine writes the entry address to the topmost 16-aligned 8-byte word below the end of its stack, and changes no other byte |
| SharedStackTheorems.FirstStartStampsOccupant | src/coroutine/coctx.cpp:110-125 | a first start on an occupied stack, by whatever coroutine, the occupant included, saves for the occupant what it had with that topmost aligned word overwritten, hence its exact bytes if and only if the word already held the entry address |
| SharedStackTheorems.RestoreIffOccupied | src/coroutine/co_routine.cpp:666-678 | a saved coroutine gets its image back whatever is on the stack if and only if the stack has an occupant when it is switched to |
| SharedStackRelease.ReleaseSafeIff | src/coroutine/co_routine.cpp:531-595 | releasing or resetting the occupant of a stack, whatever bytes it left there, is safe if and only if no other coroutine waits to come back to that stack; safe means that in every further legal run whoever has control sees the bytes it left, byte for byte up to first starts, or outside the entry word |
| SharedStackLoss.ReleaseSafeInRuns | src/coroutine/co_routine.cpp:531-595 | the same at the end of every legal run from an initial state |
| SharedStackRelease.ReleaseSafe | src/coroutine/co_routine.cpp:531-595 | a release or reset of any coroutine off the call stack, occupant or not, is safe if nobody else's image was saved from its stack |
| SharedStackRelease.ReleaseMisses | src/coroutine/co_routine.cpp:545-546 | otherwise there are bytes that the occupant may have left and a run, of yields and one resume, at whose end a coroutine has control and does not see its bytes |
| SharedStackRelease.ReleasedRun | src/coroutine/co_routine.cpp:545-546 | a run: the occupant leaves any content and yields, is released, and a coroutine saved from that stack is resumed while the stack is vacant; it sees that content, hence its own bytes only if they are the same |
| SharedStackLoss.ReleaseCanLose | src/coroutine/co_routine.cpp:461-606 | from every initial state with an unused stack in a share group there is a legal run of two coroutines on that stack after which releasing one and resuming the other shows the other bytes it did not leave |
| SharedStackProof.StepKeepsRel | src/coroutine/co_routine.cpp:461-679 | one turn of the real machine is one turn of a machine that only remembers what each coroutine left: the bytes outside the entry word, or all of them, with the entry word that a first start writes over |
| SharedStackProof.SwapKeepsImages | src/coroutine/co_routine.cpp:635-679 | a switch keeps for every suspended coroutine an image on its stack or in its save buffer, and puts the one switched to on its stack |
| SharedStackProof.ResumeKeepsRel | src/coroutine/co_routine.cpp:558-571 | resume, first or later, keeps the relation to the reference machine |
| SharedStackProof.YieldKeepsRel | src/coroutine/co_routine.cpp:597-606 | yield keeps the relation to the reference machine |
| SharedStackProof.FinishKeepsRel | src/coroutine/co_routine.cpp:444-457 | the end of a coroutine keeps the relation to the reference machine |
| SharedStackProof.ResetKeepsRel | src/coroutine/co_routine.cpp:576-595 | a reset under the side condition changes nothing for the others |
| SharedStackProof.FreeKeepsRel | src/coroutine/co_routine.cpp:531-554 | a release under the side condition changes nothing for the others |
| SharedStackProof.CreateKeepsRel | src/coroutine/co_routine.cpp:461-519 | creating a coroutine on a shared or a private stack changes nothing for the others |
| SharedStackTheorems.CreateThenFree | src/coroutine/co_routine.cpp:461-554 | creating a coroutine, with a stack of its own or on a shared one, and releasing it again gives back the same state |
| SharedStackTheorems.ResetIsNew | src/coroutine/co_routine.cpp:576-595 | a reset makes a coroutine that was started as new, so that it can be resumed from the start, vacates its stack and leaves everything else as it was; it does nothing to main or one that was not started |
| CoSwitchTurns.ResumeAllowed | src/coroutine/co_routine.cpp:558-571 | at every turn that the relation covers, the copies of a resume stay within the buffers |
| CoSwitchTurns.YieldAllowed | src/coroutine/co_routine.cpp:597-606 | the same for a yield and for the end of a coroutine |
| CoSwitch.Environment.SaveStackBuffer | src/coroutine/co_routine.cpp:618-633 | the save buffer becomes the bytes from the stack pointer to the end of the stack, nothing else changes |
| CoSwitch.Environment.SwapOut | src/coroutine/co_routine.cpp:643-663 | the new state up to the context switch: pending and previous occupant noted, occupant replaced, the previous one saved if it is another |
| CoSwitch.Environment.SwapIn | src/coroutine/co_routine.cpp:666-678 | the new state behind the context switch: the saved image copied back if there was another occupant |
| CoSwitch.Environment.CoSwap | src/coroutine/co_routine.cpp:635-679 | both halves, after the stack pointer of the current coroutine is stored; a first entry skips the second half |
| CoSwitch.Environment.CoMake | src/coroutine/coctx.cpp:110-125 | the entry word is written into the buffer and the coroutine is started |
| CoSwitch.Environment.CoResume | src/coroutine/co_routine.cpp:558-571 | the new state is that of the resume function |
| CoSwitch.Environment.CoYield | src/coroutine/co_routine.cpp:597-606 | the new state is that of the yield function |
| CoSwitch.Environment.CoFinish | src/coroutine/co_routine.cpp:444-457 | the coroutine is marked as ended and yields |
| CoSwitch.Environment.CoReset | src/coroutine/co_routine.cpp:576-595 | flags and save buffer are cleared and the occupied stack is vacated, unless the coroutine is main or not started |
| CoSwitch.Environment.CoFree | src/coroutine/co_routine.cpp:531-550 | the coroutine goes, with its private stack, or vacating a shared one |
| CoSwitch.Environment.constructor | src/coroutine/co_routine.cpp:742-760 | the main coroutine is alone on the call stack with a stack of its own: an initial state of the machine, so that the theorems about runs apply to what the methods do from here |
| CoSwitch.Environment.AllocStackMem | src/coroutine/co_routine.cpp:269-277 | a new stack without an occupant, for a share group |
| CoSwitch.PoolKeepsInitial | src/coroutine/co_routine.cpp:279-294 | stacks that are allocated before any coroutine is created leave the state initial |
| CoSwitch.StackSize | src/coroutine/co_routine.cpp:470-483 | whole pages, the default for a size that is not positive, at most 8 MB, and less than a page more than asked for |
| CoSwitch.ShareStack.GetStackMem | src/coroutine/co_routine.cpp:296-306 | the stack at the counter modulo the size of the group; the counter is an unsigned int and wraps |
| CoSwitch.RoundRobin | src/coroutine/co_routine.cpp:296-306 | while the counter does not wrap, as many creations in a row as there are stacks get different stacks |
| CoSwitch.Environment.CreateInGroup | src/coroutine/co_routine.cpp:497-518 | a new coroutine on the stack that the group hands out next |
| CoSwitch.Environment.CreateShared | src/coroutine/co_routine.cpp:497-518 | a new coroutine, not started, on a stack of a share group |
| CoSwitch.Environment.CreatePrivate | src/coroutine/co_routine.cpp:461-519 | a new coroutine with a stack of its own, of the size asked for after defaulting and rounding |
| TimingWheelTheorems.TimerFate | src/timewheel/timewheel.cpp:27-69 | for every run of adds, cancels and updates across any number of clock wraps: a timer whose first list is live is queued once until its tick and called there once unless cancelled; one whose first list is dead stays in it and never runs |
| TimingWheelTheorems.AddedFate | src/timewheel/timewheel.cpp:27-43 | the same whatever the uninitialised cancel flag of the new node holds, except that a timer whose flag happens to be set is never called |
| TimingWheelTheorems.CalledAtOnce | src/timewheel/timewheel.cpp:34-39 | a delay of at most zero calls the function once, at the present tick, and queues nothing |
| TimingWheelOrder.CalledInTurn | src/timewheel/timewheel.cpp:120-181 | over every run, two timers that wait in one list for the same tick stay together in their order through every cascade until they are called, in this order, unless one is cancelled |
| TimingWheelOrder.AddedInTurn | src/timewheel/timewheel.cpp:27-43 | two timers added one right after the other with the same delay are called in this order |
| TimingWheelTheorems.LostIff | src/timewheel/timewheel.cpp:120-136 | exactly which delays at which clock readings are lost |
| TimingWheelTheorems.LostExample | src/timewheel/timewheel.cpp:120-170 | a concrete clock reading and delay that are lost |
| TimingWheelTheorems.UpdateTracks | src/timewheel/timewheel.cpp:62-69 | one update calls a live timer at its own tick and at no other, and leaves a dead one where it is |
| TimingWheelTheorems.MoveListTracks | src/timewheel/timewheel.cpp:137-147 | cascading a list only moves timers: each is queued once before and once after |
| TimingWheelTheorems.ShiftTracks | src/timewheel/timewheel.cpp:148-170 | the clock step and cascade put every waiting timer where its due tick belongs |
| TimingWheelProof.DrainedStops | src/timewheel/timewheel.cpp:155-168 | the loop that looks for the list to cascade stops at level 3 at the latest for every nonzero clock |
| TimingWheelProof.DrainedExactly | src/timewheel/timewheel.cpp:148-170 | a list that holds timers is cascaded at the tick at which the block of their due ticks begins, and index 0 of the lower levels never is |
| TimingWheelProof.CascadeLowers | src/timewheel/timewheel.cpp:137-147 | a cascaded timer goes to a strictly lower level, and never to one of the lists that are not drained |
| TimingWheel.PlaceOk | src/timewheel/timewheel.cpp:120-136 | the list chosen from the 32-bit distance is the one for the unwrapped due tick |
| TimeWheelClass.UpdateKeepsOrder | src/timewheel/timewheel.cpp:62-69 | after an update every list holds only timers that belong to it, and the near list of the present tick is empty |
| TimeWheelClass.AddTimerKeepsOrder | src/timewheel/timewheel.cpp:27-43 | adding a timer with any delay keeps every list in order |
| TimeWheelClass.CancelKeepsOrder | src/timewheel/timewheel.cpp:70-73 | so does cancelling one |
| TimeWheelClass.TimeWheel.AddNode | src/timewheel/timewheel.cpp:120-136 | the node is appended to the list of its distance, no other list changes |
| TimeWheelClass.TimeWheel.AddTimer | src/timewheel/timewheel.cpp:27-43 | a delay of at most zero calls the function at once; otherwise the node is queued, cancelled already if its memory happened to hold a set flag |
| TimeWheelClass.TimeWheel.DelTimer | src/timewheel/timewheel.cpp:70-73 | the timer is cancelled and stays queued |
| TimeWheelClass.TimeWheel.MoveList | src/timewheel/timewheel.cpp:137-147 | the loop re-adds every node of the list and leaves it empty |
| TimeWheelClass.TimeWheel.Cascade | src/timewheel/timewheel.cpp:150-169 | at most one list is cascaded, the one of the clock |
| TimeWheelClass.TimeWheel.TimerShift | src/timewheel/timewheel.cpp:148-170 | the clock moves by one with wrap-around and the list of the new reading is cascaded |
| TimeWheelClass.TimeWheel.DispatchList | src/timewheel/timewheel.cpp:171-181 | the functions of the list are called in order, cancelled ones skipped, and the list is empty |
| TimeWheelClass.TimeWheel.TimerExecute | src/timewheel/timewheel.cpp:182-194 | the near list of the present tick is dispatched |
| TimeWheelClass.TimeWheel.TimerUpdate | src/timewheel/timewheel.cpp:62-69 | dispatch, shift and dispatch again |
| TimeWheelClass.TimeWheel.ExpireTimer | src/timewheel/timewheel.cpp:90-101 | the wheel moves on by as many ticks as the clock reading, if that moved forward by less than 2^31 (modulo 2^32), and is unchanged otherwise; every timer that waited in a live list, was not cancelled and whose tick has passed by then has been called once, at its tick; every timer has the fate it should have |
| LibcoWheel.TakeAllIsCalendar | src/coroutine/co_routine.cpp:413-443 | exactly the items with a slot time up to now are taken, by slot time and in order of arrival; the others keep their slot time, the list for now is empty, also after more than a whole window |
| LibcoWheel.CalendarIff | src/coroutine/co_routine.cpp:421-441 | for every size, start and clock reading: this holds whatever is on the wheel if and only if the clock has not gone back and the int count equals the number of lists that are due |
| LibcoWheel.AddIsCalendar | src/coroutine/co_routine.cpp:378-412 | a start of zero is set to the clock; an item is refused if the clock is behind the window or its deadline has passed; otherwise it goes to its deadline or the last time of the window, and nothing else changes |
| LibcoWheel.StartOfZero | src/coroutine/co_routine.cpp:380-384 | with a start of zero the window begins at the clock in the first list: where an item goes, and what is taken |
| LibcoWheel.OverflowSteps | src/coroutine/co_routine.cpp:425-440 | a clock step for which the int count is negative changes nothing; one for which it is zero takes nothing but moves the window, and its first list back by one |
| LibcoWheel.DrainTakes | src/coroutine/co_routine.cpp:434-438 | the loop over ring indexes takes the lists of consecutive times |
| LibcoTimeout.Timeout.AddTimeout | src/coroutine/co_routine.cpp:378-412 | the array is updated as the function says, zero start included, with the line number of the failed check as error code |
| LibcoTimeout.Timeout.TakeAllTimeout | src/coroutine/co_routine.cpp:413-443 | the taken items and the new ring, for any clock reading, zero start and overflowing counts included |
| LibcoTimeout.Timeout.Drain | src/coroutine/co_routine.cpp:434-438 | the loop that joins and empties the lists |
| IntrusiveList.List.AddTail | src/coroutine/co_routine.cpp:192-211 | an unlinked node is appended; a linked one changes nothing |
| IntrusiveList.List.PopHead | src/coroutine/co_routine.cpp:213-236 | the first node is dropped and unlinked |
| IntrusiveList.RemoveFromLink | src/coroutine/co_routine.cpp:152-189 | the node is deleted from either end or the middle of its list and unlinked |
| IntrusiveList.List.Join | src/coroutine/co_routine.cpp:239-266 | the other list is appended, its nodes are relabelled, and it is empty |
| IntrusiveList.ListsAreApart | src/coroutine/co_routine.cpp:151-266 | no node is in two lists or twice in one |
| EventLoopTheorems.ResumedOnce | src/coroutine/co_routine.cpp:793-869 | in every run, for any clock, a waiter is still waiting for the same thing and was not resumed, or was resumed exactly once, not by a deadline that lay ahead |
| EventLoopWakes.DeadlinesMet | src/coroutine/co_routine.cpp:825-859 | nobody is resumed by a deadline that lies ahead, and when an iteration has drained its list nobody whose deadline has come still waits, clamped deadlines and re-queueing included |
| EventLoopWakes.DeadlineWakes | src/coroutine/co_routine.cpp:825-859 | the waiter of a deadline that the last iteration has reached has been resumed exactly once |
| EventLoopDeadlines.PollWaitsUntil | src/coroutine/co_routine.cpp:923-987 | a poll that starts at time t waits with the deadline t + timeout, or t + INT_MAX for a negative timeout |
| EventLoopDeadlines.CondWaitsUntil | src/coroutine/co_routine.cpp:1149-1176 | a condition wait that starts at time t goes to the end of the queue, with the deadline t + ms if ms is positive and with none otherwise |
| EventLoopDeadlines.PollOnTime | src/coroutine/co_routine.cpp:800-998 | over any run: a poll is not resumed by its deadline before t + timeout, and when an iteration from then on has drained its list it has been resumed once |
| EventLoopDeadlines.CondOnTime | src/coroutine/co_routine.cpp:800-1176 | the same for a condition wait with a positive timeout |
| EventLoopWakes.RequeuesBounded | src/coroutine/co_routine.cpp:843-851 | a waiter put back k times on a wheel of n slots satisfies k(n-1) < deadline - start |
| EventLoopWakes.ReadyIsWoken | src/coroutine/co_routine.cpp:836-859 | whoever is in the active list by an event, a signal or a deadline that has come has been resumed once when that list is next empty |
| EventLoopOrder.ResumedInOrder | src/coroutine/co_routine.cpp:836-859 | of two items in the active list the first is resumed first, over any run, whatever is added, unlinked or put back in between |
| EventLoopOrder.SignalledInOrder | src/coroutine/co_routine.cpp:1120-1132 | two signals put their waiters in the active list in this order |
| EventLoopOrder.BroadcastInOrder | src/coroutine/co_routine.cpp:1133-1146 | a broadcast puts the waiters of a queue in the active list in the order of the queue |
| EventLoopOrder.EventsInOrder | src/coroutine/co_routine.cpp:811-822 | polls with events go to the active list in the order of their first events |
| EventLoopOrder.TimeoutsBehind | src/coroutine/co_routine.cpp:826-836 | items taken from the wheel go behind those, in the order in which they were taken |
| EventLoopWakes.PutBackCounts | src/coroutine/co_routine.cpp:843-851 | a round of the drain puts the head back, counting it once, exactly if it was taken before its deadline, and leaves every other waiter alone |
| EventLoopWakes.SignalReaches | src/coroutine/co_routine.cpp:1120-1132 | a signal pops the first waiter, and that waiter is ready unless it has been taken from the wheel ahead of its deadline, in which case only its deadline can resume it |
| EventLoopWakes.OrphanWaitsForDeadline | src/coroutine/co_routine.cpp:836-859 | a waiter on which a signal was lost is resumed by its deadline and by nothing else, in every run |
| EventLoopWakes.UnclampedIsNeverEarly | src/coroutine/co_routine.cpp:401-409 | an item in the slot of its own deadline is never taken early |
| EventLoopUnclamped.UnclampedIsHeard | src/coroutine/co_routine.cpp:836-1176 | a condition wait that starts with its deadline within the window: in every later run it is in its queue or ready as long as it waits, so no signal is lost on it |
| EventLoopWakes.SignalLost | src/coroutine/co_routine.cpp:836-859 | in a drain, when the coroutine at the head of the active list is resumed and signals a queue whose first waiter was taken ahead of its deadline, the signal is lost |
| EventLoopLostSignal.SignalIsLost | src/coroutine/co_routine.cpp:793-869 | a legal run from a fresh loop, on every wheel of at least two slots and for every clamped timeout: two waits, one iteration a window later, a resume that signals, a put-back; it ends with the waiter outside its queue and back on the wheel |
| EventLoopWakes.PollResult | src/coroutine/co_routine.cpp:772-790 | a poll reports the number of events that one epoll_wait had for its descriptors and for each descriptor the bits of its last event, nothing exactly when its deadline resumed it |
| EventLoopTheorems.BeginTells | src/coroutine/co_routine.cpp:804-834 | after the loop over the epoll results every waiting item has noted the events for its descriptors and no others |
| EventLoopEpoll.InOneList | src/coroutine/co_routine.cpp:793-869 | in every state a waiter is once in the one list its link names, at most once in its condition queue, and nowhere else |
| EventLoopEpoll.NothingLeft | src/coroutine/co_routine.cpp:1000-1025 | after its wait call has returned an item is in no list, in no condition queue and behind no epoll registration |
| EventLoopEpoll.RunRegisters | src/coroutine/co_routine.cpp:945-981 | if no two coroutines poll one descriptor at a time, every waiting poll keeps all its descriptors registered |
| EventLoopEpoll.PollRegistersIff | src/coroutine/co_routine.cpp:945-1014 | a poll, accepted or refused by the wheel, leaves every waiting poll registered if and only if it shares no descriptor with one that waits |
| EventLoopEpoll.SecondIsDeaf | src/coroutine/co_routine.cpp:962-981 | a run from a fresh loop in which two coroutines poll one descriptor and no event can reach the second |
| EventLoopEpoll.ReturnDeafens | src/coroutine/co_routine.cpp:1006-1012 | when one of two polls that share a descriptor returns, no event for it can reach the other any more |
| EventLoopTiming.StepTimed | src/coroutine/co_routine.cpp:378-443 | every step keeps the relation between an item's slot, its slot time and its deadline while the window moves on |
| EventLoopTiming.StepInv | src/coroutine/co_routine.cpp:793-869 | every step, for any clock, keeps the invariant about lists, queues, registrations and past resumes |
| EventLoopSteps.PopInv | src/coroutine/co_routine.cpp:836-859 | a round of the drain keeps the invariant, whether it resumes or puts back |
| EventLoopProof.BeginInv | src/coroutine/co_routine.cpp:804-834 | the start of an iteration keeps the invariant for any epoll results and clock reading |
| EventLoopSteps.BroadcastInv | src/coroutine/co_routine.cpp:1133-1146 | a broadcast keeps the invariant and empties the queue |
| EventLoopClass.Scheduler.RemoveFromLink | src/coroutine/co_routine.cpp:152-189 | the item leaves the list its link names |
| EventLoopClass.Scheduler.OnPollPrepare | src/coroutine/co_routine.cpp:772-790 | the event is counted and its bits noted for the descriptor, and the first one moves the poll to the active list |
| EventLoopClass.Scheduler.Iterate | src/coroutine/co_routine.cpp:800-834 | the loops over epoll results and timeouts are the begin step |
| EventLoopClass.Scheduler.DrainOne | src/coroutine/co_routine.cpp:837-858 | one round of the drain is the pop step |
| EventLoopClass.Scheduler.Resume | src/coroutine/co_routine.cpp:1000-1025 | the returning wait call removes its item everywhere and hands out the count and the revents |
| EventLoopClass.Scheduler.Poll | src/coroutine/co_routine.cpp:917-998 | a zero timeout, or a single descriptor that epoll refuses, goes to the system's poll and changes nothing; otherwise registration, deadline and entry on the wheel, or -1 with the registrations undone |
| EventLoopClass.Scheduler.CondTimedWait | src/coroutine/co_routine.cpp:1149-1176 | entry in the queue and, with a positive timeout, on the wheel |
| EventLoopClass.Scheduler.CondSignal | src/coroutine/co_routine.cpp:1120-1132 | the signal step |
| EventLoopClass.Scheduler.CondBroadcast | src/coroutine/co_routine.cpp:1133-1146 | the loop is the broadcast function and leaves the queue empty |
| CoMutex.MutualExclusion | src/coroutine/co_comm.cpp:10-22 | in every run at most one call owns the mutex or is being handed it, the counter counts owner, hand-over and queue, and calls are served strictly in the order they were made |
| CoMutex.WaitersAreServed | src/coroutine/co_comm.cpp:19-22 | if somebody waits and nobody owns the mutex, one waiter has been handed it and is resumed once by the time the active list is next empty |
| CoMutex.ActKeeps | src/coroutine/co_comm.cpp:10-22 | lock, unlock and every step of the rest of the program keep the mutex invariant |
| CoMutex.NewKeeps | src/coroutine/co_comm.cpp:3-6 | a new mutex on a new event loop satisfies the mutex invariant |
| CoMutexClass.LockObject.CoLock | src/coroutine/co_comm.cpp:10-17 | the new state is that of the lock function; the call waits exactly if the counter was positive |
| CoMutexClass.LockObject.CoUnLock | src/coroutine/co_comm.cpp:19-22 | the new state is that of the unlock function |
| DbPool.NoLostWakeup | src/dbpool/DBPool.cpp:542-637 | in every interleaving with spurious and timed wake-ups, before abort, a thread is blocked without a notification only while the free connections number at most the notified threads and the pool cannot grow |
| DbPool.ConnectionsConserved | src/dbpool/DBPool.cpp:511-637 | free and used connections are distinct, each used one has one holder, their number is the count less the failed initial connects, and the count stays within the maximum exactly if that is at least two |
| DbPool.StarvedIff | src/dbpool/DBPool.cpp:511-613 | no thread gets a connection in any run if and only if every initial connect failed and the maximum is at most the initial count |
| DbPool.HandedOutOnce | src/dbpool/DBPool.cpp:542-613 | whoever gets a connection gets one that nobody holds |
| DbPool.TimeUpLeaves | src/dbpool/DBPool.cpp:571-586 | in every state that a run reaches before abort, a waiting thread whose time is up has a step after which it no longer waits: with the first free connection, or with nothing exactly if none is free |
| DbPool.UntimedWaits | src/dbpool/DBPool.cpp:557-566 | over every run before abort a thread that gave no timeout leaves its wait only with a connection |
| DbPool.WaitsTimed | src/dbpool/DBPool.cpp:554-571 | a call that has to wait has a time limit exactly if its timeout is positive |
| DbPool.DoubleReturn | src/dbpool/DBPool.cpp:615-637 | returning a connection a second time in a row changes nothing |
| DbPool.TakeThenReturn | src/dbpool/DBPool.cpp:607-637 | taking and returning a connection gives back the same used connections, with the connection at the end of the free list |
| DbPool.AbortFreesWaiters | src/dbpool/DBPool.cpp:498-587 | after the destructor nobody is blocked without a notification, every waiting thread leaves with nothing, and no new call gets anything or waits |
| DbPool.ClosedKeepsReturns | src/dbpool/DBPool.cpp:498-509 | the destructor drops the free connections; those free later are ones that were held then and came back |
| DbPoolClass.CDBPool.constructor | src/dbpool/DBPool.cpp:511-529 | initial connects are made until one fails |
| DbPoolClass.CDBPool.GetDBConn | src/dbpool/DBPool.cpp:542-613 | refusal after abort, a free connection, growth, failure to connect, or waiting |
| DbPoolClass.CDBPool.WakeUp | src/dbpool/DBPool.cpp:560-592 | what a waiting thread does when it has the mutex again: back to waiting, a connection, or nothing after abort or when its time is up |
| DbPoolClass.CDBPool.RelDBConn | src/dbpool/DBPool.cpp:615-637 | the search loop refuses a connection that is free already; otherwise it moves to the end of the free list and one thread is notified |
| DbPoolClass.CDBPool.Close | src/dbpool/DBPool.cpp:498-509 | abort, notification of all, empty free list |
| Frames.ChunkingDoesNotMatter | src/myserver.cpp:178-211 | however a stream of complete messages and an incomplete rest is cut into reads, exactly these messages are handed out, in order and once each, and the buffer holds exactly the rest |
| Frames.SentIsHanded | src/myserver.cpp:178-211 | the same from the sender's side: however the bytes of a sequence of messages, each a header of command and total length with a payload, and the first bytes of one more are cut into reads, exactly these messages are handed out, in order, and the rest is kept |
| Frames.MessageLength | src/env/co_env.h:297-304 | the length is read from the second word of the header, little-endian, and is that of the whole message |
| Frames.LengthWord | src/env/co_env.h:297-304 | a length word of 2^31 or more is taken as a negative int |
| Frames.ParseFrames | src/myserver.cpp:189-211 | a stream of complete messages and an incomplete one is cut into exactly these |
| Frames.ParseSplits | src/myserver.cpp:189-211 | what is handed out and kept makes up the stream, and no whole message is kept |
| Frames.ParseAppend | src/myserver.cpp:189-211 | bytes that arrive later do not change what has been cut already |
| Frames.FateIff | src/myserver.cpp:189-211 | following the lengths from the start of the buffer: the rounds of the loop end if and only if all are positive, go on for ever if and only if a zero is met, and leave the buffer if and only if a negative one is met |
| Frames.ZeroRepeats | src/myserver.cpp:197-204 | a round on a length of zero hands out an empty message and leaves the same buffer, any number of times |
| Frames.ParseIsRounds | src/myserver.cpp:189-211 | the messages and the rest that Parse gives are those of as many rounds, and it gives up exactly if the rounds do not end |
| Frames.StuckIff | src/myserver.cpp:189-211 | Parse gives up if and only if following the lengths leads to one that is not positive |
| Frames.BufferSuffices | src/myserver.cpp:178-187 | if no length exceeds seven reads and a byte, every further read fits the buffer of eight, for all sequences of reads |
| Frames.LongerOverflows | src/myserver.cpp:178-187 | for every longer message there are reads after which a full read no longer fits |
| Connection.Env.CoRecvData | src/myserver.cpp:173-214 | the loop on the array computes the function, or returns -1 without change when the read failed |
| Connection.Env.Append | src/myserver.cpp:185-187 | the bytes read follow the data in the buffer |
| Connection.Env.Shift | src/myserver.cpp:197-204 | the data after the message moves to the front |
| CoEnv.TableIsSet | src/coroutine/co_hook_sys_call.cpp:776-811 | the table is strictly sorted and its names are exactly the distinct non-empty inputs |
| CoEnv.VariablesArePrivate | src/coroutine/co_hook_sys_call.cpp:813-902 | over any calls by any coroutines a listed variable has in each coroutine the value that its own calls gave it |
| CoEnv.SystemCalls | src/coroutine/co_hook_sys_call.cpp:813-902 | a call reaches the C library exactly if it is not hooked, there is no table or the name is not listed, and then changes no private variable |
| CoEnvClass.Dedupe | src/coroutine/co_hook_sys_call.cpp:793-808 | the two-pointer loop leaves every run of equal names once |
| CoEnvClass.BSearch | src/coroutine/co_hook_sys_call.cpp:829 | binary search finds the position of a name in a strictly sorted table, or that there is none |
| CoEnvClass.Environment.SetEnvList | src/coroutine/co_hook_sys_call.cpp:776-811 | the first call makes the table, a later one does nothing |
| CoEnvClass.Environment.SetEnv | src/coroutine/co_hook_sys_call.cpp:813-844 | the new state is that of the call, honouring the overwrite flag |
| CoEnvClass.Environment.UnsetEnv | src/coroutine/co_hook_sys_call.cpp:845-876 | the variable loses its value in this coroutine only |
| CoEnvClass.Environment.GetEnv | src/coroutine/co_hook_sys_call.cpp:877-902 | the private value of a listed name in a hooked coroutine, otherwise the C library's |
| SysWrappers.Write | src/coroutine/co_hook_sys_call.cpp:369-420 | for every pattern of partial writes the kernel gets exactly the bytes before the returned count, in order; the loop stops short only at a call that got nothing; the hooked send has the same loop at 492-541 |
| SysWrappers.PartialWritesFinish | src/coroutine/co_hook_sys_call.cpp:397-414 | if no write is refused the whole buffer goes out |
| SysWrappers.MergeIsUnion | src/coroutine/co_hook_sys_call.cpp:591-604 | the merged list has every descriptor once and asks for exactly the events that some slot asks for |
| SysWrappers.MergeIff | src/coroutine/co_hook_sys_call.cpp:607-608 | merging changes the number of descriptors exactly if there are duplicates, and otherwise nothing |
| SysWrappers.TransparentIff | src/coroutine/co_hook_sys_call.cpp:591-621 | for one answer of the scheduler: a slot is told what it would be told if its descriptor were polled for it alone, if and only if there are no duplicates, or something is reported and its own report lies within its events, or nothing is reported and its revents were zero before |
| SysWrappers.TransparentForAll | src/coroutine/co_hook_sys_call.cpp:591-621 | for all states of the descriptors and all answers this holds of a slot if and only if the list has no duplicates, or the slot's revents are zero and its descriptor is negative or it asks for errors and hang-ups itself |
| PollCount.CountsIff | src/coroutine/co_hook_sys_call.cpp:606-623 | poll returns the number of slots with events, whatever happens, if and only if the list has no duplicates, or all revents are zero and for every descriptor one slot asks for errors and hang-ups and no other slot asks for anything that can be reported |
| SysWrappers.StaleIff | src/coroutine/co_hook_sys_call.cpp:612-620 | a slot keeps whatever revents it had before the call if and only if there are duplicates and the inner poll returned zero or an error |
| SysWrappers.HangupHidden | src/coroutine/co_hook_sys_call.cpp:617 | an input where poll returns 1 for a descriptor that hung up, no slot is told, and a single slot would have been |
| SysWrappers.OldEventTold | src/coroutine/co_hook_sys_call.cpp:612 | an input where nothing happens and an old event is told again |
| SysWrappers.MergeFds | src/coroutine/co_hook_sys_call.cpp:591-604 | the loop computes the merge and the map from descriptor to position |
| SysWrappers.Poll | src/coroutine/co_hook_sys_call.cpp:580-626 | the system's answer on the caller's list when not hooked or with a zero timeout; otherwise the result of the inner poll on the merged list, its revents distributed over the slots when it reports something |

## Left out

- The register part of the context switch (`coctx_swap.S`): a switch is one step that changes which coroutine runs; a running coroutine may leave any content on its stack and any stack pointer below the entry word.
- Stack buffers are taken to be aligned to 16 bytes and, in a share group, to be at least one word long.
- SharedStackRelease.ReleaseSafeIff: read outside the entry word it is stated for stacks whose size is a multiple of 16, since otherwise a coroutine may have no byte there; read byte for byte it is for all sizes. The same goes for ReleaseMisses, ReleaseSafeInRuns and ReleaseCanLose.
- CoSwitch.ShareStack.GetStackMem: an empty group, for which the code divides by zero.
- Call stacks deeper than 128 and failing allocations.
- Resuming a coroutine that is main, has ended, or is on the call stack, and resetting or releasing one that is on the call stack.
- User code that resumes a coroutine which waits in a poll or on a condition, behind the back of the event loop.
- LibcoWheel: 64-bit overflow of the times and of the start index.
- EventLoopClass.Scheduler.Iterate: an iteration whose int count is zero, because the clock step plus one is a nonzero multiple of 2^32 milliseconds, while the start index is zero: it makes the start index negative, and with it the index of the next list. Every other overflow of the count is included.
- EventLoopClass.Scheduler.Poll: the descriptors of one call are a set; the hooked poll merges duplicates before. `co_poll` without a system poll function. Which events are asked for is left to `SysWrappers`.
- The end of `co_eventloop` by the user's callback: in the model an iteration may always be followed by another.
- CoMutex.MutualExclusion: CoUnLock is only called while somebody owns the mutex; the destructor frees the condition without regard to waiters.
- TimeWheelClass.TimeWheel.AddTimer: only the overload for process functions. A function that adds timers while it runs is modelled as adding them right after the update. The model is single-threaded: the lock is released around dispatch in the code.
- `clear_timer`, which clears only the first near list, the overload with a prepare function, and `get_timer`. The wheel's directory is not in the build list of `src/CMakeLists.txt`.
- DbPool: reads and writes of the database, and callers that return a connection that somebody else has been given in the meantime.
- Connection.Env.CoRecvData: the message handlers behind `co_work` consume the message without touching the buffer or reading further bytes. The copy to the front overlaps and is modelled as a shift. Streams with a length that is not positive or messages that overflow the buffer are excluded from the method; `FateIff` and `LongerOverflows` say what happens to them.
- CoEnv: what the C library does with the calls that reach it.
- SysWrappers.Write: the kernel answers from an arbitrary finite script of accepted sizes and errors; the polls between the calls have no effect on what is sent.
- `SockUtil::co_write`, whose offset is that of the last piece only.
- The face SDK, JSON, SQL models, DNS wrappers, socket options and thread-specific data.
