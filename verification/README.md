# Verified models of the Moto X (victara) device components

Dafny 4.11 models of three stateful components of this device tree, and of three smaller ones beside
them, with proofs of what each of them keeps over whole runs.  `dafny verify dfyconfig.toml` checks the
project.  Every induction is written out: lemmas that Dafny would otherwise start an induction for carry
`{:induction false}`.

**AGPS resource machine** (`gps/libloc_api_50001/loc_eng_agps.{h,cpp}`).  `AgpsSpec` gives the four
states, five events, subscriber list, broadcast groups and framework requests as functions on a value
`Machine` that carries the trace of everything others can see.  `AgpsMachine` is the class, with its
restart-from-head delete loop, proved to compute those functions.  A flag stands for the dynamic type: with
it set the machine is a `DSStateMachine`, whose servicer can fail.  `AgpsGrants` and `AgpsTerminals` prove
what the clients of either kind of machine hear over every run, `AgpsOutcomes` what each public call comes
to for the clients, the list and the framework, from the framework's own events alone, `AgpsInvariants` and
`AgpsDs` what each kind keeps, `AgpsRelease` what the modem hears of a released handle, and `AgpsService`
who is served after engine restarts and after a second subscription.  `AgpsList` shows that the list operations used are those
of `linked_list.c`.

**Linked list, message queue, worker** (`gps/utils/linked_list.c`, `gps/utils/msg_q.c`,
`gps/core/MsgTask.cpp`).  `LinkedList` is the doubly linked list on the heap, refining the sequence
operations of `LinkedListSpec`.  `MsgQueue` is the mutex and condition-variable protocol as steps of any
number of threads at program points, with spurious wakeups; `MsgQueueCalls` says what the result of a call
tells its caller; `MsgQueueList` ties the atomic steps to code over the heap list; `MsgTask` adds the worker
loop and its teardown.

**Alarms and charge-only mode** (`charge_only_mode/alarm.c`, `charge_only_mode/main.c`).  `AlarmTime` is
the `timeval` arithmetic in 32 bits, `AlarmSpec` the list and its dispatch loop for arbitrary callbacks
that set and cancel alarms meanwhile, `AlarmList` the singly linked list on the heap.  `ChargeSpec`,
`ChargeSafety`, `ChargeTimers` and `ChargeMode` are the controller: its callbacks, events and main loop,
the invariants, what is pending when and that a held key is acted on, and the object with its globals.

**Smaller.**  `NmeaText`, `Nmea` and `NmeaReader` (satellite sentences, checksum, used-satellite mask, and a
receiver that reads the fields back), `Framing` (the length-prefixed daemon messages and both ends of a
pipe), `AdapterTable` (the adapter array of `LocApiBase`).

Time, device readings, servicer answers, write counts and thread schedules are parameters, so the
theorems hold for every value of them.  A read(2) whose count does not fit an ssize_t is taken to fail
without reading, as on Linux.

Where the code and its comments or documentation differ, the model follows the code:

- `AgpsReleasingState` on RSRC_RELEASED says it notifies active subscribers and keeps them; the code
  notifies the inactive ones and deletes them (`loc_eng_agps.cpp:555-558`).
- `loc_eng_nmea_put_checksum` says it returns the total length; it returns one less, as the `$` is not counted.
- `DSStateMachine::sendRsrcRequest` treats a started timer as an error; both outcomes return nonzero.

Some expected properties fail, and are stated with their exact condition:

- A machine has somebody to serve, or is at rest, after a run with engine restarts exactly when each drop
  that hit it outside Released was followed by one of the calls that restore it (`DropStrands`, with the
  single step in `StepAttends`); `StrandedRun` is a run where it was not.
- Subscribing leaves the client with an active entry exactly when it has no inactive one and is not turned
  away by a single-subscriber machine (`SubscribingServes`), and only then is it granted after a close
  (`GrantedAfterClose`).  `ResubscribedRun` is a run where it has none: a WiFi or data-call client that
  comes back before its close is complete, which is then forgotten (`ResubscriptionLost`).
- A client is told once that its subscription has ended, when it is removed; but it is also told so each time
  it is unsubscribed while the machine is Released, where it stays in the list (`ListedTerminals`,
  `RemovedTerminals`, `VainExactly`).  That never happens on a machine that is not a `DSStateMachine`
  (`OneTerminalEach`); on one, a client that gives up after a failed data call is closed for the modem and
  still listed (`ClosedYetListed`), and is served with the next grant (`ServedAfterClose`).
- A retry timer leads to another data-call request exactly when the machine is Released (`RetryAsks`).
  After a close that ended with somebody active it is Pending, and the retry does nothing (`LostRetry`, and
  the run in `LostRetryRun`).
- A handle release is answered exactly when the entry found is of a kind that answers the modem
  (`ReleaseClosesOnce`, and the run in `SharedHandleIsSwallowed`).
- An overdue alarm is dispatched exactly when its lateness in milliseconds is at most 2^31 modulo 2^32
  (`OverdueIsServed`, `TooLate`).
- Receiving gives back what was sent exactly when every message fits the buffer (`RoundTrip`, `Exchange`).

## Model

| member | source | states |
|---|---|---|
| AgpsInvariants.Reachable | gps/libloc_api_50001/loc_eng_agps.cpp:258-579 | on a machine that is not a DSStateMachine, every state reachable by subscribe, unsubscribe, framework events and engine-restart drops: Released has an empty list, Pending and Acquired an empty one or an active subscriber, a single-subscriber machine at most one entry, nobody listed twice; without drops Pending and Acquired have an active subscriber and Releasing an inactive one |
| AgpsInvariants.RequestBalance | gps/libloc_api_50001/loc_eng_agps.cpp:750-777 | on a machine that is not a DSStateMachine: a REQUEST is sent only when none is outstanding and a RELEASE only when one is; the guard never suppresses a call; one is outstanding exactly in Pending and Acquired |
| AgpsOutcomes.FrameworkInStep | gps/libloc_api_50001/loc_eng_agps.cpp:750-777 | the same from the framework's side, over any calls: from the events it sent and the requests it got alone, the machine is Pending exactly while a request is unanswered and Acquired exactly while a grant is neither released nor given up; each call asks at most once, for the resource only when the framework is idle, for its release only when it is not |
| AgpsOutcomes.EndInRun | gps/libloc_api_50001/loc_eng_agps.cpp:379-568 | on a machine of either class, after any calls: DENIED in Pending, or RELEASED there on a DSStateMachine, and RELEASED in Acquired lead to Released with an empty list, and each client that was listed hears once what the framework said (DENIED for a RELEASED that is translated) and nobody else anything; in Releasing either status goes as it came to those that wait for their close, which leave; anything else changes nothing |
| AgpsOutcomes.PendingEvent | gps/libloc_api_50001/loc_eng_agps.cpp:369-393 | GRANTED is heard once by each active subscriber and nobody else, and nobody leaves; DENIED ends all subscriptions; RELEASED does nothing unless the machine is a DSStateMachine |
| AgpsOutcomes.AcquiredEvent | gps/libloc_api_50001/loc_eng_agps.cpp:492-512 | RELEASED ends all subscriptions; DENIED and GRANTED do nothing |
| AgpsOutcomes.ReleasingEvent | gps/libloc_api_50001/loc_eng_agps.cpp:549-568 | on RELEASED or DENIED the waiting subscribers hear it and leave, the others stay in order, and the resource is requested again, once, if and only if there are any; GRANTED does nothing |
| AgpsOutcomes.ReleasedEvent | gps/libloc_api_50001/loc_eng_agps.cpp:296-303 | no event does anything |
| AgpsOutcomes.SubscribeOutcome | gps/libloc_api_50001/loc_eng_agps.cpp:779-787 | a single-subscriber machine in use tells the caller DENIED and changes nothing; else the caller has an entry, new ones at the head; in Acquired the caller hears GRANTED; in Released the resource is requested once, and the machine is Pending unless a data call failed |
| AgpsOutcomes.UnsubscribeOutcome | gps/libloc_api_50001/loc_eng_agps.cpp:789-801 | a WiFi or data-call entry starts to wait in silence, another hears UNSUBSCRIBE and goes; the release is asked for once if and only if the resource is wanted or held and nobody active is left; the state is Released once the list is empty, Releasing when only waiting entries are left; in Released the client only hears UNSUBSCRIBE |
| AgpsOutcomes.UnknownUnsubscribes | gps/libloc_api_50001/loc_eng_agps.cpp:789-801 | unsubscribing a client nobody in the list equals does nothing |
| AgpsOutcomes.SecondSubscriber | gps/libloc_api_50001/loc_eng_agps.cpp:106-124 | two clients are one by their handle or IPv4 address alone, two BIT clients without one by their IPv6 address |
| AgpsGrants.GrantKnowledge | gps/libloc_api_50001/loc_eng_agps.cpp:369-377 | for machines of both classes, over any calls and drops: GRANTED is only told while the framework's grant stands, which is exactly in Acquired; an active entry has heard it since it joined exactly when the machine is Acquired |
| AgpsTerminals.ListedTerminals | gps/libloc_api_50001/loc_eng_agps.cpp:286-294 | for machines of both classes, over any calls and drops: a listed client has had one terminal notification for each time an unsubscribe found it while the machine was Released, since it joined |
| AgpsTerminals.RemovedTerminals | gps/libloc_api_50001/loc_eng_agps.cpp:69-81 | and a removed one has had one more than that |
| AgpsTerminals.VainExactly | gps/libloc_api_50001/loc_eng_agps.cpp:286-294 | such an unsubscribe is counted if and only if a call of the run was one and the client has not joined since |
| AgpsTerminals.OneTerminalEach | gps/libloc_api_50001/loc_eng_agps.cpp:69-81 | on a machine that is not a DSStateMachine: a removed entry has had exactly one terminal notification since it was added, a listed one none |
| AgpsTerminals.ClosedYetListed | gps/libloc_api_50001/loc_eng_agps.cpp:286-294 | on a DSStateMachine: a failed data call and an unsubscribe leave any client listed and active, with one terminal notification |
| AgpsTerminals.ServedAfterClose | gps/libloc_api_50001/loc_eng_agps.cpp:270-284 | and after the next subscribe that succeeds, of whichever client, and GRANTED it has been granted |
| AgpsInvariants.NotifiesEachOnce | gps/libloc_api_50001/loc_eng_agps.cpp:715-736 | each matching entry is notified once, in list order, and nobody else; with deletion exactly the others stay, in order |
| AgpsInvariants.OnlyOneMatches | gps/libloc_api_50001/loc_eng_agps.cpp:106-113 | in a list built by addSubscriber, a notification to the entry a search found reaches that entry only, whatever kinds are mixed |
| AgpsInvariants.StepKeeps | gps/libloc_api_50001/loc_eng_agps.cpp:779-801 | on a machine that is not a DSStateMachine: each public call keeps the invariants, and each but the drop keeps somebody to serve |
| AgpsService.DropStrands | gps/libloc_api_50001/loc_eng.cpp:2522-2526 | on a machine that is not a DSStateMachine: over any run with engine restarts, Pending and Acquired have an active subscriber and Releasing an inactive one if and only if each drop that hit the machine outside Released was followed by a restoring call |
| AgpsService.StepAttends | gps/libloc_api_50001/loc_eng_agps.cpp:258-579 | the same, there, for one call: only such a drop takes it away; of a stranded machine a subscribe restores it exactly in Pending and Acquired, an unsubscribe exactly when the entry it finds waits for its close or is the only one, an accepted event exactly when it is not GRANTED |
| AgpsService.StrandedRun | gps/libloc_api_50001/loc_eng.cpp:2522-2526 | subscribe and drop: the machine is Pending with nobody in its list and the request outstanding, and no unsubscribe changes it |
| AgpsService.SubscribingServes | gps/libloc_api_50001/loc_eng_agps.cpp:738-787 | on any machine the client has an active entry after subscribing if and only if the entry it had was not inactive or, when it had none, the machine was not a single-subscriber one in use |
| AgpsService.GrantedAfterClose | gps/libloc_api_50001/loc_eng_agps.cpp:525-566 | while Releasing, with subscribers of one kind: the RELEASED and GRANTED that follow grant the client's subscription exactly once if and only if it left the client with an active entry, and not at all otherwise |
| AgpsService.ResubscriptionLost | gps/libloc_api_50001/loc_eng_agps.cpp:525-566 | a client that subscribes again while its close is pending stays inactive; RELEASED deletes its entry, and it is granted nothing for the second request |
| AgpsService.ResubscribedRun | gps/libloc_api_50001/loc_eng_agps.cpp:738-748 | subscribe, unsubscribe, subscribe leaves a WiFi or data-call client with its inactive entry on either kind of machine; after RELEASED the list is empty, the machine Released, and it was never granted |
| AgpsMachine.NotifyStep | gps/libloc_api_50001/loc_eng_agps.cpp:717-729 | delivering to the first match, deleting it and starting over leads where the whole walk leads |
| AgpsMachine.AgpsStateMachine.NotifyAndRemoveFirst | gps/libloc_api_50001/loc_eng_agps.cpp:720-728 | one search with removal shortens the list and keeps the outcome, or finds nothing and the outcome is reached |
| AgpsMachine.AgpsStateMachine.NotifySubscribers | gps/libloc_api_50001/loc_eng_agps.cpp:715-736 | the loop terminates with the outcome that NotifiesEachOnce describes |
| AgpsMachine.AgpsStateMachine.SendRsrcRequest | gps/libloc_api_50001/loc_eng_agps.cpp:852-911 | both overrides: what the servicer is asked, the retry counter, the fallback and the return value |
| AgpsMachine.AgpsStateMachine.HandleSubscribe | gps/libloc_api_50001/loc_eng_agps.cpp:270-284 | RSRC_SUBSCRIBE in the four states |
| AgpsMachine.AgpsStateMachine.HandleUnsubscribe | gps/libloc_api_50001/loc_eng_agps.cpp:440-466 | RSRC_UNSUBSCRIBE in the four states |
| AgpsMachine.AgpsStateMachine.HandleStatus | gps/libloc_api_50001/loc_eng_agps.cpp:369-393 | the three framework events in the four states |
| AgpsMachine.AgpsStateMachine.SubscribeRsrc | gps/libloc_api_50001/loc_eng_agps.cpp:779-787 | denial by a single-subscriber machine, or the event |
| AgpsMachine.AgpsStateMachine.UnsubscribeRsrc | gps/libloc_api_50001/loc_eng_agps.cpp:789-801 | whether a list entry equals the client, and the event on that entry |
| AgpsMachine.AgpsStateMachine.OnRsrcEvent | gps/libloc_api_50001/loc_eng_agps.cpp:913-944 | both overrides, with RELEASED turned into DENIED when a DS machine did not move |
| AgpsDs.DsReachable | gps/libloc_api_50001/loc_eng_agps.cpp:829-911 | in every reachable state the retry counter equals the timers started since its last reset, which were never more than four; Released has no inactive entry |
| AgpsDs.DsReleased | gps/libloc_api_50001/loc_eng_agps.cpp:923-938 | RSRC_RELEASED in any state leaves no inactive subscriber, and leads to Pending exactly from Releasing with somebody active, else to Released |
| AgpsDs.SendCounts | gps/libloc_api_50001/loc_eng_agps.cpp:876-907 | a busy engine counts a retry, the fifth in a row and other failures fall back and reset the count; list and state are untouched |
| AgpsDs.DataCallAnswer | gps/libloc_api_50001/loc_eng_agps.cpp:852-911 | everything a request logs and returns: a busy engine starts a timer unless four have been started in a row; then, and on any other failure at once, ATL is requested with the handle of the first active subscriber |
| AgpsDs.FailedCallStaysReleased | gps/libloc_api_50001/loc_eng_agps.cpp:276-282 | a DS machine stays Released with a non-empty list exactly when the data call failed |
| AgpsOutcomes.RetryAsks | gps/libloc_api_50001/loc_eng_agps.cpp:834-849 | the subscription a retry makes asks the servicer again if and only if the machine is Released |
| AgpsOutcomes.LostRetry | gps/libloc_api_50001/loc_eng_agps.cpp:558-563 | so when a close ends with somebody active and the engine is busy, the timer is started, the machine is Pending, and the retry does nothing |
| AgpsOutcomes.LostRetryRun | gps/libloc_api_50001/loc_eng_agps.cpp:558-563 | a run where that happens |
| AgpsRelease.UnsubscribeCloses | gps/libloc_api_50001/loc_eng_agps.cpp:286-294 | unsubscribing in any state closes the handle of the entry found once, and no other handle |
| AgpsRelease.ReleaseClosesOnce | gps/libloc_api_50001/loc_eng.cpp:1095-1129 | one atlCloseStatus for the released handle and none for others, whichever machine holds it in whatever state or none does, if and only if the entry found reports to the modem |
| AgpsRelease.ReleaseTouchesOne | gps/libloc_api_50001/loc_eng.cpp:1095-1129 | no machine but the first with an entry for the handle changes, and the direct answer is given if and only if there is none |
| AgpsRelease.SaidBy | gps/libloc_api_50001/loc_eng_agps.cpp:126-245 | for each message to the modem or the daemon, exactly what it is sent on |
| AgpsRelease.SharedHandleIsSwallowed | gps/libloc_api_50001/loc_eng_agps.cpp:115-144 | once a BIT client has subscribed with an address, a release of the same number is taken by it and the modem hears nothing |
| AgpsRelease.LocEng.ReleaseAtl | gps/libloc_api_50001/loc_eng.cpp:1095-1129 | the method over the three machine objects does what ReleaseClosesOnce is about |
| AgpsList.SearchRemoves | gps/utils/linked_list.c:291-324 | the deletion step of notifySubscribers is a linked_list_search with removal |
| AgpsList.SearchFinds | gps/utils/linked_list.c:291-295 | the searches of the state machine are linked_list_search without removal |
| AgpsList.AddIsListAdd | gps/libloc_api_50001/loc_eng_agps.cpp:738-748 | addSubscriber is a failed search and a linked_list_add |
| AgpsList.DropIsFlush | gps/libloc_api_50001/loc_eng_agps.h:242-243 | dropAllSubscribers is linked_list_flush and frees every clone |
| LinkedListSpec.Conservation | gps/utils/linked_list.c:110-327 | over any mix of calls, what was added is what is listed or has left, each once |
| LinkedListSpec.DeallocatedIfGiven | gps/utils/linked_list.c:245-249 | an element leaves without dealloc only if handed out or given none, and is deallocated only if given one |
| LinkedListSpec.SearchTakesFirst | gps/utils/linked_list.c:267-327 | the first match is reported, and leaves if and only if asked for, to the caller or to its own dealloc function |
| LinkedListSpec.SearchMisses | gps/utils/linked_list.c:267-327 | without a match nothing is reported and nothing changes |
| LinkedListSpec.FlushFrees | gps/utils/linked_list.c:230-260 | all elements leave, from the head on, each to its own dealloc function if it came with one |
| LinkedListSpec.FirstInFirstOut | gps/utils/linked_list.c:139-203 | with additions and tail removals only, elements leave in the order they came |
| LinkedList.List.AddItem | gps/utils/linked_list.c:110-155 | the heap list gets the element at its head; NULL data is refused |
| LinkedList.List.RemoveItem | gps/utils/linked_list.c:162-204 | the heap list gives up its last element, or reports that there is none |
| LinkedList.List.FlushAll | gps/utils/linked_list.c:230-260 | all elements go, head first, deallocated if a dealloc was given |
| LinkedList.List.SearchFor | gps/utils/linked_list.c:267-327 | finds the first match, unlinks exactly it if asked, and hands it out or frees it; the out pointer is left alone when there is none or the list is empty |
| LinkedList.List.Unlink | gps/utils/linked_list.c:297-310 | the pointer updates keep the chain and take out one node |
| LinkedList.List.Empty | gps/utils/linked_list.c:211-223 | true exactly on the empty list |
| MsgQueue.Reachable | gps/utils/msg_q.c:185-336 | for any threads and schedule: the mutex excludes, queued messages number at most the receivers already woken and not yet past the removal, and the one about to be signalled for, while one is parked, nobody is parked after the unblock, accepted messages leave in order |
| MsgQueue.MessageIsAttended | gps/utils/msg_q.c:211-214 | no lost wakeup: while a receiver is parked and a message queued, another has been woken and is not yet past the removal, or a sender is about to signal |
| MsgQueue.WakeupKept | gps/utils/msg_q.c:257-262 | every step but the signals keeps the bound on queued messages |
| MsgQueue.SignalKept | gps/utils/msg_q.c:213-214 | a signal, which may wake several, and a broadcast restore it |
| MsgQueue.DeliveredInOrder | gps/utils/msg_q.c:185-269 | without msg_q_flush, delivered then queued messages are the accepted ones in order |
| MsgQueue.ClosedForGood | gps/utils/msg_q.c:204-209 | nothing is accepted after the unblock |
| MsgQueue.SettledStep | gps/utils/msg_q.c:317-331 | after the unblock each step of a pending call lowers its rank and touches no other |
| MsgQueue.DrainBound | gps/utils/msg_q.c:245-269 | so the pending calls have a bounded number of steps left |
| MsgQueue.NoDeadlock | gps/utils/msg_q.c:245-269 | and one of them can always take one |
| MsgQueueCalls.ResultTells | gps/utils/msg_q.c:185-336 | over any schedule: a send that has returned succeeded if and only if it has put its message in, a receive gives exactly the message it has taken out, a flush frees what it takes out, an unblock succeeds if and only if it set the flag |
| MsgQueueCalls.ClosedCall | gps/utils/msg_q.c:249-254 | a send, receive or unblock that comes to its test of the flag after the unblock returns UNAVAILABLE_RESOURCE, and neither the list nor what has left it is touched by it |
| MsgQueueCalls.OpenCall | gps/utils/msg_q.c:204-269 | while the queue is not unblocked no call fails |
| MsgQueueCalls.FlushEmpties | gps/utils/msg_q.c:289-292 | after a flush everything that was accepted has left |
| MsgQueueList.MsgQ.SndBody | gps/utils/msg_q.c:204-211 | the code over the heap list is the protocol step of a send |
| MsgQueueList.MsgQ.RcvEntry | gps/utils/msg_q.c:247-257 | the head of a receive: turned away with the flag set, else at its loop, which is the protocol step |
| MsgQueueList.MsgQ.RcvBody | gps/utils/msg_q.c:262 | and of a removal |
| MsgQueueList.MsgQ.FlushBody | gps/utils/msg_q.c:289-294 | and of a flush |
| MsgQueueList.MsgQ.UnblockBody | gps/utils/msg_q.c:317-326 | and of an unblock |
| MsgQueueList.MsgQ.MustWait | gps/utils/msg_q.c:257 | the loop condition of msg_q_rcv |
| MsgTask.ProcessedInOrder | gps/core/MsgTask.cpp:107-126 | processed messages, the one in hand and the queued ones are the accepted ones, in order |
| MsgTask.NothingLostAtTeardown | gps/core/MsgTask.cpp:110-119 | when loopMain has exited, every accepted message was processed once or freed once, and the queue is closed |
| MsgTask.AfterUnblock | gps/core/MsgTask.cpp:110-126 | of what is queued when the queue is unblocked, only the message in hand and the one that a receive already past the test of the flag takes are processed; all others are freed |
| MsgTask.FateIsSealed | gps/core/MsgTask.cpp:110-126 | and nothing done after the unblock changes which |
| MsgTask.WorkerLeaves | gps/core/MsgTask.cpp:110-119 | after the unblock a worker with nothing in hand takes at most six more steps, whatever the others do, and has then left its loop |
| AlarmTime.DeadlineExact | charge_only_mode/alarm.c:81-86 | a stored deadline is normalised and exactly ms away if and only if the microseconds fit an int |
| AlarmTime.DelayAccurate | charge_only_mode/alarm.c:68-72 | the delay is within a millisecond of the time left if and only if it fits an int |
| AlarmTime.OverdueDelay | charge_only_mode/main.c:265-270 | for an overdue alarm the delay is below 1 if and only if its lateness modulo 2^32 ms is at most 2^31 |
| AlarmTime.TooLate | charge_only_mode/alarm.c:68-72 | twenty-five days late gives a positive delay |
| AlarmSpec.SetKeeps | charge_only_mode/alarm.c:90-109 | insertion keeps the list sorted, first in first out among equal deadlines |
| AlarmSpec.DispatchKeeps | charge_only_mode/alarm.c:43-60 | and so does a dispatch with callbacks that set and cancel |
| AlarmSpec.DispatchFires | charge_only_mode/alarm.c:49-59 | a dispatch terminates, fires in order a subsequence of the prefix that was due on entry, and leaves nothing due |
| AlarmSpec.ExecDue | charge_only_mode/alarm.c:75-135 | callbacks can only take alarms out of the due part |
| AlarmList.AlarmQueue.Set | charge_only_mode/alarm.c:75-111 | the heap list is the sorted insertion |
| AlarmList.AlarmQueue.CancelAll | charge_only_mode/alarm.c:113-135 | takes out every alarm of the callback and counts them |
| AlarmList.AlarmQueue.PopDue | charge_only_mode/alarm.c:49-55 | unlinks the head exactly when it is due |
| AlarmList.AlarmQueue.UntilNext | charge_only_mode/alarm.c:62-73 | the delay of the head, or the largest int |
| ChargeSafety.FromBoot | charge_only_mode/main.c:245-314 | at every loop head: at most one brightness timer, as many animation timers, none when blanked, a sorted list, and every long press acted on was armed |
| ChargeSafety.AlarmSafe | charge_only_mode/main.c:74-132 | popping the head and running its callback keeps all that; power_key_alarm runs only after a press at sufficient voltage, a second earlier, without release since |
| ChargeSafety.EventSafe | charge_only_mode/main.c:283-313 | each event keeps it; a release of the power key leaves no long press pending |
| ChargeSafety.OverdueIsServed | charge_only_mode/main.c:265-270 | a round with an overdue alarm dispatches, and leaves nothing due, exactly up to the lateness bound |
| ChargeTimers.PressesPending | charge_only_mode/main.c:285-288 | at every loop head of any run: each press of the power key that came when the last voltage read was 3.6 V or more, and was not followed by a release, has an alarm pending exactly one second after it or has been acted on; there are no other long-press alarms |
| ChargeTimers.PressStays | charge_only_mode/main.c:285-291 | such a press counts until the key is released, whatever else happens |
| ChargeTimers.PressIsActedOn | charge_only_mode/alarm.c:43-60 | an alarm_process entered at or after its deadline acts on each such press, exactly once |
| ChargeTimers.HeldKeyIsServed | charge_only_mode/main.c:265-288 | over any run: the first round of alarm_process entered a second or more after a press at sufficient voltage, without a release since, appends the long press to the history |
| ChargeTimers.FiredMeans | charge_only_mode/main.c:110-132 | acted on means that the history has the long press, with that deadline, after the last release |
| ChargeTimers.RoundReads | charge_only_mode/alarm.c:62-73 | a round reads an event when no alarm is pending or the first is a millisecond or more away, and dispatches when the first is due, as long as the time between fits an int |
| ChargeTimers.QuitIsFinal | charge_only_mode/main.c:265 | after quitting no round does anything |
| ChargeTimers.EventDeadlines | charge_only_mode/main.c:283-313 | for each event, which deadlines of each timer are pending afterwards, said of the times and the device readings |
| ChargeTimers.EventFlags | charge_only_mode/main.c:134-182 | and whether the loop quits, the one shutdown has been tried, the voltage allows a start, and the display is blank |
| ChargeTimers.AlarmDeadlines | charge_only_mode/main.c:74-108 | the same deadlines after the first alarm has run |
| ChargeTimers.AlarmFlags | charge_only_mode/main.c:80-132 | and the same flags |
| ChargeTimers.BootDeadlines | charge_only_mode/main.c:262-263 | the two timers pending before the first round |
| ChargeSpec.AlarmTimers | charge_only_mode/main.c:74-108 | the timer relations across one callback |
| ChargeSpec.EventTimers | charge_only_mode/main.c:184-201 | and across one event |
| ChargeMode.Controller.ProcessAlarms | charge_only_mode/alarm.c:43-60 | the loop over the heap list, whose callbacks change it, computes the dispatch |
| ChargeMode.Controller.WakeupKey | charge_only_mode/main.c:184-193 | blanks if the bright timer was pending, else lights up |
| ChargeMode.Controller.WakeupKey2 | charge_only_mode/main.c:195-201 | restarts the display cycle |
| ChargeMode.Controller.HandlePower | charge_only_mode/main.c:134-182 | the powerup flag, and the one shutdown when unplugged |
| ChargeMode.Controller.LongPressAlarm | charge_only_mode/main.c:110-132 | cancels the three display timers and quits if the reboot was accepted |
| ChargeMode.Controller.HandleEvent | charge_only_mode/main.c:283-313 | the switch of the main loop |
| ChargeMode.Controller.RunLoop | charge_only_mode/main.c:265-314 | the loop until quit |
| ChargeMode.ChargeOnly | charge_only_mode/main.c:245-314 | main from its first timers on ends in a state with all the invariants |
| NmeaText.PutChecksum | gps/libloc_api_50001/loc_eng_nmea.cpp:84-98 | computes the text that SealedVerifies and SealedCut are about; returns the length without the `$` |
| NmeaText.SealedVerifies | gps/libloc_api_50001/loc_eng_nmea.cpp:84-98 | with room in the buffer: the sentence, `*`, two hexadecimal digits and the line end, where bit by bit the digits are set if and only if an odd number of the characters between `$` and `*` have that bit set |
| NmeaText.SealedCut | gps/libloc_api_50001/loc_eng_nmea.cpp:95 | without room the same text is cut, with one place left for the NUL |
| NmeaText.FoldParity | gps/libloc_api_50001/loc_eng_nmea.cpp:91-92 | the running exclusive OR has each of its eight bits set if and only if an odd number of the characters have it set |
| Nmea.PagesPartition | gps/libloc_api_50001/loc_eng_nmea.cpp:649-668 | the pages together are the satellites in order; four each, one to four in the last |
| Nmea.GenerateGsv | gps/libloc_api_50001/loc_eng_nmea.cpp:638-710 | sends the sentences of the in-system satellites page by page, up to the first too long for the buffer |
| Nmea.NothingLeftOut | gps/libloc_api_50001/loc_eng_nmea.cpp:656-697 | with fields in range no sentence hits the formatting error, and each passes the receiver's check |
| Nmea.GenerateSv | gps/libloc_api_50001/loc_eng_nmea.cpp:603-833 | sends GPS, GLONASS and, when no satellite is used, blank sentences in this order, up to the first too long for the buffer; mask and dilution values are cached exactly if all was sent and a satellite is used; with fields in range all is sent and passes the receiver's check |
| Nmea.ReportOrder | gps/libloc_api_50001/loc_eng_nmea.cpp:638-805 | how many sentences a report has, and which comes where: one GSV sentence for every four satellites of a system, at least one, GPS before GLONASS, and the four blank ones only when no satellite is used |
| NmeaReader.PageRead | gps/libloc_api_50001/loc_eng_nmea.cpp:656-700 | a receiver that cuts a sentence at the checksum and at the commas reads how many sentences there are, which this is, how many satellites in all, and the fields of those on the page, for fields of any size |
| NmeaReader.FieldWidths | gps/libloc_api_50001/loc_eng_nmea.cpp:671-688 | with fields in range: two characters for the number, the elevation and the signal strength, three for the azimuth, none for the strength of a satellite that is not tracked |
| NmeaReader.EverySatelliteSaid | gps/libloc_api_50001/loc_eng_nmea.cpp:619-786 | what it reads from all GPGSV sentences of a report, put together, are the GPS satellites in order, and likewise GLGSV and GLONASS; blank sentences say none |
| NmeaReader.SentSatellites | gps/libloc_api_50001/loc_eng_nmea.cpp:603-833 | and of the sentences loc_eng_nmea_generate_sv actually sends: with fields in range all the satellites, otherwise the first ones, in order |
| Nmea.UsedSvs | gps/libloc_api_50001/loc_eng_nmea.cpp:142-150 | an increasing list of satellite numbers whose bits make up the mask |
| Nmea.MaskDetermines | gps/libloc_api_50001/loc_eng_nmea.cpp:142-150 | no other list does |
| Framing.MsgSnd | gps/libloc_api_50001/loc_eng_dmn_conn_glue_msg.c:111-124 | stamps the size into the buffer, appends what the pipe took, and fails on a short write |
| Framing.MsgRcv | gps/libloc_api_50001/loc_eng_dmn_conn_glue_msg.c:146-169 | for any stream: gives the next message, or fails on a short read, a small buffer or a size below that of the size field itself; a size of 3 counts as received, because the answer -1 of the refused second read is what the code compares with |
| Framing.ReceiveOutcome | gps/libloc_api_50001/loc_eng_dmn_conn_glue_msg.c:146-169 | what one receive gives and consumes, by the size the stream starts with: what does not fit loses its size field only, what has not come whole is lost |
| Framing.ShortStream | gps/libloc_api_50001/loc_eng_dmn_conn_glue_msg.c:150-154 | fewer than four bytes are lost |
| Framing.RoundTrip | gps/libloc_api_50001/loc_eng_dmn_conn_glue_msg.c:111-169 | any sequence of messages is received as sent, and what follows is left, if and only if each fits the buffer |
| Framing.SendAll | gps/libloc_api_50001/loc_eng_dmn_conn_glue_msg.c:111-124 | sends in a row put their messages, each framed, on the pipe in order, whichever buffers they share |
| Framing.ServeAll | gps/libloc_api_50001/loc_eng_dmn_conn.cpp:120-170 | receives in a row, going on after a failure, get what RoundTrip is about |
| Framing.Exchange | gps/libloc_api_50001/loc_eng_dmn_conn_glue_msg.c:111-169 | on one pipe, after any sends, n receives get the n oldest messages not yet received and leave the others, if and only if each of the n fits the buffer |
| AdapterTable.LocApi.AddAdapter | gps/core/LocApiBase.cpp:156-166 | appends an adapter, and opens with its mask, if and only if it is unknown and there is room |
| AdapterTable.LocApi.RemoveAdapter | gps/core/LocApiBase.cpp:168-202 | moves the last adapter into the gap; closes if and only if the adapter was known and nobody is left; if others are left, reopens with exactly the events some of them asks for and that are not excluded; an unknown adapter changes nothing |
| AdapterTable.LocApi.GetEvtMask | gps/core/LocApiBase.cpp:134-141 | the combined mask without the excluded events |
| AdapterTable.EvtMaskHas | gps/core/LocApiBase.cpp:134-141 | an event is in it exactly when some adapter asks for it and it is not excluded |
| AdapterTable.RemovedMembers | gps/core/LocApiBase.cpp:173-191 | removal keeps the set of the others and empties the table exactly when there were none |
| AdapterTable.TableTracksCalls | gps/core/LocApiBase.cpp:156-202 | after any calls: no duplicates, at most ten, and exactly those added and not removed as long as no call found the table full |
| AdapterTable.ClosedWhenEmpty | gps/core/LocApiBase.cpp:168-202 | over any calls none of which finds the table full: a call closes the modem connection if and only if somebody was registered before it and nobody is after it, and tells it nothing if and only if it changes nobody's registration |
| AdapterTable.LocApi.Drive | gps/core/LocApiBase.cpp:156-202 | any calls in a row: the table is what they make of it, and each tells the modem connection what the contracts of AddAdapter and RemoveAdapter say |
| AdapterTable.AnswerRegistered | gps/core/LocApiBase.cpp:156-202 | the same of one call, said of the adapters added and not removed so far |

## Left out

- Subscribers are values in the list field, and `setInactive` replaces an entry; aliasing and freed memory are not modelled, and the receiver of a notification is its key.
- The kinds without an address get an arbitrary one; what a BIT comparison reads from such an object is not modelled further.
- Reference handles and output pointers that are NULL, and failed allocations.
- `msg_q_rcv` is not a single method: its wait needs other threads, so it exists as protocol steps, with its list code in `MsgQueueList`.
- Sends that reach the queue while or after `msg_q_destroy` frees it: the model of the worker ends there.
- `getAgpsStateMachine`, `LocEngRequestATL`, `LocEngReqRelWifi` and `LocEngAtl*`: they pick a machine and make one of the calls modelled here.
- `retryCallback`, `loc_timer.c`: the retry is a later subscribe call.
- APN, bearer, IP addresses and WiFi credentials carried along in notifications and requests.
- `DeadlineExact`: seconds are unbounded, the 32-bit `time_t` is not modelled.
- Alarm cookies, which are always NULL, brightness, LEDs, drawing, the mode file, and the memory-test key sequence.
- A power-off that succeeds: the model goes on as if it had failed, which allows more runs.
- The position sentences GPRMC, GPGGA, GPVTG and GPGSA apart from the list of used satellites; angles and signal strength are integers already rounded.
- Reads that block on an empty pipe, and what the server does with a message it has received.
- Network-initiated requests (`loc_eng_ni.cpp`), XTRA, the modem interface, sockets, camera, lights, Bluetooth and initialisation.
