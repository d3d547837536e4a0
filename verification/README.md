# Verified model of the httpssh relay and its mobile terminal

The relay runs shells on pseudo-consoles (PTYs), keeps the last bytes of each
shell's output, and serves that output to any number of clients over
WebSockets. The mobile client rebuilds a terminal from it across reconnects.
This project models the parts of both whose correctness depends on state,
order and interleaving, and proves what they guarantee in every run.

| file | models | form |
|---|---|---|
| `RingBuffer.dfy` | the scrollback store | class over an array |
| `CwdTracker.dfy`, `Prompts.dfy`, `OscBodies.dfy` | the OSC 9;9 scanner and the prompts that feed it | class, functions |
| `Session.dfy` | one session: scrollback, subscribers, bounded queues, resize window | class; one function per critical section |
| `Delivery.dfy`, `DeliveryLaws.dfy`, `SessionHistory.dfy`, `SessionEnd.dfy`, `Independence.dfy` | every interleaving of one session's threads | state machine over lock boundaries |
| `Resizes.dfy` | overlapping resizes around the PTY's own | state machine |
| `Lifecycle.dfy`, `LifecycleLaws.dfy`, `Idleness.dfy`, `LifecycleHistory.dfy` | every interleaving of create, kill, reap, exit and shutdown | state machine |
| `Manager.dfy` | the manager's calls on their own | class over session objects |
| `Locks.dfy`, `LockUse.dfy` | which locks each call takes, and what it blocks on | operation lists and a scheduler |
| `RenderHistory.dfy`, `Client.dfy`, `ClientLaws.dfy`, `ClientDisplay.dfy`, `ClientComplete.dfy`, `Sending.dfy`, `Reconnecting.dfy` | the mobile terminal tab, one function per event | state machine |
| `TerminalSession.dfy` | its render history, its terminal and what waits for it, as objects updated in place | classes |
| `Wire.dfy` | one WebSocket of the relay with any client | state machine |
| `EndToEnd.dfy`, `EndToEndLaws.dfy`, `AcrossReconnects.dfy`, `InputArrives.dfy`, `LateOutput.dfy` | relay, sockets and client together | state machine |
| `Paths.dfy`, `PathRequests.dfy` | the file API's path resolver | functions |
| `Utf16.dfy` | the UTF-16 codec and the text test (sections 2.1, 2.2 and 3.2 of RFC 2781) | methods with loops |
| `TextSearch.dfy` | search and highlighting in the file viewer | methods with loops |

How the pieces fit: `Session.dfy` defines each critical section as a function
on `Core` (`Published`, `Subscribed`, `Unregistered`, `Offered`, ...). The class
methods are proved to carry these functions out on real fields, and the state
machine of `Delivery.dfy` takes the same functions as its steps. In the same
way every method of `TerminalSession.dfy` takes objects that stand for a tab to objects
that stand for what the event function of `Client.dfy` makes of it. Data that only records a run
(what was ever sent, shown, written) is marked as such and decides nothing.

Where the documentation and the code differ, the code is modelled:

* `docs/protocol.md:107` promises all subscribers the same `out` stream after
  their replay. Inside a resize window a new subscriber is not sent chunks that
  others get and that are in the scrollback. `NotEverybodySeesTheSame` is a run
  that shows it; `CompleteIffNothingWithheld` says exactly when the promise holds.
* `docs/protocol.md:98` says the first frame is always the replay. The socket's
  reader answers requests directly, so a pong can overtake it. That cannot happen to
  the mobile client, which asks for nothing before its replay (`ReplayComesFirst`).
  Any other client is sure of it exactly as long as nothing but input of its waits for the
  reader, or the session is closed and refuses the input that comes before anything else
  (`SureIffOnlyInputSent`, `EarlyPingIsAnsweredFirst`).
* Output can follow the exit frame, because reading the PTY and waiting for the shell
  are separate threads. The client accepts it and never shows it: nothing is scheduled
  that would write it (`OutputAfterExitIsNeverShown` is a whole run).
* Changing the presentation rebuilds the terminal from at most 4 MiB of history, so after
  a full replay one more chunk and a toggle leave only the chunk (`RedrawMayShorten`).
  These are the two ways accepted text stays off the screen, and the only ones
  (`ShowsAllIffNothingLost`, `NothingIsMissing`, `LiveTerminalIsComplete`).
* The recorded size and the PTY's can part when two resizes overlap at the PTY. They
  are sure to agree in the end exactly when all resizes in flight ask for one size
  (`AgreesIffOneSize`, `BeginIsSafeIff`, `OverlappingResizesDisagree`).
* The reaper may close a session that somebody has just attached to
  (`ReaperMayTakeAnAttachedSession`): it takes a session exactly when it has looked at
  it and found it stale, whatever happens to the session afterwards
  (`TakenIffFoundStale`, `FoundStaleIsClosed`, `ThrownOutIffCameTooLate`).
* A path that is listed or returned can be asked for again exactly when it does
  not begin or end with white space, because requests are trimmed (`AskingAgain`,
  `ListedEntryIsNamed`, `BlankNamesAreLost`).
* Highlighting assumes case folding does not lengthen the text
  (`FoldingMayOnlyShrink`), and the search that it leaves no query empty
  (`SearchMovesOn`).

## Model

| member | source | states |
|---|---|---|
| Scrollback.WriteAtHead | relay/internal/session/ringbuffer.go:77-91 | overwriting the oldest bytes of the circle and moving its head leaves, read from the head, the old contents without their first bytes, followed by the new ones |
| Scrollback.RingBuffer.Write | relay/internal/session/ringbuffer.go:34-75 | after any write to any capacity the buffer holds the last bytes of everything ever written; both wrapping calls meet the length precondition, and the head is 0 until the buffer is full |
| Scrollback.RingBuffer.Snapshot | relay/internal/session/ringbuffer.go:93-113 | a fresh array with the last capacity bytes ever written, oldest first |
| Scrollback.OverwriteInPlace | relay/internal/session/ringbuffer.go:84-85 | replacing a stretch of the circle without reaching its end drops exactly the oldest bytes |
| Scrollback.OverwriteWrapped | relay/internal/session/ringbuffer.go:86-89 | so does replacing the end and then the front |
| Scrollback.WritesAreTail | relay/internal/session/ringbuffer.go:36-75 | however output is cut into writes, the store is the tail of the whole |
| Cwd.CwdTracker.Feed | relay/internal/session/cwdtracker.go:36-89 | the loop over a read's bytes leaves the state and reports the paths of the byte-by-byte machine |
| Cwd.ParseOsc99 | relay/internal/session/cwdtracker.go:91-103 | at most one path comes from one sequence |
| Cwd.FeedConcat | relay/internal/session/cwdtracker.go:8-9 | a sequence that straddles two reads is reported as if it had come in one |
| Cwd.BodyBounded | relay/internal/session/cwdtracker.go:30-32 | the collected body never exceeds 4096 bytes |
| Cwd.PathsInOsc | relay/internal/session/cwdtracker.go:56-85 | how a whole-stream parser reads a sequence: completed by BEL or ST, abandoned by any other escape, restarted only by a second ESC |
| Cwd.FeedFrom | relay/internal/session/cwdtracker.go:38-89 | from any state the machine reports exactly what the whole-stream parser finds in the unread bytes and the new ones |
| Cwd.ChunkingDoesNotMatter | relay/internal/session/cwdtracker.go:5-18 | any two cuts of one stream report the same paths, those of the whole stream, and end in one state with a bounded body |
| Prompts.PromptsAreThoseConfigured | relay/internal/config/shell.go:83-107 | the bytes a configured prompt prints, for PowerShell and for cmd |
| Prompts.TextParsed | relay/internal/config/shell.go:83-107 | a printed prompt, in the BEL or the ST form, is read as its path and then the rest of its line |
| Prompts.PromptsReadBack | relay/internal/config/shell.go:70-107 | any run of prompts of either shell with quiet output in between is read back as exactly the printed directories |
| Prompts.CmdTrailerIsQuiet | relay/internal/config/shell.go:105-107 | the path cmd prints a second time does not disturb the reading |
| Prompts.PathsReportable | relay/internal/session/cwdtracker.go:91-103 | no reported path holds a terminator or is longer than the bound |
| Prompts.ReadBackIffTrackable | relay/internal/config/shell.go:83-107 | a lone prompt is read back as its directory if and only if that is non-empty, bounded, free of terminators and of white space or quotes at its ends |
| OscBodies.SpacesAreUnicode | relay/internal/session/cwdtracker.go:97-97 | what is trimmed as white space is the UTF-8 encoding of exactly the white space of Unicode |
| OscBodies.ReadIffCarried | relay/internal/session/cwdtracker.go:91-103 | a body is read as a path if and only if it is `9;9;`, white space, quotes, that path, quotes and white space, with nothing of these left at the path's ends |
| OscBodies.QuotedPathsAreCarried | relay/internal/session/cwdtracker.go:97-98 | however a trackable path is quoted and set off by white space, such a body carries it |
| OscBodies.CarriedPathsAreReported | relay/internal/session/cwdtracker.go:56-85 | a whole sequence, ended by BEL or ST, reports the path its body carries |
| Session.Session.SuppressResizeRepaint | relay/internal/session/session.go:226-245 | a chunk is dropped exactly inside the window when it looks like a repaint, and an expired window is forgotten |
| Session.Session.Record | relay/internal/session/session.go:186-194 | the scrollback takes the chunk unless dropped; activity and directory are recorded either way |
| Session.Session.Deliver | relay/internal/session/session.go:195-218 | every registered subscriber is sent the chunk, skipped as too new, or removed as full or gone, each by its own state only |
| Session.Session.PublishOutput | relay/internal/session/session.go:176-224 | one read as one critical section, followed by cancelling those it removed |
| Session.Session.PumpRead | relay/internal/session/manager.go:291-302 | the tracker sees every byte read, suppressed or not, and its paths go with the chunk |
| Session.Session.Subscribe | relay/internal/session/session.go:322-355 | snapshot, registration and replay frame are one step; a closed session registers nobody |
| Session.Session.RemoveSubscriber | relay/internal/session/session.go:357-363 | removed from the map and cancelled |
| Session.Session.SendOrDrop | relay/internal/session/session.go:377-386 | one send that never blocks: delivered, or the full and still live subscriber removed and cancelled, or nothing for one already going |
| Session.Session.Fanout | relay/internal/session/session.go:366-387 | each subscriber of the snapshot is sent the frame or, when full and still live, removed and cancelled |
| Session.Session.Kill | relay/internal/session/session.go:259-270 | only the call that finds the session open closes the PTY |
| Session.Session.Resize | relay/internal/session/session.go:128-151 | bounds, closed and same-size checks in that order; on success the size and the window are recorded, else nothing changes |
| Session.Session.WriteInput | relay/internal/session/session.go:154-170 | input counts as activity only once the PTY has taken it |
| Session.Session.WaitExit | relay/internal/session/manager.go:313-340 | the exit is recorded, every subscriber sent the frame it has room for and cancelled, and the map gone |
| Delivery.ServedSent | relay/internal/session/session.go:211-212 | a chunk sent extends the promised stream by exactly itself |
| Delivery.ServedPassed | relay/internal/session/session.go:208-210 | a chunk withheld from a new subscriber, or after removal, is not owed to it |
| Delivery.ServedNew | relay/internal/session/session.go:339-351 | a new subscriber starts with the replay of everything published so far, cut to capacity |
| Delivery.PublishKeepsInv | relay/internal/session/session.go:182-224 | publishing keeps the delivery promise of every subscriber, the scrollback and the directory right |
| Delivery.SubscribeKeepsInv | relay/internal/session/session.go:333-352 | so does a subscription at any instant |
| Delivery.RemoveKeepsInv | relay/internal/session/session.go:357-364 | so does a removal |
| Delivery.DequeueKeepsInv | relay/internal/server/websocket.go:108-126 | so does taking a frame off a queue |
| Delivery.ExitSendKeepsInv | relay/internal/session/session.go:377-386 | so does each send of the exit frame from a snapshot that may be stale |
| Delivery.ExitCollectKeepsInv | relay/internal/session/manager.go:327-334 | so does taking the map away |
| Delivery.StepKeepsInv | relay/internal/session/session.go:176-387 | every step of every thread keeps all of it |
| Delivery.RunKeepsInv | relay/internal/session/session.go:176-387 | and so does every interleaving |
| DeliveryLaws.GapFree | relay/internal/session/session.go:311-355 | in every interleaving a subscriber's frames are one replay, then every eligible chunk between its registration and its removal in order, and at most one exit; its queue never exceeds 256 |
| DeliveryLaws.RunExtends | relay/internal/session/session.go:176-181 | what was published and sent is never taken back, and a subscriber's range, once ended, stays ended |
| DeliveryLaws.ReplayAgreesWithStaying | relay/internal/session/session.go:333-351 | at any instant the last capacity bytes sent to an attached subscriber that nothing was withheld from are the replay a newcomer would get |
| DeliveryLaws.CompleteIffNothingWithheld | relay/internal/session/session.go:197-210 | an attached subscriber has been sent everything since its replay if and only if no chunk fell in its window |
| DeliveryLaws.NotEverybodySeesTheSame | docs/protocol.md:104-107 | a run in which two attached subscribers are not sent the same output |
| Independence.OthersNeverNotice | docs/protocol.md:109-109 | leaving one subscriber out of a run, with all its own steps, leaves everybody else exactly as they were, through overflow, cancellation and the exit pass |
| Independence.OthersUnaffected | relay/internal/session/session.go:377-386 | two runs in which the others take the same steps differ, at the end, in that subscriber only |
| DeliveryLaws.NobodyIsForgotten | relay/internal/session/manager.go:326-336 | once the exit path is done and no removal is in flight, every subscriber there ever was is cancelled |
| SessionEnd.ExitCanAlwaysFinish | relay/internal/session/manager.go:313-336 | from every reachable state the exit path can be brought to its end by its own steps and the cancellations still owed, whatever the subscribers do |
| SessionEnd.OnlyTheGoneAreCancelled | relay/internal/session/session.go:357-386 | nobody is cancelled but for the end of its own connection, after a removal, or by the exit path once the map is gone |
| SessionEnd.LeavingIsPossible | relay/internal/session/session.go:357-364 | whoever leaves is out of the map and cancelled, with its queue as it was |
| SessionEnd.OnlyMembersAreCancelled | relay/internal/session/session.go:219-224 | only those ever registered wait to be cancelled |
| DeliveryLaws.NobodyJoinsAfterwards | relay/internal/session/session.go:334-338 | from a session's closing on nobody is registered any more |
| DeliveryLaws.NilMapIsNeverWritten | relay/internal/session/session.go:345-346 | a registration only ever finds the map there |
| DeliveryLaws.CwdIsLastReported | relay/internal/session/manager.go:298-301 | the directory is the last one in all output ever read, suppressed chunks included |
| SessionHistory.RepaintsLookLikeIt | relay/internal/session/session.go:239-245 | what counts as a repaint: a chunk in which the cursor is hidden, sent home and shown again and at least two lines are erased |
| SessionHistory.WindowIsOfTheLastResize | relay/internal/session/session.go:226-237 | in every run the window remembered is that of the run's last resize, 750 ms from it, unless something was read after its end |
| SessionHistory.KeptUnlessRepaint | relay/internal/session/session.go:182-194 | a read goes to the scrollback unless it is a repaint within 750 ms of the last resize |
| SessionHistory.ChunksAreWhatWasKept | relay/internal/session/session.go:176-194 | in every run what is kept is all that was read without exactly those repaints |
| SessionHistory.WithoutResizesAllIsKept | relay/internal/session/session.go:227-229 | a session that is never resized keeps all its output |
| SessionHistory.WhoIsSent | relay/internal/session/session.go:195-218 | what publishing does to each subscriber: nothing to those kept out for 1500 ms by a window, the chunk to those with fewer than 256 frames waiting, removal for those with 256 |
| SessionHistory.WhoIsSentTheExit | relay/internal/session/session.go:377-386 | what one send of the exit frame does: sent where fewer than 256 frames wait, a full and live subscriber marked for removal, nobody else touched |
| SessionHistory.ExitPassIsTheFanout | relay/internal/session/session.go:366-387 | with nothing in between, the steps of a send, a removal and its cancelling are what the session's own pass does to a subscriber |
| SessionHistory.ActivityAndSize | relay/internal/session/session.go:143-150 | in every run the time of the last activity is that of the last read or input, and the size that of the last resize; nothing else counts |
| SessionHistory.SubscribedWhen | relay/internal/session/session.go:339-344 | every subscriber is known to have come when it subscribed |
| Resizes.OverlappingResizesDisagree | relay/internal/session/session.go:141-149 | overlapping ones can leave them different, and asking for the recorded size then changes nothing |
| Resizes.OneSizeRunsAgree | relay/internal/session/session.go:132-149 | in runs where every resize joins only others of its size, the recorded size is the PTY's whenever nobody is in between |
| Resizes.AgreesIffOneSize | relay/internal/session/session.go:132-149 | however the resizes in flight end, the recorded size will be the PTY's: if and only if they all carry one size |
| Resizes.BeginIsSafeIff | relay/internal/session/session.go:132-140 | so a new resize is safe if and only if it asks for what those in flight ask for |
| Lifecycle.CreateKeepsSession | relay/internal/session/manager.go:109-151 | the steps of a create keep every session's state sound, the late create included |
| Lifecycle.KillKeepsSession | relay/internal/session/manager.go:197-210 | so do the steps of a kill |
| Lifecycle.ReapKeepsSession | relay/internal/session/manager.go:258-289 | so do the steps of a reaper's pass |
| Lifecycle.ShutKeepsSession | relay/internal/session/manager.go:212-235 | so do the steps of a shutdown |
| Lifecycle.OwnStepKeepsSession | relay/internal/session/manager.go:315-343 | so do the exit path and whatever touches a session |
| Lifecycle.StepKeepsInv | relay/internal/session/manager.go:92-343 | every step of every thread keeps the whole invariant |
| Lifecycle.RunKeepsInv | relay/internal/session/manager.go:92-343 | and so does every interleaving |
| LifecycleLaws.EveryPtyIsClosedOnce | relay/internal/session/session.go:259-270 | no PTY is closed twice and no done channel either; a killed session's PTY, and a late create's, has been closed or is about to be |
| LifecycleLaws.MissingMeansClosed | relay/internal/session/manager.go:141-148 | a registered session missing from the map is closed unless a shutdown has begun; the map is nil exactly then |
| LifecycleLaws.MapWritesAreLive | relay/internal/session/manager.go:141-148 | no step adds to the nil map |
| LifecycleLaws.RunGrows | relay/internal/session/session.go:260-270 | closed flags never revert, and a session that left the map stays out |
| LifecycleLaws.ShutdownLeavesNobody | relay/internal/session/manager.go:212-235 | once Shutdown has returned, and whatever happens later, every session ever registered is closed, the map empty and the reaper stopped |
| LifecycleLaws.KilledIsGone | relay/internal/session/manager.go:197-210 | a kill that reports success leaves its session closed and out of the map for good |
| LifecycleLaws.UninterruptedKill | relay/internal/session/manager.go:197-210 | the steps of a kill that nothing interrupts have exactly the effect that is the contract of the manager's own call |
| LifecycleLaws.UnlimitedIsNeverReaped | relay/internal/session/manager.go:255-257 | no step of the reaper touches a session whose timeout is not positive |
| Idleness.OnlyTheIdleAreClosed | relay/internal/session/manager.go:262-276 | whenever the reaper closes a session, it has looked at it in the pass of a tick and found it open, with nobody attached and its last activity more than its positive timeout before the tick |
| Idleness.InTimeIsNeverReaped | relay/internal/session/manager.go:265-269 | a session whose ticks all come within its timeout of its last activity is never closed by the reaper |
| LifecycleLaws.ReaperMayTakeAnAttachedSession | relay/internal/session/manager.go:262-288 | a run in which the reaper kills a session somebody attached to after the check |
| LifecycleLaws.PassClosesTheStale | relay/internal/session/manager.go:258-289 | whatever goes on meanwhile, a pass closes every session that is stale at its start and left alone |
| LifecycleLaws.TakenIffFoundStale | relay/internal/session/manager.go:263-276 | in every run the reaper has a session on its list at some point if and only if it has looked at it and found it stale |
| LifecycleLaws.FoundStaleIsClosed | relay/internal/session/manager.go:277-288 | and a session found stale is closed by the end of the pass, whoever attaches to it or uses it meanwhile |
| LifecycleLaws.ThrownOutIffCameTooLate | relay/internal/session/manager.go:262-288 | an open session that somebody is attached to is the next the reaper may close if and only if it found it stale in this pass, has not taken it up yet, and somebody attached since |
| LifecycleLaws.AbandonedIsClosedInTime | relay/internal/session/manager.go:239-252 | with ticks at most R apart, a session left alone is closed by a tick no later than lastIO + T + R |
| LifecycleLaws.ShutdownCanAlwaysReturn | relay/internal/session/manager.go:212-252 | from every reachable state with a shutdown in progress, finitely many steps of it and of the reaper lead to its return |
| LifecycleLaws.ReaperStopsOnlyForShutdown | relay/internal/session/manager.go:231-252 | the reaper's loop ends for nothing but a shutdown |
| LifecycleHistory.UseIsRemembered | relay/internal/session/session.go:164-169 | in every run a session's viewers are those who attached while it was open and have not left, and its last activity is its building or its last use; nothing else counts |
| LifecycleHistory.AnExitEndsTheSession | relay/internal/session/manager.go:313-343 | from any state with the shell alive and no pass scanning, an exit closes the session, closes the done channel once and takes it, and nobody else, out of the map |
| LifecycleHistory.ACreateRegistersOrUndoes | relay/internal/session/manager.go:137-151 | a create that finds the manager open registers its session; one that comes after the shutdown closes the PTY once and leaves nothing in the map |
| LifecycleHistory.AShutdownCanBegin | relay/internal/session/manager.go:212-235 | an open manager can be shut down unless a pass is scanning, which empties the map at once and can be brought to its return |
| LifecycleHistory.MapIsFixedWhileScanning | relay/internal/session/manager.go:261-275 | while a pass scans under the manager's lock, nobody changes the map |
| Manager.Manager.constructor | relay/internal/session/manager.go:55-81 | a manager starts empty and open, with usable defaults |
| Manager.Manager.Create | relay/internal/session/manager.go:92-151 | size defaults and bounds, resolver, spawn and closed checks in that order; a new session starts open, idle and with the chosen timeout, and a late one has its PTY closed |
| Manager.Manager.Kill | relay/internal/session/manager.go:197-210 | an unknown session changes nothing; else the session, the map and the answer are those of one whole kill, and no other session is touched |
| Manager.Manager.FindStale | relay/internal/session/manager.go:259-276 | the candidates are exactly the open sessions with a positive timeout, no subscribers and lastIO before now minus it |
| Manager.Manager.ReapOnce | relay/internal/session/manager.go:254-289 | an uninterrupted pass closes and removes exactly those and leaves all others alone |
| Manager.Manager.KillAll | relay/internal/session/manager.go:228-230 | exactly the named sessions are closed, each PTY once if the session was open |
| Manager.Manager.Shutdown | relay/internal/session/manager.go:212-235 | every session in the map is closed, the map gone, and a second call changes nothing |
| Locks.ManagerCallsNeutral | relay/internal/session/manager.go:174-289 | the manager's calls take locks in order and give them back |
| Locks.SessionCallsNeutral | relay/internal/session/session.go:128-387 | so do the session's |
| Locks.CallsAreOrdered | relay/internal/session/manager.go:174-343 | every call takes locks in the order manager, session, ring buffer, and calls the PTY or waits for the reaper with none held |
| Locks.TopHolderSteps | relay/internal/session/session.go:186-219 | whoever holds a lock of the highest rank held is not blocked |
| Locks.LocksExclude | relay/internal/session/manager.go:44-45 | in every run no two threads are inside one lock, nor one writing while another reads |
| Locks.CallsStopFirst | relay/internal/session/manager.go:231-234 | nobody waits for the reaper without having told it to stop |
| Locks.CallsCanFinish | relay/internal/session/manager.go:174-343 | from every reachable state all calls in flight can be brought to their end without any new call or tick, the shutdown's wait among them |
| Locks.OnlyShutdownEndsTheReaper | relay/internal/session/manager.go:239-252 | without a shutdown the reaper's loop never ends |
| Locks.NoDeadlock | relay/internal/session/manager.go:174-289 | for any number of threads that go on making calls, a reaper whose loop ends only when told to, and any schedule: while one call is unfinished, somebody can go on without a new one |
| LockUse.CallsTakeTheirLocks | relay/internal/session/manager.go:92-343 | how often every call takes each lock, gives it back, sends, calls the PTY and waits, for each session and subscriber it has to do with |
| LockUse.NothingBlocksWithLocksHeld | relay/internal/session/session.go:128-170 | counted from what a call has taken and not given back: a lock taken is above all those held, one given back is held, and the PTY and the reaper are waited for with none held |
| LockUse.IdleThreadsMayCall | relay/internal/session/manager.go:239-252 | an idle thread can begin any call, and the reaper a pass until its loop has ended |
| LockUse.CallsRunToTheirEnd | relay/internal/session/manager.go:212-252 | nothing but its own steps takes a thread through its call, in order; only the reaper makes passes, none once it has ended, and nobody is past waiting for it before |
| RenderHistory.AppendRetains | mobile/lib/terminal/terminal_session.dart:295-304 | eviction always leaves the longest run of newest chunks within 4 MiB, or the newest alone |
| RenderHistory.RetainedIsUnique | mobile/lib/terminal/terminal_session.dart:299-303 | there is only one such run |
| RenderHistory.LongerDoesNotFit | mobile/lib/terminal/terminal_session.dart:299-303 | no longer run fits |
| Terminal.RenderStore.Append | mobile/lib/terminal/terminal_session.dart:295-304 | appending and evicting in place keeps the byte counter equal to the sum of what is retained, which stays the longest run that fits |
| Terminal.RenderStore.Reset | mobile/lib/terminal/terminal_session.dart:289-293 | the history starts over with one chunk |
| Terminal.TerminalScreen.OnReplay | mobile/lib/terminal/terminal_session.dart:187-215 | a new terminal object of the same size takes the place of the old one, which is not written to again, the replay waits for it and the history starts over: what the event does to the tab |
| Terminal.TerminalScreen.OnOut | mobile/lib/terminal/terminal_session.dart:216-224 | output before a replay is ignored, before readiness held back, else written, and recorded in the history |
| Terminal.TerminalScreen.OnExit | mobile/lib/terminal/terminal_session.dart:225-235 | the exit notice goes the way output goes, readiness ends and the tab is closed |
| Terminal.TerminalScreen.ApplyPendingReplay | mobile/lib/terminal/terminal_session.dart:251-266 | only for its own terminal generation, and once; then the screen is ready unless the tab is closed |
| Terminal.TerminalScreen.WritePending | mobile/lib/terminal/terminal_session.dart:255-260 | the scheduled text and all held-back output are written, in that order |
| Terminal.TerminalScreen.Connect | mobile/lib/terminal/terminal_session.dart:125-146 | an attempt drops what waits, keeps what is written and leaves the tab connecting, or reconnecting when it fails; nothing once disposed |
| Terminal.TerminalScreen.ScheduleReconnect | mobile/lib/terminal/terminal_session.dart:350-363 | so does losing the socket, unless the tab is closed or disposed |
| Terminal.TerminalScreen.Dispose | mobile/lib/terminal/terminal_session.dart:374-396 | disposing drops what waits for good and keeps the terminal |
| Terminal.TerminalScreen.RebuildFromHistory | mobile/lib/terminal/terminal_session.dart:268-287 | a new terminal object waits for the joined history, once there has been a replay |
| Client.TextFollows | mobile/lib/terminal/terminal_session.dart:216-235 | new text goes to the end of what is held, the history and the accepted text alike |
| Client.OnReplayKeeps | mobile/lib/terminal/terminal_session.dart:187-215 | a replay keeps the client's invariant |
| Client.OnOutKeeps | mobile/lib/terminal/terminal_session.dart:216-224 | so does output |
| Client.OnExitKeeps | mobile/lib/terminal/terminal_session.dart:225-235 | so does an exit |
| Client.ApplyShowsSame | mobile/lib/terminal/terminal_session.dart:251-260 | applying moves text from pending to written and changes nothing else about the display |
| Client.RebuildKeeps | mobile/lib/terminal/terminal_session.dart:268-287 | a rebuild keeps it, though it may shorten the display to what the history holds |
| Client.CallbackKeeps | mobile/lib/terminal/terminal_session.dart:243-266 | a scheduled callback keeps it, late ones included |
| Client.HandleKeeps | mobile/lib/terminal/terminal_session.dart:125-396 | every event keeps it |
| Client.HandleAllKeeps | mobile/lib/terminal/terminal_session.dart:125-396 | and so do any events in any order |
| ClientLaws.DisplayIsConserved | mobile/lib/terminal/terminal_session.dart:174-304 | while a replay has been received, the text held (written or waiting) is a suffix of everything accepted and has the joined history as a suffix, with equality while nothing has been evicted |
| ClientLaws.HistoryIsLongestThatFits | mobile/lib/terminal/terminal_session.dart:289-304 | the history is the longest run that fits and no other run is |
| ClientLaws.FlagsMakeSense | mobile/lib/terminal/terminal_session.dart:47-51 | ready means live, replay written and nothing pending, and the converse; scheduled text is applied at most once |
| ClientLaws.CallbackIsForItsTerminal | mobile/lib/terminal/terminal_session.dart:243-260 | a callback writes only to the terminal it was scheduled for, and exactly the scheduled and held-back text |
| ClientLaws.ExitNoticeNamesTheCode | mobile/lib/terminal/terminal_session.dart:225-227 | the exit notice is a line of its own with the exit code in decimal, signed and without leading zeros |
| ClientComplete.OnlyRedrawsShorten | mobile/lib/terminal/terminal_session.dart:174-304 | in every run all that was accepted is written or waiting, however much has been evicted, if and only if the terminal was not made by a rebuild after an eviction |
| ClientComplete.ShowsAllIffNothingLost | mobile/lib/terminal/terminal_session.dart:216-287 | in every run with no replay waiting, the terminal shows everything accepted from its socket if and only if none of it came late and the terminal was not made by a rebuild after an eviction |
| ClientComplete.RedrawMayShorten | mobile/lib/terminal/terminal_session.dart:268-304 | a replay that fills the history, one more chunk and the line wrap toggled leave the chunk alone on the screen |
| ClientDisplay.RedrawShowsAllIffNothingEvicted | mobile/lib/terminal/terminal_session.dart:268-287 | a rebuild shows the joined history, and that is everything accepted if and only if nothing has been evicted |
| ClientDisplay.RedrawCompletes | mobile/lib/terminal/terminal_session.dart:84-98 | a presentation change and its callback leave a live tab ready, showing exactly the history, with the size for the new settings sent |
| ClientDisplay.ShownIffNothingCameLate | mobile/lib/terminal/terminal_session.dart:216-266 | in every run with no replay waiting, the terminal shows all the text it was made for and has been given since if and only if none of it came while the tab was closed with no replay waiting |
| ClientDisplay.OnlyStartingOverWritesIt | mobile/lib/terminal/terminal_session.dart:251-254 | such late text is written by nothing but a redraw or a new replay |
| ClientDisplay.OutputAfterExitIsNotShown | mobile/lib/terminal/terminal_session.dart:216-235 | the events at which it happens: output after the exit is accepted, not shown and not scheduled |
| ClientLaws.NeverStranded | mobile/lib/terminal/terminal_session.dart:350-372 | a tab neither closed nor disposed always has a socket or a retry armed |
| ClientLaws.NothingIsSentBeforeTheReplay | docs/protocol.md:102-102 | any input, resize or ping goes out only after this connection's replay has been written |
| Sending.TypingIsSent | mobile/lib/terminal/terminal_session.dart:314-317 | in every run, on a ready tab what is typed goes out at once as one frame on the current socket and a tick as one ping; on any other tab neither does anything |
| Sending.InputSentIsWhatWasTyped | mobile/lib/terminal/terminal_session.dart:314-342 | in every run the input sent on a socket is what was typed while the tab was ready on it, in order and nothing else, with one ping for each tick in that time |
| Sending.ReadyHasToldItsSize | mobile/lib/terminal/resize_policy.dart:16-36 | in every run the last size a ready tab has sent is the one it wants: the fixed width without line wrap, the visible one with it, for PowerShell the wider of the two, each within 1 to 500 |
| Sending.SizeIsSentIffItChanges | mobile/lib/terminal/terminal_session.dart:319-331 | a new widget size is sent by a ready tab if and only if it changes the size wanted |
| ClientLaws.GenerationsNeverReturn | mobile/lib/terminal/terminal_session.dart:62-66 | generations only grow |
| ClientLaws.OldSocketsAreMute | mobile/lib/terminal/terminal_session.dart:149-168 | once superseded, a socket's frames, errors and end never have an effect again |
| Reconnecting.LosingTheSocket | mobile/lib/terminal/terminal_session.dart:159-168 | in every run the error or end of the current socket gives up what waits, keeps what is written and arms a retry, unless the tab is closed; that of any other socket does nothing |
| Reconnecting.Retries | mobile/lib/terminal/terminal_session.dart:125-146 | a retry opens a socket of a new generation or arms another, and fires only while there is neither a socket nor an end to the tab |
| Reconnecting.NothingElseConnects | mobile/lib/terminal/terminal_session.dart:125-146 | without a retry armed no socket is opened |
| Reconnecting.GivingUp | mobile/lib/terminal/terminal_session.dart:374-396 | detaching closes the tab and disposing ends it, without socket or timer |
| Reconnecting.ComesBack | mobile/lib/terminal/terminal_session.dart:125-266 | from any state without a socket in which the tab is neither closed nor disposed, a connection, its replay and the callback make it ready again, showing the replay alone |
| Reconnecting.SettingsAreThoseLastGiven | mobile/lib/terminal/terminal_session.dart:84-98 | in every run the settings in force are those last given, whatever has happened to the connection |
| Wire.ReplayFirstUnlessOvertaken | relay/internal/server/websocket.go:82-126 | for any client, on a socket attached at any moment and in every run, the first frame is the replay unless the reader answered a request before the writer wrote at all |
| Wire.SureIffOnlyInputSent | relay/internal/server/websocket.go:82-106 | on such a socket, with nothing written yet, the client is sure to see the replay first if and only if the reader has nothing but input to get to, or ends before it gets further because the session is closed |
| Wire.EarlyPingIsAnsweredFirst | relay/internal/server/websocket.go:100-101 | a ping sent on a fresh socket can be answered before the replay |
| Wire.TheReplayCanBeWritten | relay/internal/session/session.go:333-351 | on a socket just attached the writer can write at once, and its first frame is the whole scrollback |
| Wire.WireCarriesTheQueue | relay/internal/server/websocket.go:108-126 | for any client and in every run what is on the wire, direct answers apart, is what the subscriber's queue has given up, each frame once and in order |
| Wire.HowRequestsEnd | relay/internal/session/session.go:128-163 | a request that the session refuses, being closed or out of bounds, fails; a resize to the size there is does nothing; any other goes through or, unless it is a ping, fails |
| Wire.WhatRequestsDo | relay/internal/server/websocket.go:82-106 | input that goes through counts as activity, a resize that does sets size and window, a ping and a failing resize are answered, and input that fails ends the reader |
| EndToEnd.OnMessageAccepts | mobile/lib/terminal/terminal_session.dart:174-241 | each frame adds exactly its text to what the client has accepted; a replay starts it over |
| EndToEnd.PumpWriteWired | relay/internal/server/websocket.go:108-126 | moving a frame from queue to socket keeps both sides in agreement |
| EndToEnd.ArriveWired | mobile/lib/terminal/terminal_session.dart:147-158 | so does its arrival, from the current socket or an old one |
| EndToEnd.ServeWired | relay/internal/server/websocket.go:82-106 | so does handling one request of the client |
| EndToEnd.StepKeepsWired | relay/internal/server/websocket.go:82-126 | so does every step of the whole system |
| EndToEnd.TerminalShowsOneSlice | mobile/lib/terminal/terminal_session.dart:125-287 | in every run, across reconnects, deferred replays, rebuilds and exits, once the current socket's replay has arrived the terminal shows one contiguous slice of that replay followed by its eligible chunks |
| AcrossReconnects.TerminalAlwaysShowsOneSlice | mobile/lib/terminal/terminal_session.dart:350-363 | in every run and at any time, between sockets too, the terminal is blank or shows one slice of some socket's replay followed by its eligible chunks |
| EndToEndLaws.ReplayComesFirst | docs/protocol.md:98-100 | to the mobile client, on every socket and in every run, the first frame is the replay and no other replay comes |
| EndToEndLaws.NothingIsMissing | mobile/lib/terminal/terminal_session.dart:251-287 | once everything has caught up, however much was sent, the terminal shows all that was ever sent to its subscriber if and only if none of it came late and the terminal was not made by a rebuild after an eviction |
| EndToEndLaws.LiveTerminalIsComplete | relay/internal/session/session.go:195-210 | caught up, live and attached, the terminal shows the end of what was published before and all that was published since, if and only if no chunk was withheld and it was not made by a rebuild after an eviction |
| EndToEndLaws.CatchingUpIsPossible | relay/internal/server/websocket.go:108-126 | from every reachable state with the current socket attached, writer, socket and callback lead to having caught up |
| InputArrives.InputArrivesInOrder | relay/internal/server/websocket.go:82-92 | in every run the input the relay's reader has handled on a socket is a beginning of what was typed while the tab was ready on it, in order and nothing else |
| InputArrives.StoppedReadersStay | relay/internal/server/websocket.go:89-92 | a reader that has stopped handles nothing more |
| InputArrives.NothingIsHeldUp | relay/internal/server/websocket.go:82-106 | a reader that goes on can handle whatever is left, and other clients' subscribers are served as ever |
| InputArrives.WhatServingDoes | relay/internal/server/websocket.go:82-106 | handling a request does to session and socket what it does for any client, and nothing to the tab or to another socket |
| LateOutput.OutputAfterExitIsNeverShown | relay/internal/session/manager.go:291-340 | a whole run, from attaching to the last frame read, whose last output follows the exit and is not on the screen |
| Paths.InsideRootIsPrefix | relay/internal/fileapi/service.go:387-395 | the textual check holds exactly when the root's components come first in the target, names such as `..foo` included |
| Paths.CleanTextJoins | relay/internal/fileapi/service.go:359-361 | joining a cleaned relative path leads where the path itself does |
| Paths.CleanStepsUpFirst | relay/internal/fileapi/service.go:360-360 | a cleaned relative path steps up at its beginning or not at all |
| Paths.RelLeadsBack | relay/internal/fileapi/service.go:377-384 | the relative result has no step up and joined to the base is the target |
| PathRequests.RequestsLeadWhereTheySay | relay/internal/fileapi/service.go:348-385 | any request, with white space around it or not, is answered for the path its components lead to, from the root for an absolute text and from the base for any other |
| PathRequests.EveryRequestIsSpacedOut | relay/internal/fileapi/service.go:352-352 | every request is such a text with white space around it |
| PathRequests.AbsoluteRequests | relay/internal/fileapi/service.go:357-365 | an absolute path under the base is found with its relative form, and elsewhere is refused whatever the links are |
| PathRequests.RelativeRequests | relay/internal/fileapi/service.go:359-361 | a path of plain names is looked for under the base |
| PathRequests.StepsOutAreRefused | relay/internal/fileapi/service.go:363-365 | a request that steps up from the base and does not come back is refused |
| Paths.ResolvedStaysInside | relay/internal/fileapi/service.go:348-385 | for any links: refused exactly when the named path or the one it leads to is outside, not found and failed exactly when following links says so, and an answer is inside with its relative path |
| Paths.AskingAgain | relay/internal/fileapi/service.go:352-361 | asking for a returned path names the same thing if and only if it is free of white space at its ends |
| Paths.ListedEntryIsNamed | relay/internal/fileapi/service.go:216-219 | so does the path shown for an entry of a listing |
| Paths.BlankNamesAreLost | relay/internal/fileapi/service.go:216-219 | the path of an entry whose name begins with a blank names another one |
| Utf16.DecodeUtf16 | relay/internal/fileapi/service.go:455-464 | odd lengths are refused, else the loop's units are decoded in the given byte order |
| Utf16.EncodePwshScript | relay/internal/config/shell.go:109-116 | the buffer holds the little-endian units of the script with unix line ends |
| Utf16.DecodeUndoesEncode | relay/internal/config/shell.go:112-112 | decoding gives back every text, surrogate pairs included |
| Utf16.EncodeUndoesDecode | relay/internal/fileapi/service.go:463-463 | re-encoding gives back exactly the unit sequences without lone surrogates |
| Utf16.UnitsOfBytes | relay/internal/config/shell.go:113-116 | bytes of either order read back as the units |
| Utf16.BytesOfUnits | relay/internal/fileapi/service.go:459-462 | and units as the bytes |
| Utf16.Utf16FilesReadBack | relay/internal/fileapi/service.go:419-432 | a marked file is shown as a text if and only if it is that text encoded after the mark and looks like text, so reading loses nothing |
| Utf16.ShownIsText | relay/internal/fileapi/service.go:404-453 | what is shown looks like text and has the label of its mark; unmarked, it is UTF-8 wherever it can be, Shift_JIS only where it cannot, and never holds a NUL |
| Utf16.Utf8MarkMakesNoDifference | relay/internal/fileapi/service.go:408-418 | a UTF-8 file is shown the same with its mark as without |
| Utf16.ScriptsArrive | relay/internal/config/shell.go:109-116 | what PowerShell decodes is the script with unix line ends |
| Utf16.LineEndsAreReplaced | relay/internal/config/shell.go:110-111 | every CR LF becomes a LF, and a text without one stays as it is |
| Utf16.TextHoldsNoControls | relay/internal/fileapi/service.go:466-477 | of the control characters a text holds only tab, line feed, form feed and carriage return, and no replacement character |
| TextSearch.FindIn | mobile/lib/files/text_search.dart:17-24 | the loop takes each match as early as possible after the one before |
| TextSearch.FindTextMatches | mobile/lib/files/text_search.dart:8-25 | an empty query finds nothing; else the search runs on the folded or plain text |
| TextSearch.SearchMovesOn | mobile/lib/files/text_search.dart:17-23 | the loop moves on after every match if and only if the needle is not empty |
| TextSearch.MatchesAreExactlyTheLeftmost | mobile/lib/files/text_search.dart:8-25 | a list is the result if and only if it holds non-overlapping occurrences in order and every occurrence starts inside one of them |
| TextSearch.FoldingMayOnlyShrink | mobile/lib/files/text_search.dart:14-15 | all matches can be cut out of the content if and only if folding has not lengthened it |
| TextSearch.HighlightedIsTheQuery | mobile/lib/files/text_search.dart:14-22 | with unit-by-unit folding every match is the query up to case |
| TextSearch.NextTextMatchIndex | mobile/lib/files/text_search.dart:27-38 | the next index is a match whenever there is one |
| TextSearch.StepsFromOutside | mobile/lib/files/text_search.dart:31-35 | from outside the matches a step forward goes to the first and one back to the last |
| TextSearch.StepsUndo | mobile/lib/files/text_search.dart:36-37 | forward and backward undo each other |
| TextSearch.RoundTrip | mobile/lib/files/text_search.dart:36-36 | going forward passes every match once before it repeats |
| TextSearch.Spans | mobile/lib/screens/file_browser_screen.dart:788-815 | the loop cuts the content at the matches |
| TextSearch.SpansMakeUpTheContent | mobile/lib/screens/file_browser_screen.dart:788-815 | the pieces join to the content again and the highlighted ones are the matches, one each in order, the current one standing out |
| TextSearch.EveryMatchIsInPlace | mobile/lib/screens/file_browser_screen.dart:791-808 | each match's span starts where the match does |
| TextSearch.NoPieceIsEmpty | mobile/lib/screens/file_browser_screen.dart:791-815 | no plain piece is empty unless there is nothing to show, and a content without matches is one piece |

## Left out

- Session.Session.Resize: the PTY call is taken as one with the two critical sections around it; `Resizes` models them apart.
- Session.Session.Deliver: subscribers are numbers with records in a map of the session instead of objects, so aliasing between subscriber objects is not modelled; the same holds for the sessions of `Lifecycle`.
- Session.Session.WaitExit: runs its sections without interruption and leaves out closing the done channel; `Delivery` and `Lifecycle` interleave them.
- Session.Session.Kill: how closing the PTY went is a parameter, as are the results of all other PTY calls.
- Manager.Manager.constructor: starts no reaper and has no reap interval; `Lifecycle` has the reaper, and its ticks come at any times.
- Manager.Manager.Create: session ids are assumed fresh; random numbers, clocks and the shell's own start are parameters.
- Manager.Manager.Shutdown: telling the reaper to stop and waiting for it are one flag here; `Lifecycle` and `Locks` take them apart.
- Locks.NoDeadlock: PTY calls are assumed to return; goroutines that wait for a socket or a queue hold no lock and are not threads here.
- LifecycleLaws.AbandonedIsClosedInTime: says nothing once a shutdown has begun, which closes every session anyway.
- LifecycleLaws.ShutdownCanAlwaysReturn: that the steps leading to the return are taken is up to the scheduler; the reaper may take ticks meanwhile.
- Terminal.TerminalScreen.ApplyPendingReplay: the tab's socket, timers and sizes are modelled on values, in `Client`, where updates in place are straight assignments; only history and screen are objects.
- Wire.ReplayFirstUnlessOvertaken: the writer takes a frame off the queue and writes it in one step, so a direct answer never falls in between and the queue's slot is free no earlier; the same holds for `EndToEnd`.
- EndToEnd.ServeWired: handling a request is one step here, whatever the session said when the reader took it up, which allows all runs of `Wire` and more.
- TextSearch.FindTextMatches: needs case folding to leave no query empty; the source's loop would otherwise not end.
- Utf16.EncodePwshScript: the base64 step is left out.
- Utf16.ShownIsText: the UTF-8 and Shift_JIS decoders are parameters.
- Paths.ResolvedStaysInside: paths are slash-separated; drive letters, UNC names and case-insensitive comparison are not modelled, and following links is a parameter.
- Terminal.TerminalScreen.ScheduleReconnect: only what it does to the screen and the state; its timer is `retryArmed` in `Client`.
- The delay before a reconnect is left out; the counter behind it is reset after every attempt that opens a socket.
- A writer that takes the cancellation branch may drop the rest of its queue; the model lets a socket stop being written at any point, which covers it.
- The channel between relay and client carries frames and bytes: JSON, UTF-8 replacement and message limits are left out, so the byte size of a text is its length.
- Change notifications and the last error text are left out, and the terminal widget is the list of texts written to it.
- Time is an integer number of nanoseconds supplied to each step; a choice a `select` may make is a parameter of the step.
- Listing, metadata and renaming: `Info`, `List`, `Rename`, `Roots` and directory listings copy fields and sort; only the locks they take are modelled.
- `SetCWD` only seeds a directory from outside the package; the directory theorem is about runs without it.
- Loops that only copy or sort (`NewService`, `listResolved`) and the size limit on files read would only add easy members.
- HTTP routing, authentication, configuration, the service wrapper, the attach client, the web page's own reconnect logic and all widgets: single-branch checks, plumbing or repetition of what is here.
