# A lock and file service, modelled and verified

The service keeps small files and directories, whose locks, contents and listings are
replicated through a committed log.  Clients open handles within sessions, wait for locks,
and cache contents that the server invalidates by events.  A write that succeeds returns
only after every subscribed client has acknowledged its event or was given up; a write whose
session is gone by the time its handler looks it up again fails after it was applied, and
tells nobody.

The model follows the program from the bottom up:

- `Listing`, `Paths`: a directory's content as NUL-separated names that are removed by
  substring search, and the parent and file name of a path.
- `Store` says what one log entry does to a value of the state; `StateMachines` is the state
  machine as the server has it, a class whose methods edit the file table and the session
  entries in place, and each method is proved to do what `Store` says.
- Laws of the state machine over whole runs: `Locks` (exclusion, sequencers, wake-ups),
  `Handles` (numbers, paths and validity of handles), `Contents` (what a file holds),
  `Owners` and `LeftBehind` (who may own a lock, and who is left behind as an owner), `Tree`
  (listings and the name tree), `Report` (what EndSession answers), `Replicas` (leader and
  followers), `Subscriptions` (which open handle is subscribed, and when its file is gone),
  `Histories` (owners, sequencers and kinds of files, from the entries before), `Answers`
  (what every action is answered, and when it ends the process).
  `Easing` is the common view of Close, Rel and EndSession they share.
- `LockRpc`: the lock handlers as threads with a mutex per file and a pending log.  The wait,
  the instance check, the existence check, the append and the application are separate steps,
  and every interleaving of them is covered.  `LockRuns` says what a passed check is still
  worth when the request is applied, and `LockAnswers` why each handler ends as it does.
- `Events`, `Notify`, `Clients`: the keepalive thread, notify_events and the client library
  as classes; `Coherence` puts leader, threads, network and clients together and proves the
  caches coherent.  `Protocol` tells connection, cache, acknowledgements, waits and writers
  from their history, `OnceOnly` shows that no event is handled twice, `Rounds` that every
  queued event can be acknowledged, and `Coverage` which content changes are notified at all.
- `Witnesses`: short runs from the start in which something goes wrong.
- `Codec`, `Messages`: the generated serializers, for every schema of int32, int64 and
  string fields.

A run is a list of states from the server's start (an empty session table and the root
directory) together with the log entries between them.  An entry that fails an assertion or
a checked access ends the process: its outcome is `Abort`, and no run continues after it.

Where a desirable property does not hold of the code as it is, the exact condition is
proved instead, and where the failure is one of behaviour over a run, a concrete run shows it:

- a listing loses the wrong entry: `Listing.EraseRefinesRemoval`, run `Witnesses.ListingBreaks`;
- an owner outlives its session: `Owners.OwnerOutlivesSessionIff`, run `Owners.EphemeralLockLeaks`;
- a lock is granted through a closed handle: `LockRuns.GrantedThroughClosedIff`, run
  `LockRuns.ClosedHandleIsGranted`;
- an open, current handle is not subscribed, or its file is gone: `Subscriptions.SubscribedIff`,
  `Subscriptions.GoneUnderHandleIff`, run `Witnesses.OpenButUnsubscribed`;
- a content change is not notified: `Coverage.ChangeUnnotifiedIff`, runs
  `Witnesses.ClearedUnnotified` and `Witnesses.WriteUnnotified`;
- an action is not dispatched, or a message does not fit: `Messages.DispatchSelectsIff`,
  `Messages.WritesFitIff`.

The table names the main members.  The in-place helper methods below the listed ones, each
proved against its function in `Store`, `Events` or `Clients`, and lemmas that only read such
a function back are not listed.

## Model

| member | source | states |
|---|---|---|
| `Listing.EraseRefinesRemoval` | StateMachine.cpp:115-119 | For distinct valid names, erasing the first NUL + name gives the listing without that name if and only if no earlier entry properly extends it |
| `Listing.EraseWrong` | StateMachine.cpp:282-285 | An earlier entry that extends the name makes the erasure leave something other than the listing without the name |
| `Listing.EraseUnlisted` | StateMachine.cpp:115-117 | The search finds nothing, and nothing is erased, exactly when no entry starts with the name |
| `Listing.Occurrences` | StateMachine.cpp:115-116 | NUL + name occurs in a listing exactly at the starts of the entries that the name is a prefix of |
| `Listing.AppendName` | StateMachine.cpp:77-80 | Appending NUL + name to a listing's text gives the text of the listing with the name at its end |
| `Paths.JoinParts` | StateMachine.cpp:66-67 | A slash-free name joined to a canonical directory is a canonical path whose parent and file name are these two |
| `Paths.TrailingSlash` | StateMachine.cpp:66-67 | A path with a separator at its end has the path before it as its parent, and an empty file name |
| `Paths.ParentOfBare` | StateMachine.cpp:66-67 | A name without separators has the empty path as its parent, and a path of separators only is its own |
| `Store.Apply` | StateMachine.cpp:30-37 | An entry that does not abort leaves every look-up that the code does without checking safe: parents, and the paths of all handles of all sessions |
| `StateMachines.StateMachine.ApplyOpen` | StateMachine.cpp:51-86 | In place, Open has the effect, the reply and the aborts of its specification |
| `StateMachines.StateMachine.CloseFileDeleteEphemeral` | StateMachine.cpp:99-126 | Closing a handle: its instance number, the subscription and, with the last one, an ephemeral file |
| `StateMachines.StateMachine.ReleaseLock` | StateMachine.cpp:232-248 | The three results of a release, the new owners, and whether the waiters are notified |
| `StateMachines.StateMachine.ApplyClose` | StateMachine.cpp:88-97 | In place, Close has the effect, the reply and the aborts of its specification |
| `StateMachines.StateMachine.ApplyStartSession` | StateMachine.cpp:128-132 | A new empty session under the next number |
| `StateMachines.StateMachine.ApplyEndSession` | StateMachine.cpp:134-161 | In place, EndSession closes every handle in order, releases the locks, and drops the session |
| `StateMachines.StateMachine.ApplySetContent` | StateMachine.cpp:163-175 | In place, SetContent has the effect, the replies and the aborts of its specification |
| `StateMachines.StateMachine.ApplyAcq` | StateMachine.cpp:178-211 | In place, a lock request of either mode has the effect and the replies of its specification |
| `StateMachines.StateMachine.ApplyRel` | StateMachine.cpp:213-226 | In place, a release has the effect and the replies of its specification |
| `StateMachines.StateMachine.ApplyDelete` | StateMachine.cpp:250-289 | In place, Delete has the effect, the replies, the alerts and the aborts of its specification |
| `Answers.OpenAbortsIff` | StateMachine.cpp:66-76 | An Open ends the process if and only if its session is live and the path's parent is no known directory |
| `Answers.OpenAnswer` | StateMachine.cpp:52-55 | Otherwise it is answered 0 with the next handle if its session is live, and -1 with nothing changed if not |
| `Answers.HandleActionsAbortIff` | Session.cpp:159-163 | Close, SetContent, Acq and Rel end the process if and only if a live session names a handle it does not have |
| `Answers.DeleteAbortsIff` | StateMachine.cpp:250-260 | In every state of a guarded run, so does a Delete, and besides if and only if it is of a directory that has an existing child |
| `Answers.DeleteAnswer` | StateMachine.cpp:250-289 | A Delete that goes through is answered 0, wakes the waiters and alerts exactly the owners that are live |
| `Answers.CloseAnswer` | StateMachine.cpp:88-97 | Close is answered 0 if and only if its session is live, and names a directory if and only if that directory's content changed |
| `Answers.EndSessionAnswer` | StateMachine.cpp:134-138 | EndSession never ends the process, is answered -1 if and only if its session is not there, and leaves no session behind |
| `Answers.SetContentAnswer` | StateMachine.cpp:163-175 | SetContent is answered 0 if and only if it writes; each other answer names its one reason, and nothing changes |
| `Answers.WriteSucceedsIff` | StateMachine.cpp:163-175 | Along a run, a write through a handle succeeds if and only if the session is live, the handle was neither closed nor outdated since its Open, and the file did not vanish |
| `Answers.AcqAnswer` | StateMachine.cpp:178-211 | A lock request is answered 0 if and only if it is grantable, 1 if and only if it is not, -1 if and only if there is no session |
| `Answers.RelAnswer` | StateMachine.cpp:213-248 | Along a run, a release is answered 0 if and only if the file exists and the session was granted the lock and has held it since, and -2 if and only if the file is gone; after a 0 it is no owner |
| `Answers.AlertsAndWakes` | StateMachine.cpp:243-276 | Whatever is woken has no owner left |
| `Answers.WakesExactly` | StateMachine.cpp:232-248 | Rel and Close wake the waiters of a file if and only if it is the handle's, exists, and is free afterwards |
| `Answers.TurnWakesExactly` | StateMachine.cpp:143-150 | So does every turn of EndSession's loop |
| `Easing.StepEases` | StateMachine.cpp:88-161 | Directory contents apart, Close, Rel and EndSession can at most take the session's own locks and subscriptions away, and make ephemeral files vanish |
| `Locks.LocksExclude` | StateMachine.cpp:187-210 | In every reachable state every lock is free, exclusive with one owner, or shared |
| `Locks.WriterIsAlone` | StateMachine.cpp:187-194 | In every run, while a session holds a lock that it was granted exclusively, it is the only owner |
| `Locks.HeldLockGrants` | StateMachine.cpp:187-210 | In every run, while a session holds a lock it was granted, another request is granted if and only if both are shared |
| `Locks.SequencersNeverDecrease` | StateMachine.cpp:265-267 | Along any run the pair of instance and lock generation number of a path never goes down |
| `Locks.TenuresOrdered` | StateMachine.cpp:191-201 | Of two free-to-held transitions of one path the later one carries the strictly greater pair, so no two tenures share one |
| `Locks.EveryWakeUpIsNotified` | StateMachine.cpp:243-246 | Every step that turns a waiting Acquire's predicate true, exclusive or shared, notifies that file's waiters |
| `Handles.SessionNumber` | StateMachine.cpp:128-132 | A StartSession is answered with the number of StartSession entries before it |
| `Handles.HandleNumber` | StateMachine.cpp:82-85 | A successful Open is answered with the number of the session's successful Opens before it |
| `Handles.HandlePathStable` | Session.cpp:154-163 | A handle's path never changes while its session lives |
| `Handles.LiveThroughout` | Session.cpp:208-219 | Session numbers are not reused: a session that is live was live at every state since it was numbered |
| `Handles.StepSessions` | StateMachine.cpp:51-289 | What each of the eight actions does to the session table, completely |
| `Handles.StepInstance` | StateMachine.cpp:264-265 | A file's instance number counts the Deletes that reached it, and nothing else moves it |
| `Handles.FreshIffUntouched` | StateMachine.cpp:169-170 | A handle's instance number is its file's if and only if it was never closed and no Delete of its path was applied after its Open |
| `Handles.OutdatedIsRefused` | StateMachine.cpp:163-172 | Once outdated, a handle is refused by SetContent for good, even after the file was created anew |
| `Contents.ContentIsLastWritten` | StateMachine.cpp:163-175 | In every run a file that never was a directory holds the text of the last successful SetContent since its last Delete, whatever else happens |
| `Contents.StepContent` | StateMachine.cpp:261 | What each action does to such a file's content |
| `Replicas.SubscriptionsAreLive` | StateMachine.cpp:82-107 | In every reachable state every subscription is an open handle of a live session on that very path |
| `Subscriptions.SubscribedIff` | StateMachine.cpp:82-107 | In every run an open handle is the one its session is subscribed with if and only if the session neither opened the path again since, nor closed another open handle on it |
| `Subscriptions.GoneUnderHandleIff` | StateMachine.cpp:106-112 | The file of an open, current handle is gone if and only if a Close or EndSession of its only subscriber made the ephemeral file vanish since, and nobody has opened it again |
| `Subscriptions.StepSubscription` | StateMachine.cpp:51-289 | What each action does to one session's subscription to a path, exactly |
| `Subscriptions.StepExists` | StateMachine.cpp:51-289 | A file exists after a step if and only if the step opens it, or it existed and the step neither deletes it nor takes the last subscription of an ephemeral file away |
| `Subscriptions.TurnErasesIff` | SkinnyImpl.cpp:276-288 | In any state at all a turn of notify_events erases a subscription if and only if its handle is not open |
| `Witnesses.OpenButUnsubscribed` | StateMachine.cpp:99-124 | A concrete run, opening a file twice and closing the first handle, after which the second is open and current but not subscribed, and an ephemeral file is gone |
| `Replicas.EndUnsubscribes` | StateMachine.cpp:143-151 | After EndSession the session is in no subscriber map |
| `Replicas.TurnsMakeThePass` | SkinnyImpl.cpp:276-289 | Single turns that come to every subscriber, in any order, erase exactly what the whole loop erases |
| `Replicas.NotifyingLeavesTheStore` | SkinnyImpl.cpp:276-289 | In every reachable state a whole loop over any path's subscribers erases nothing |
| `Replicas.LeaderAgreesWithFollowers` | SkinnyImpl.cpp:274-289 | However the single turns of any number of notify_events loops are interleaved with log entries, the leader ends with the store of a replica that only applied the log |
| `Replicas.ReplicasAgree` | server.cpp:125-144 | In particular from the server's start on |
| `Owners.StepTracks` | StateMachine.cpp:178-275 | Every action keeps every owner a live session with a handle on an existing file, for paths never opened ephemeral and requests made after the existence check |
| `Owners.EndSessionFrees` | StateMachine.cpp:143-151 | EndSession's loop leaves the session out of every owner set of such paths |
| `Owners.CloseKeepsLockIff` | StateMachine.cpp:94-95 | Closing a handle leaves the session's lock in place if and only if it owned it and the file is gone already or goes with this handle |
| `Owners.OwnerOutlivesSessionIff` | StateMachine.cpp:134-151 | A session stays an owner after its own EndSession if and only if the file was gone already or vanishes with its first handle on it |
| `LeftBehind.OwnerLiveOrLeft` | StateMachine.cpp:134-248 | In every reachable state every owner of every path, ephemeral or not, is a live session with a handle on it, or was left behind by its own EndSession under the exact condition above |
| `LeftBehind.StuckUntilDeleted` | StateMachine.cpp:232-275 | An owner whose session is gone stays an owner exactly until a Delete of the path |
| `LeftBehind.StepOwners` | StateMachine.cpp:178-275 | Who owns a path after a step owned it before or has just asked for it, and only its own steps and Deletes take an owner away |
| `Histories.OwnersExactly` | StateMachine.cpp:178-275 | A session owns a path after a step if and only if the step grants it, or it owned it and the step is none of the four that drop it |
| `Histories.OwnsIff` | StateMachine.cpp:178-275 | Along a run a session owns a path if and only if it was granted the lock at some entry and no entry since has dropped it |
| `Histories.SequencerCounts` | StateMachine.cpp:187-267 | A lock's sequencer is the number of Deletes of its file and the number of tenures since the last one |
| `Histories.KindAsCreated` | StateMachine.cpp:61-63 | Whether a file is a directory was settled by the Open that last created it, and by nothing since |
| `Histories.EphemeralAsOpened` | StateMachine.cpp:64 | Whether a file is ephemeral is settled anew by every Open of it, and by nothing else |
| `Owners.EphemeralLockLeaks` | StateMachine.cpp:108-109 | A concrete four-entry run after which a vanished ephemeral file is owned by a session that is gone |
| `Report.EndSessionReports` | StateMachine.cpp:139-159 | One directory is reported per erased entry; a content changes if and only if its directory is reported, and shrinks by the erased names and separators |
| `Witnesses.ListingBreaks` | StateMachine.cpp:282-285 | A concrete run, deleting "/a" next to an earlier "/ab", after which the root's content is the listing of no names at all |
| `Tree.ListingsAreExact` | StateMachine.cpp:56-81 | In every state of a guarded run a directory's content is the duplicate-free listing of exactly its existing children |
| `Tree.TreeStaysClosed` | StateMachine.cpp:66-81 | In every state of a guarded run every existing path but the root has an existing directory as its parent |
| `Tree.EmptyIffChildless` | StateMachine.cpp:257-260 | Delete's test for an empty directory is right: its content is empty if and only if it has no existing child |
| `Tree.StepTree` | StateMachine.cpp:51-289 | Every action of a guarded run keeps listings exact and the tree closed |
| `Tree.RemoveTree` | StateMachine.cpp:261-286 | Removing a childless file keeps listings exact and the tree closed |
| `LockRpc.AcquireNeverFails` | SkinnyImpl.cpp:222-232 | In every interleaving the blocking Acquire is granted its lock, or its session is gone and it returned before its assertion |
| `LockAnswers.EndsAsDecided` | SkinnyImpl.cpp:156-252 | In every interleaving a handler of any kind that has ended returned a status if and only if that status has its cause at an earlier step: a missing session or handle, a handle not current at the instance check, a missing file, or what its own request found when applied |
| `LockAnswers.AnsweredZeroIff` | SkinnyImpl.cpp:174-187 | An acquire request of either kind that has ended was answered 0 if and only if it was granted |
| `LockAnswers.AnsweredOneIff` | SkinnyImpl.cpp:174-187 | It was answered 1 if and only if it was applied for a live session while the lock was taken |
| `LockAnswers.AdmittedIff` | SkinnyImpl.cpp:204-209 | The wait lets a blocking Acquire pass if and only if the lock is free for it, and gives the mutex up if and only if it is not |
| `LockAnswers.CanGoOn` | SkinnyImpl.cpp:156-252 | A handler can go on unless it has ended, its mutex is taken, or its entry is still to be applied |
| `LockAnswers.EndedHoldsNothing` | SkinnyImpl.cpp:162-202 | Every taken mutex is held by a handler that is between its first check and its return |
| `LockAnswers.OthersCanGoOn` | SkinnyImpl.cpp:58-148 | The next entry is applied if and only if the mutexes it takes are free and it does not abort |
| `LockAnswers.EditsWaitForTheMutex` | StateMachine.cpp:77-80 | In every interleaving an entry other than a SetContent changes a content only while nobody holds that path's mutex |
| `LockRpc.AcquireStaysGrantable` | SkinnyImpl.cpp:202-228 | From the end of its wait to its application a blocking Acquire stays grantable, through both checks and the append, whatever is applied in between |
| `LockRpc.StepKeeps` | SkinnyImpl.cpp:156-252 | Every step of every handler and of the log keeps the mutexes with their holders, requests past their wait grantable, handles past their check current or closed, and owners tracked |
| `LockRpc.StepKeepsInum` | StateMachine.cpp:88-151 | While no Delete reaches its file, a step can close a handler's handle but not outdate it |
| `LockRpc.KeysApart` | SkinnyImpl.cpp:162-202 | Whoever holds a file's mutex, the next applied entry is neither a Delete of that file nor another lock request on it |
| `LockRpc.StepKeepsMayAcquire` | StateMachine.cpp:178-211 | Only a lock request on a file itself can make a waiting request for it ungrantable |
| `LockRpc.GrantedOrGone` | StateMachine.cpp:178-211 | The applied request of a blocking Acquire is granted, or its session is gone |
| `LockRpc.NoOwnerIsLost` | SkinnyImpl.cpp:162-174 | In every interleaving every owner of a path never opened ephemeral is a live session with a handle on that existing file |
| `LockRpc.OutdatedFailsTheCheck` | SkinnyImpl.cpp:163-167 | Once a handle was closed or a Delete of its path applied, the instance check of both acquire calls fails for it at every later state |
| `LockRuns.NoGrantToOutdated` | SkinnyImpl.cpp:202-228 | In every interleaving a granted request made exactly one instance check, with a current handle, and no Delete of the path was applied from there to its application; the handle is still current or was closed since |
| `LockRuns.GrantedThroughClosedIff` | SkinnyImpl.cpp:162-175 | A granted request goes through a handle no longer current if and only if a Close of that very handle was applied between its instance check and its application |
| `LockRuns.CheckedBefore` | SkinnyImpl.cpp:162-175 | In every interleaving every acquire request under way made its instance check at an earlier step |
| `LockRuns.SinceCheck` | SkinnyImpl.cpp:163-175 | From the check on, the handle of a live session keeps its number until such a Close, and its file's instance number does not move |
| `LockRuns.ClosedHandleIsGranted` | StateMachine.cpp:178-211 | A concrete interleaving in which a live session is granted a lock through a handle it has closed |
| `Events.KAThread.TryUnblock` | Session.cpp:104-110 | A wait ends exactly when its event was acknowledged or the thread was cancelled, and forgets the acknowledgement |
| `Events.KAThread.TakeTurn` | Session.cpp:29-69 | One turn of the thread's loop, for every combination of timeout, slot, queue and cancellation |
| `Events.KAThread.Run` | Session.cpp:29-110 | Thread and callers, input after input, go through the states of the specification and finish its slots |
| `Events.DeliveredInOrder` | Session.cpp:47-53 | Whatever happens, the delivered events are the first ones sent, in order, each once, numbered 0, 1, 2, ... |
| `Events.EachServesOne` | Session.cpp:40-56 | Every wake-up that is no timeout and finds a slot hands out the next queued event, and nothing else delivers one |
| `Events.DeliveredOnItsTurn` | Session.cpp:47-56 | An event with n ahead of it is handed out by exactly the (n+1)-th such wake-up |
| `Events.NoSlotFinishedTwice` | Session.cpp:42-56 | No reply slot is finished twice |
| `Events.FinishesIff` | Session.cpp:38-57 | An input finishes a reply slot if and only if it is a wake-up of a thread that is not over and has an active slot, and it is a timeout or an event waits; then with no event, or with the first one not delivered yet |
| `Events.ReactorIsActiveSlot` | Session.cpp:79-85 | The thread holds the slot that came last until it finishes it |
| `Events.ExpiresOnceIff` | Session.cpp:58-63 | A session expires at most once, exactly at the first timeout that finds no active slot on a thread that was not stopped |
| `Notify.Leader.NotifyEvents` | SkinnyImpl.cpp:274-289 | The loop sends exactly one event to every subscriber that is not stale, for its subscribed handle, touches no other thread, and erases exactly the stale ones |
| `Notify.EverySubscriberIsTold` | SkinnyImpl.cpp:274-289 | In every reachable state each subscriber of a path is sent its event, for its subscribed handle |
| `Clients.SkinnyClient.GetContent` | clientlib.cpp:99-122 | The cache answers if and only if the client is connected and has the handle; otherwise the server's answer is returned and cached, and a failing RPC returns nothing and caches nothing |
| `Clients.SkinnyClient.Close` | clientlib.cpp:82-97 | Closing drops the handle's cached content and no other |
| `Clients.SkinnyClient.KeepAlive` | clientlib.cpp:237-281 | Every outcome of a call: reconnecting clears the cache, an event drops its handle's content and yields the next acknowledgement, failures disconnect and choose the next server |
| `Clients.FailuresRotate` | clientlib.cpp:260-280 | Failures that name no leader disconnect the client, leave its cache alone and take it round the servers one by one |
| `Clients.EveryServerIsTried` | clientlib.cpp:262-276 | Within as many such calls as there are servers every server is tried |
| `Clients.LeaderIsFollowed` | clientlib.cpp:263-275 | A server that knows the leader sends the client there, and only a lost session ends it |
| `Coherence.NothingOlderIsRead` | SkinnyImpl.cpp:103-115 | From the moment a write's RPC may return, and at every later moment, every subscribed, connected, not cancelled client answers a read through its subscribed handle with a content from after that write |
| `Coherence.StepKeeps` | SkinnyImpl.cpp:274-293 | The invariant behind it: a stale entry means an event not yet handled for it, or a writer that has yet to notify that session |
| `Coherence.PeerMoveKeeps` | clientlib.cpp:239-260 | No step of client, network or keepalive thread, including lost replies and reconnects, takes that cover away |
| `Coherence.StepKeepsWriter` | clientlib.cpp:99-122 | No step at all makes a client that was covered stale again, long after the writer has returned |
| `Coherence.AcksAreGenuine` | Session.cpp:86-90 | An acknowledged event number is one whose event the client has received and handled |
| `Coherence.WaitsEndForAReason` | Session.cpp:104-110 | A wait ends only after cancellation, or after the client handled that event and dropped its handle's entry: what it caches for that handle now was cached afterwards |
| `Protocol.AckedIff` | Session.cpp:86-110 | The server has an acknowledgement if and only if a KeepAlive call brought it and no wait for that event has ended since |
| `Protocol.WaitCanEndIff` | Session.cpp:104-110 | A wait can end if and only if its event's acknowledgement came and was not used up, or the thread was stopped or expired |
| `Protocol.CallCarriesAckIff` | clientlib.cpp:219-259 | A client's call carries an event's acknowledgement if and only if the client handled that event and this is its first call since |
| `Protocol.ConnectedIff` | clientlib.cpp:237-261 | A client is connected if and only if no call has failed since it started or last handled a reply |
| `Protocol.CutOffReadsNothingCached` | clientlib.cpp:99-106 | From a failed call to the next handled reply no read is answered from the cache |
| `Protocol.CachedIff` | clientlib.cpp:82-122 | A client caches something for a handle if and only if it read it from the server and since then has not closed it, handled an event for it, or reconnected |
| `Protocol.ClientOverIff` | clientlib.cpp:271-274 | The client's keepalive loop is over if and only if a call was answered that the session is gone |
| `Protocol.CancelledIff` | Session.cpp:58-63 | A keepalive thread is cancelled if and only if it was stopped, or a timeout found it without a reply slot |
| `Protocol.ReturnsIff` | SkinnyImpl.cpp:274-293 | A writer may return if and only if it has come to every session subscribed when it began, and every wait for an event it sent has ended |
| `Protocol.PossibleIff` | SkinnyImpl.cpp:274-326 | What each step of the system waits for, exactly |
| `Protocol.ReadFindsTheFile` | SkinnyImpl.cpp:89-101 | A read that goes to the server caches what the file holds at that moment |
| `OnceOnly.OneReplyPerCall` | Session.cpp:38-57 | A KeepAlive call that was answered keeps that answer for good |
| `OnceOnly.HandledInOrder` | clientlib.cpp:239-259 | A client handles the events it is sent in the order of their numbers, each at most once, whatever is delayed, lost or given up in between |
| `Rounds.EveryEventCanBeAcked` | Session.cpp:29-110 | From every reachable state, as long as thread and client are not cancelled, the session's own exchange can go on so that any queued event is handled and acknowledged, and the writer waiting for it can go on |
| `Coverage.ChangeUnnotifiedIff` | SkinnyImpl.cpp:58-272 | A content change is not notified if and only if it is the clearing of the very file a Delete removes, or the entry is a SetContent or Delete whose session is gone when its handler looks it up again |
| `Coverage.TargetsExactly` | SkinnyImpl.cpp:58-272 | Which paths each RPC notifies, changed or not: the parent of an opened or deleted path, the directories a Close or EndSession changed, the file that was written |
| `Witnesses.ClearedUnnotified` | SkinnyImpl.cpp:254-272 | A concrete run in which a Delete clears a subscribed file and its subscribers are not told |
| `Witnesses.WriteUnnotified` | SkinnyImpl.cpp:110-111 | A concrete run in which a successful write is not told to its subscriber, because the writer's session ended before the look-up |
| `Codec.RoundTrip` | codegen.cpp:105-135 | Decoding an encoding gives every field back and leaves what follows untouched, for every schema and value list |
| `Codec.Canonical` | codegen.cpp:105-113 | Conversely, whatever decodes is the encoding of what it decodes to |
| `Codec.ValueRoundTrip` | codegen.cpp:54-67 | The same for one field: 32 and 64 bit two's complement and length-prefixed strings, in either byte order |
| `Codec.ValueLayout` | codegen.cpp:111-133 | The bytes themselves: a string is its length and then its characters, an integer fills its word with its residue, each byte at the place its weight and the byte order give |
| `Codec.PrefixDecoding` | codegen.cpp:111-112 | A message reads as any shorter message whose fields it starts with |
| `Messages.CollectActions` | codegen.cpp:160-165 | The actions are the messages named ...Action, in order |
| `Messages.ConstructorInverts` | codegen.cpp:105-113 | Every message is read back from its own bytes by its own constructor, whatever its tag |
| `Messages.DispatchSelectsIff` | codegen.cpp:184-197 | The dispatch selects the action that was written if and only if its tag is below 128 |
| `Messages.TagOnTheWire` | codegen.cpp:129-131 | The tag on the wire is the action's number modulo 256; from 128 on nothing is selected, and a larger number is taken for its residue |
| `Messages.LogEntriesDispatch` | protos/raft.proto:3-43 | Each of the eight actions of the schema is dispatched to itself |
| `Messages.RepliesReadAsResponse` | SkinnyImpl.cpp:43 | Every reply of the schema reads as a Response with its own result code and message |
| `Messages.ReadsAsResponse` | protos/raft.proto:45-67 | So does any reply that starts with the fields of a Response |
| `Messages.WritesFitIff` | codegen.cpp:47-52 | A message fits the buffer allocated for it if and only if a string length takes at most eight bytes, or it has no strings |
| `Messages.Serialize` | codegen.cpp:115-135 | In place: the buffer has the generated size, no write leaves it, and it starts with the message's bytes |
| `Messages.Construct` | codegen.cpp:105-113 | Reading field by field from the buffer agrees with the specification, including a wrong tag and running out of bytes |
| `Messages.CreateAction` | codegen.cpp:189-197 | create_action_from_buf agrees with the dispatch of the specification on every buffer |

## Left out

- Raft, leader election, membership and snapshots: the log is given, inside one leader epoch, and each session's keepalive thread is started once.
- gRPC, channels, InvokeRpc's retries and real clocks: a timeout is a step that may happen at any time, and a lost message is one that is never handled.
- Liveness and deadlock freedom of mutexes and condition variables: applying an entry is one step that is enabled only while the mutexes it takes are free.
- StateMachines.StateMachine.ApplyClose: the reply's parent path is optional, as intended; StateMachine.cpp:96 takes the value of an empty optional when nothing was erased.
- StateMachines.StateMachine.ApplyEndSession: the reply is a value; its hand-computed buffer size at StateMachine.cpp:141-147 counts the vector's length where the string's is meant.
- StateMachines.StateMachine.ApplyOpen: a failed assertion is an abort whatever was changed before it, since the process is gone.
- StateMachines.StateMachine.ApplyAcq: is_locked_ex and is_ephemeral, which the constructor of FileMetaData leaves unset, start as false; neither is read before it is written. File metadata is a value in the file table, so aliases of it are not modelled.
- Store.Apply: session ids, counters and event numbers are unbounded integers; the narrowing of int64 session ids to int and counter overflow are not modelled.
- Paths.JoinParts: covers canonical paths only; spellings such as repeated separators go through the same functions without that theorem.
- Owners.StepTracks: holds for paths never opened ephemeral, because ephemeral ones do lose track of owners; `Owners.OwnerOutlivesSessionIff` says exactly when.
- Tree.ListingsAreExact: holds for runs in which no opened name properly extends a sibling's, names are not empty and free of NUL, paths are spelled canonically, Opens go under an existing directory, SetContent does not go to directories, no path is both directory and ephemeral, and the root is not deleted; the first condition is needed by `Listing.EraseWrong`.
- Contents.ContentIsLastWritten: only for files that never were directories, as a directory's content is its listing.
- Coherence.NothingOlderIsRead: is about the handle that is subscribed, which not every open handle is (`Subscriptions.SubscribedIff`), and about the notified path, so it says nothing about changes that are not notified (`Coverage.ChangeUnnotifiedIff`).
- Coherence.StepKeeps: a GetContent that misses the cache, the handling of one keepalive reply and enqueue_event (with its unsynchronised counter) are one step each; the finer interleavings admit late cache insertions. An RPC's look-up of its session may come at any moment between its entry and its notifications.
- Coherence.WaitsEndForAReason: the event Delete sends to lock owners carries the deleter's handle number and is allowed as an event for any handle.
- Notify.Leader.NotifyEvents: sends the events and names the ones to wait for; the waits themselves are steps of `Coherence`. The second copy at server.cpp:125-144 is the same function.
- Clients.SkinnyClient.GetContent: InvokeRpc's wait for a connection comes before the answer and is not a step of its own.
- Clients.SkinnyClient.KeepAlive: starts at the outcome of the call; callbacks run in their own threads, so only which one is started is modelled.
- Codec.RoundTrip: the width of a string's length and the byte order are parameters, because NuRaft's serializer is not part of this model. EndSession's hand-written reply is not one of the generated messages.
- Messages.Serialize: requires a length of at most eight bytes; `Messages.WritesFitIff` says what happens otherwise.
- Parsing the .proto file, the Python bindings, the demos and the diagnostics service: plumbing.
