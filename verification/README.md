# Verified models of OSC

OSC holds a small online shop (`OnlineShoppingCenter`) and the GIO library it is built with. This project
models the stateful core of both in Dafny 4.11 and proves what each part is for.

- **Actions.dfy, ActionGroupExporter.dfy**: a group of actions is mirrored over D-Bus. Changes are coalesced
  into one event mask per name and sent in batches. Every remote copy (`GDBusActionGroup`, modelled with its
  own code) is always exactly one batch behind the group, and equal to it after any flush or query. A call that
  makes the group react returns with the copies equal to the group as the call found it.
- **ContextSpecificGroup.dfy, Cancellable.dfy**: two monitors used by any number of threads. Each section under
  a lock is one atomic step; theorems are about every interleaving.
- **BaseStreams.dfy, BufferedInputStream.dfy, BufferedOutputStream.dfy**: in-place buffers over a base stream
  that reads and writes short and fails. Any run behaves like a plain cursor, or like writing to the file directly.
- **ConverterBuffer.dfy, Converters.dfy, ConverterInputStream.dfy, ConverterOutputStream.dfy**: streams through
  an abstract converter that obeys the contract of `g_converter_convert`. No byte is lost, repeated or reordered,
  the loops end, and the caller's side of the contract is kept (as preconditions of `Converter.Convert`).
- **TreeEnumerator.dfy**: the resumable directory walk of `gcontenttype.c`, against an independent notion of a
  matching path and a plain depth-first walk.
- **Shop.dfy, ShopHistory.dfy, ShopProgram.dfy, CartText.dfy, Ascending.dfy**: carts with product snapshots,
  checkout with its dialogue, order histories, addresses and cards on file, and the text the store holds. Stock plus
  orders is constant over every run of sessions, and every exception that can end one is accounted for.
- **DetailedName.dfy, Application.dfy**: printing and parsing of detailed action names; the use count with its
  timer and the busy count with its bindings.

Where the code changes state step by step the model is a class, and each method is proved equal to a step
function; the invariants and the theorems over whole runs are lemmas about those functions. Wherever a state
component is what the source promises (pending masks, queues, counts, histories), a theorem says what it is in terms
of the steps taken so far, independently of the step functions. Nondeterminism of the
environment (short reads, failures, what a converter produces, thread schedules) is unconstrained choice.

## What the proofs show about the code

- The range test in `g_buffered_input_stream_seek` compares signed with unsigned numbers. It looks for
  `-pos <= offset <= end - pos` but holds only when nothing of the buffer has been read and the seek goes forward
  within it (`InBufferExactly`). Both outcomes still reach the same position.
- `g_cancellable_connect` documents that its callback is called at most once. That fails after a reset
  (`ResetBreaksAtMostOnce`). Exactly, a callback is called once for each cancellation that finds it connected and
  once if it is connected while cancelled, so the promise holds if and only if these are at most one
  (`CalledWhenFound`).
- The enumerator of `gcontenttype.c` returns NULL for a matching entry above the last component that cannot be
  enumerated, and its caller stops at the first NULL (`NullHidesAMatch`). It then misses a match if and only if
  such an entry is met before a full match, in the order of the directories' entries (`StoppingMissesAMatch`).
- A hard converter error in `write_internal` reports failure but keeps the bytes of the failed call if, before the
  call, earlier bytes were waiting and there was something to write. `WriteBytes` states both halves: otherwise no
  failed write keeps anything, and in that situation a converter that fails at once makes every such write keep
  everything. `FailedWriteKeepsBytes` is the smallest case.
- `StorageSystem::getUser` stores the user before the cart has been read back, so logging in empties the stored
  cart; a session without a command that stores the user loses it (`StoredCartIsCurrent`, `LoginLosesCart`). Filing
  an address or card stores it, too, even in a checkout that is then declined: the question whether to keep the
  entry on file tests the answer to the question before.
- A number of 2^64 or more, typed as a UPC, quantity, postal code, card number or order index, ends the program:
  `stoul` throws `out_of_range` and only `invalid_argument` is caught. Login reads the card's security code from the
  expiry field, so an expiry that does not begin with a number ends it as well, and so does a stored postal code that
  is no number; where the expiry is one, it replaces the stored code (`LoginLosesCart`). Over every store with readable carts and orders these are the only exceptions (`ExceptionsExactly`).
- A user with such an expiry or postal code can never log in again (`LockedOutForGood`). Entering a card with expiry
  "Dec 2020" is enough (`ExpiryLocksOut`), and of the sample users `testuser002`, with postal code V8T4G7, is locked
  out from the beginning (`SampleUserLockedOut`). A login that fails on the expiry has already emptied the cart.
- When `SetState` or `Activate` returns, what the group did in reaction is still queued, so every remote copy shows
  the state before it until the next flush (`CallsSeeTheGroup`, `SetStateLeavesReplicasBehind`).
- One of the exporter's assertions (removal of a pending addition) tests all bits but the two it is about and cannot
  fail as written (`AssertionsAsWritten`); the condition in its comment is what is proved.
- Adding a product with quantity 0 leaves an entry with quantity 0, which `remove` and `changeqty` then refuse; it
  stays until the product is added with a quantity or the whole cart goes (`ZeroEntryStays`).

## Model

| member | source | states |
|---|---|---|
| `RemoteActions.DBusActionGroup.OnChanged` | externs/glib/glib-2.49.6/gio/gdbusactiongroup.c:138-244 | A Changed signal is ignored before the DescribeAll reply; afterwards its removals, then enable and state changes of names still present, then additions of absent names are applied. |
| `RemoteActions.MisfitsIgnored` | externs/glib/glib-2.49.6/gio/gdbusactiongroup.c:160-243 | Changes of names the copy lacks or is told to remove, states of another type, and additions of names it keeps are ignored; the rest is taken over. |
| `ActionGroupExporter.ReplicasConverge` | externs/glib/glib-2.49.6/gio/gactiongroupexporter.c:139-426 | In every run of adds, removes, changes, dispatches and calls: masks and idle source keep their shape, applying the pending batch to any client's copy gives exactly the group, and after a flush the copy is the group in names, flags, types and states. |
| `ActionGroupExporter.CallsSeeTheGroup` | externs/glib/glib-2.49.6/gio/gactiongroupexporter.c:366-473 | In every run a method call sends one Changed signal if something was pending, and one reply about the group as the call found it: List exactly its names, Describe the action or an error, DescribeAll all of them, Activate and SetState nothing; every replica then equals that group, the pending batch makes it the group at the return, a query leaves group and empty queue as they are, and DescribeAll has made the caller a replica. |
| `ActionGroupExporter.SetStateLeavesReplicasBehind` | externs/glib/glib-2.49.6/gio/gactiongroupexporter.c:451-472 | In every run, a SetState that changes a state returns with the new state in the group, the change pending and the old state in every replica. |
| `ActionGroupExporter.ReactionKeepsTracking` | externs/glib/glib-2.49.6/gio/gactiongroupexporter.c:430-470 | The signals that a group emits in reaction to a call send nothing, and leave every copy behind by exactly the pending masks. |
| `ActionGroupExporter.MasksSinceFlush` | externs/glib/glib-2.49.6/gio/gactiongroupexporter.c:222-364 | In every run, whatever a group emits after a flush: a name is queued as removed or added exactly if it has come or gone and was there before or is there now, and as changed in state or enabled exactly if it stayed and such a signal came. |
| `ActionGroupExporter.BatchCompletes` | externs/glib/glib-2.49.6/gio/gactiongroupexporter.c:156-204 | The Changed signal built from the masks turns a copy that lags by exactly those events into the group. |
| `ActionGroupExporter.MaskKeepsAgreement` | externs/glib/glib-2.49.6/gio/gactiongroupexporter.c:264-364 | A mask that covers every difference between group and copy at its name still does after each of the four handlers; a bit may also be set where a value has changed back. |
| `ActionGroupExporter.AssertionsAsWritten` | externs/glib/glib-2.49.6/gio/gactiongroupexporter.c:274-304 | On the bits of any mask: the assertion of a removal always holds, that of an addition fails only with both change bits set, and its comment asks for neither. |
| `ActionGroupExporter.MaskStaysAnswerable` | externs/glib/glib-2.49.6/gio/gactiongroupexporter.c:264-364 | From a mask that is empty, ADDED, REMOVED, both, or a non-empty set of changes, every handler computes such a mask again, and one the group can answer. |
| `ActionGroupExporter.HandlersKeepShape` | externs/glib/glib-2.49.6/gio/gactiongroupexporter.c:229-364 | After every group signal the idle source is queued exactly when something is pending, and at most one source is attached. |
| `ActionGroupExporter.FlushSynchronises` | externs/glib/glib-2.49.6/gio/gactiongroupexporter.c:211-220 | Flushing makes every existing copy equal to the group and creates no new one. |
| `ActionGroupExporter.RunKeepsInv` | externs/glib/glib-2.49.6/gio/gactiongroupexporter.c:139-426 | The invariant (mask shape, one idle source, every client lags by the pending masks) holds in every reachable state. |
| `ActionGroupExporter.AddThenRemoveIsSilent` | externs/glib/glib-2.49.6/gio/gactiongroupexporter.c:295-305 | An action added and removed before a dispatch leaves no pending entry, no message and no idle source behind. |
| `ActionGroupExporter.Exporter.SetPending` | externs/glib/glib-2.49.6/gio/gactiongroupexporter.c:229-262 | Stores or drops the mask and creates or destroys the idle source, as the step function says. |
| `ActionGroupExporter.Exporter.ActionAdded` | externs/glib/glib-2.49.6/gio/gactiongroupexporter.c:264-283 | Performs the Add step; its assertion holds, also in the strong form of its comment. |
| `ActionGroupExporter.Exporter.ActionRemoved` | externs/glib/glib-2.49.6/gio/gactiongroupexporter.c:285-316 | Performs the Remove step: a queued addition is withdrawn, otherwise changes are dropped and a removal queued; a queued addition never has queued changes. |
| `ActionGroupExporter.Exporter.ActionStateChanged` | externs/glib/glib-2.49.6/gio/gactiongroupexporter.c:318-343 | Performs the state change step; a removed name has been added back. |
| `ActionGroupExporter.Exporter.ActionEnabledChanged` | externs/glib/glib-2.49.6/gio/gactiongroupexporter.c:345-364 | Performs the enabled change step; a removed name has been added back. |
| `ActionGroupExporter.Exporter.Collect` | externs/glib/glib-2.49.6/gio/gactiongroupexporter.c:156-195 | The loop over the pending table builds exactly the batch of the masks; its assertion (either additions and removals, or changes) holds for every entry. |
| `ActionGroupExporter.Exporter.DispatchEvents` | externs/glib/glib-2.49.6/gio/gactiongroupexporter.c:139-209 | Sends one Changed signal, empties the table and forgets the source. |
| `ActionGroupExporter.Exporter.FlushQueue` | externs/glib/glib-2.49.6/gio/gactiongroupexporter.c:211-220 | Dispatches exactly if a source is queued; afterwards none is. |
| `ActionGroupExporter.Exporter.MethodCall` | externs/glib/glib-2.49.6/gio/gactiongroupexporter.c:366-473 | Flushes, answers List, Describe and DescribeAll from the group, lets the group react to Activate and SetState through the exporter's own handlers, then replies; Describe of an unknown name is an error. |
| `ContextSpecificGroup.StartsAndStopsAlternate` | externs/glib/glib-2.49.6/gio/gcontextspecificgroup.c:93-240 | In every interleaving start and stop calls alternate beginning with a start; effective holds exactly after a start; requested holds exactly while the table is non-empty; an unfinished transition has its function set and a worker callback queued. |
| `ContextSpecificGroup.BlockedGetterWakes` | externs/glib/glib-2.49.6/gio/gcontextspecificgroup.c:153-164 | A getter asleep without notification has a worker callback queued whose run notifies every getter with the backend started; a notified getter returns with effective true; any other wake-up sleeps again. |
| `ContextSpecificGroup.WorkerReleasesGetters` | externs/glib/glib-2.49.6/gio/gcontextspecificgroup.c:93-164 | In every continuation in which a worker callback runs and a blocked getter is not scheduled, it is notified at the end with the backend effective, and returns when it resumes. |
| `ContextSpecificGroup.NotifiedGetterStaysNotified` | externs/glib/glib-2.49.6/gio/gcontextspecificgroup.c:159-163 | Whatever other threads do, a notified getter stays notified and the backend effective until it resumes. |
| `ContextSpecificGroup.EmissionIsDelivered` | externs/glib/glib-2.49.6/gio/gcontextspecificgroup.c:242-273 | In every run after an emission, for each context present and not removed, the signal is still queued with the source ready or has been dispatched after the emission. |
| `ContextSpecificGroup.FirstInFirstOut` | externs/glib/glib-2.49.6/gio/gcontextspecificgroup.c:36-57 | In every continuation, a signal queued at a context when another is emitted is delivered before that other, unless one of them is emitted again or the context removed. |
| `ContextSpecificGroup.AccountsBalance` | externs/glib/glib-2.49.6/gio/gcontextspecificgroup.c:93-273 | In every run: deliveries of a signal at a context are the emissions that found it not queued, less what is still queued or was dropped with the context; an instance is held once per reference handed out and not given back; queued worker callbacks are the transitions begun less the callbacks run. |
| `ContextSpecificGroup.WantedWhilePresent` | externs/glib/glib-2.49.6/gio/gcontextspecificgroup.c:167-240 | In every run a context has an instance exactly if one was asked for after the last removal, and the backend is requested exactly while some context has one. |
| `ContextSpecificGroup.RunKeepsInv` | externs/glib/glib-2.49.6/gio/gcontextspecificgroup.c:93-273 | The group invariant, including queues without duplicates and sources ready exactly when non-empty, holds in every reachable state. |
| `Sequences.WithoutIsGone` | externs/glib/glib-2.49.6/gio/gcontextspecificgroup.c:263-264 | Removing a queued signal before it is appended again leaves the others and no duplicate. |
| `ContextSpecificGroup.Group.RequestState` | externs/glib/glib-2.49.6/gio/gcontextspecificgroup.c:127-151 | Aborts a pending transition back to the effective state, or starts one with its function and a worker callback. |
| `ContextSpecificGroup.Group.GetInstance` | externs/glib/glib-2.49.6/gio/gcontextspecificgroup.c:167-207 | Performs the Get step up to return or wait; returns only with the backend effective. |
| `ContextSpecificGroup.Group.ResumeGet` | externs/glib/glib-2.49.6/gio/gcontextspecificgroup.c:153-164 | A woken getter returns exactly if it was notified, and then its assertion holds. |
| `ContextSpecificGroup.Group.RemoveInstance` | externs/glib/glib-2.49.6/gio/gcontextspecificgroup.c:209-240 | Removes the context and requests a stop when it was the last. |
| `ContextSpecificGroup.Group.ChangeStateCallback` | externs/glib/glib-2.49.6/gio/gcontextspecificgroup.c:93-113 | Calls the requested function (never NULL) exactly if requested and effective differ, and wakes all getters. |
| `ContextSpecificGroup.Group.EmitSignal` | externs/glib/glib-2.49.6/gio/gcontextspecificgroup.c:242-273 | Queues the signal once, at the tail, in every source. |
| `ContextSpecificGroup.Group.DispatchSource` | externs/glib/glib-2.49.6/gio/gcontextspecificgroup.c:36-57 | A ready source has a non-empty queue; its head is emitted and the source stays ready exactly if more is queued. |
| `Cancellable.ExactlyOnce` | externs/glib/glib-2.49.6/gio/gcancellable.c:480-638 | In every interleaving without reset a callback given to connect starts at most once, not at all before cancellation, and exactly once when the cancellation has completed and it was not disconnected. |
| `Cancellable.CalledWhenFound` | externs/glib/glib-2.49.6/gio/gcancellable.c:480-592 | In every interleaving, resets included, calls made plus the one an emission in flight still owes equal the cancellations that found the callback connected plus the connect made while cancelled; with no emission running, at most one call holds if and only if that number is at most one. |
| `Cancellable.ResetBreaksAtMostOnce` | externs/glib/glib-2.49.6/gio/gcancellable.c:533-535 | A concrete run (connect, cancel, reset, cancel) in which the documented at-most-once promise fails. |
| `Cancellable.DisconnectIsFinal` | externs/glib/glib-2.49.6/gio/gcancellable.c:616-638 | After a call of disconnect gets through, its handler is not connected, not running, in no emission, and never starts again, in any continuation. |
| `Cancellable.OneEmission` | externs/glib/glib-2.49.6/gio/gcancellable.c:499-517 | At most one emission is in flight, and only while cancelled and cancelled_running. |
| `Cancellable.NoMissedBroadcast` | externs/glib/glib-2.49.6/gio/gcancellable.c:629-633 | A waiter asleep without notification has a running emission that knows of it; a wake-up gets through exactly if no emission is running. |
| `Cancellable.EndOfEmissionWakesAll` | externs/glib/glib-2.49.6/gio/gcancellable.c:510-517 | The end of the emission notifies every waiter, who then gets through. |
| `Cancellable.WakeupMirrorsCancelled` | externs/glib/glib-2.49.6/gio/gcancellable.c:391-457 | In every run, resets included, the cancellable is cancelled exactly if cancel was called and no reset got through since; a wakeup exists exactly while more descriptors were made than released, and is signalled exactly while cancelled. |
| `Cancellable.OldestFirst` | externs/glib/glib-2.49.6/gio/gcancellable.c:507-508 | The handler that an emission calls next is the one connected first among those it has not yet called. |
| `Cancellable.EmissionCanFinish` | externs/glib/glib-2.49.6/gio/gcancellable.c:480-517 | From every reachable state with an emission in flight, its own steps alone, a stated number of them, end it and notify every waiter. |
| `Cancellable.RunKeepsInv` | externs/glib/glib-2.49.6/gio/gcancellable.c:255-638 | The invariant relating flags, waiters, the emission, handlers, calls made and the wakeup holds in every reachable state. |
| `Cancellable.GCancellable.CancelEnter` | externs/glib/glib-2.49.6/gio/gcancellable.c:480-505 | First section of cancel: emits exactly if not yet cancelled. |
| `Cancellable.GCancellable.CancelLeave` | externs/glib/glib-2.49.6/gio/gcancellable.c:510-517 | Second section of cancel: ends the emission and broadcasts if someone waits. |
| `Cancellable.GCancellable.ConnectCallback` | externs/glib/glib-2.49.6/gio/gcancellable.c:553-592 | Connects, or has the callback called at once (id 0) if already cancelled. |
| `Cancellable.GCancellable.DisconnectPass` | externs/glib/glib-2.49.6/gio/gcancellable.c:616-638 | One pass of the wait loop: waits exactly while an emission is running, otherwise disconnects. |
| `Cancellable.GCancellable.ResetPass` | externs/glib/glib-2.49.6/gio/gcancellable.c:255-281 | One pass of the wait loop: waits while an emission is running, otherwise clears cancelled and the wakeup. |
| `Cancellable.GCancellable.AddPollfd` | externs/glib/glib-2.49.6/gio/gcancellable.c:391-416 | The descriptor handed out is readable exactly if cancelled. |
| `Cancellable.GCancellable.ReleasePollfd` | externs/glib/glib-2.49.6/gio/gcancellable.c:434-457 | The last release frees the wakeup. |
| `BaseStreams.OverlayJoins` | externs/glib/glib-2.49.6/gio/gbufferedoutputstream.c:429-434 | Writing a part of the bytes and then the rest gives the file that writing them at once gives. |
| `BaseStreams.OverlayIs` | externs/glib/glib-2.49.6/gio/gbufferedoutputstream.c:412-427 | Byte by byte, a write changes exactly the written range and fills a gap with zeros. |
| `BufferedInputStream.InBufferExactly` | externs/glib/glib-2.49.6/gio/gbufferedinputstream.c:899-899 | As compiled, the range test holds if and only if nothing of the buffer was read and 0 <= offset <= end. |
| `BufferedInputStream.BufferedInput.Run` | externs/glib/glib-2.49.6/gio/gbufferedinputstream.c:202-1017 | Any sequence of fill, peek, read, skip, read_byte, resize, tell and seek answers as a plain cursor over the base content could; reads and skips hand out everything buffered and everything one request to the base stream gave, up to their count, and make none if the buffer suffices; each error comes with a base failure (or a fill below -1) and never while something is buffered. |
| `BufferedInputStream.BufferedInput.FillBuffer` | externs/glib/glib-2.49.6/gio/gbufferedinputstream.c:645-681 | Adds n unread bytes without moving the cursor; 0 only if nothing was asked, no room, or at the end; -1 only for a bad count or a failed base read. |
| `BufferedInputStream.BufferedInput.Compact` | externs/glib/glib-2.49.6/gio/gbufferedinputstream.c:629-643 | Moves the unread bytes to the front and changes nothing else. |
| `BufferedInputStream.BufferedInput.ReadBytes` | externs/glib/glib-2.49.6/gio/gbufferedinputstream.c:760-845 | Content from the cursor, through both the buffered and the direct path: min of count and buffered plus base bytes, with no base request if the buffer suffices and otherwise one, for the whole buffer or more. |
| `BufferedInputStream.BufferedInput.SkipBytes` | externs/glib/glib-2.49.6/gio/gbufferedinputstream.c:684-757 | Advances the cursor by the number reported, which is as for a read, on both paths. |
| `BufferedInputStream.BufferedInput.ReadOneByte` | externs/glib/glib-2.49.6/gio/gbufferedinputstream.c:963-1017 | Returns the byte at the cursor; -1 only after a failure, at the end, or with a buffer of size zero. |
| `BufferedInputStream.BufferedInput.PeekBytes` | externs/glib/glib-2.49.6/gio/gbufferedinputstream.c:577-599 | Shows the content behind the cursor, as far as it is buffered. |
| `BufferedInputStream.BufferedInput.Resize` | externs/glib/glib-2.49.6/gio/gbufferedinputstream.c:201-240 | Keeps the unread bytes and the cursor, never shrinking below them. |
| `BufferedInputStream.BufferedInput.TellCursor` | externs/glib/glib-2.49.6/gio/gbufferedinputstream.c:839-861 | Tell is the cursor. |
| `BufferedInputStream.BufferedInput.SeekTo` | externs/glib/glib-2.49.6/gio/gbufferedinputstream.c:872-920 | A relative seek moves the cursor by exactly the offset on both paths; absolute seeks go where they say; a failed seek moves nothing. |
| `BufferedInputStream.BufferedInput.SignedTestWouldDo` | externs/glib/glib-2.49.6/gio/gbufferedinputstream.c:899-903 | Every position inside the buffer mirrors the content, so the signed reading of the range test would be right too. |
| `BufferedOutputStream.BufferedOutput.Run` | externs/glib/glib-2.49.6/gio/gbufferedoutputstream.c:195-622 | Any sequence of writes, flushes, resizes, tells, seeks and truncates leaves the file, position and accepted bytes that the same operations leave without a buffer; a write accepts exactly what fits, a bufferful after a full buffer was flushed, or everything if the buffer grows; each error comes with a base failure, and a successful flush, seek or truncate has written everything, a flush having flushed the base. |
| `BufferedOutputStream.AcceptedIsReported` | externs/glib/glib-2.49.6/gio/gbufferedoutputstream.c:405-477 | Over every run the accepted bytes are those the writes reported, in order. |
| `BufferedOutputStream.SequentialFile` | externs/glib/glib-2.49.6/gio/gbufferedoutputstream.c:405-477 | Without seek or truncate a new file holds exactly the reported bytes. |
| `BufferedOutputStream.PartWritten` | externs/glib/glib-2.49.6/gio/gbufferedoutputstream.c:422-434 | A flush that writes a part and fails leaves base file plus buffer as they were together. |
| `BufferedOutputStream.BufferedOutput.FlushBuffer` | externs/glib/glib-2.49.6/gio/gbufferedoutputstream.c:405-437 | Keeps file, position and accepted bytes; succeeds exactly if the buffer is empty afterwards. |
| `BufferedOutputStream.BufferedOutput.WriteBytes` | externs/glib/glib-2.49.6/gio/gbufferedoutputstream.c:439-477 | Accepts the reported prefix; with auto-grow all of it without touching the base stream; otherwise at least one byte unless the buffer has size zero; fails only if the base failed, accepting nothing. |
| `BufferedOutputStream.BufferedOutput.Resize` | externs/glib/glib-2.49.6/gio/gbufferedoutputstream.c:195-228 | Keeps the buffered bytes, never shrinking below them. |
| `BufferedOutputStream.BufferedOutput.FlushAll` | externs/glib/glib-2.49.6/gio/gbufferedoutputstream.c:479-499 | On success the base file holds everything accepted. |
| `BufferedOutputStream.BufferedOutput.TellPosition` | externs/glib/glib-2.49.6/gio/gbufferedoutputstream.c:526-546 | Tell is where the next byte goes. |
| `BufferedOutputStream.BufferedOutput.SeekTo` | externs/glib/glib-2.49.6/gio/gbufferedoutputstream.c:557-585 | Moves relative to the file as written so far, and only after the buffer is empty. |
| `BufferedOutputStream.BufferedOutput.TruncateTo` | externs/glib/glib-2.49.6/gio/gbufferedoutputstream.c:596-622 | Cuts or extends the file as written so far, and only after the buffer is empty. |
| `ConverterBuffer.Buffer.EnsureSpace` | externs/glib/glib-2.49.6/gio/gconverterinputstream.c:306-339 | Terminates, keeps the contents and leaves data plus tail space at least as requested. |
| `ConverterBuffer.Buffer.Grow` | externs/glib/glib-2.49.6/gio/gconverterinputstream.c:282-304 | Doubles the size (4096 at first), keeping the contents. |
| `ConverterBuffer.Buffer.Compact` | externs/glib/glib-2.49.6/gio/gconverterinputstream.c:269-280 | Moves the contents to the front. |
| `ConverterBuffer.Buffer.Consumed` | externs/glib/glib-2.49.6/gio/gconverterinputstream.c:251-258 | Drops exactly the first bytes. |
| `ConverterBuffer.Buffer.Take` | externs/glib/glib-2.49.6/gio/gconverterinputstream.c:260-267 | Returns and drops exactly the first bytes. |
| `ConverterBuffer.Buffer.Append` | externs/glib/glib-2.49.6/gio/gconverteroutputstream.c:348-357 | Appends exactly the given bytes, whatever the layout. |
| `Converters.Converter.Convert` | externs/glib/glib-2.49.6/gio/gconverter.c:66-123 | The contract both streams rely on and obey: output space, no call after FINISHED, at-end never withdrawn; an error takes and gives nothing, anything else makes progress. A failure or a lack of input can be planned for the next calls. |
| `ConverterInputStream.ConverterInput.ReadMany` | externs/glib/glib-2.49.6/gio/gconverterinputstream.c:374-567 | The results of any sequence of reads, joined, are what was delivered, a prefix of what the converter made of a prefix of the base content; after a read of 0 all of it is delivered and stays so; -1 only with a base or converter failure during that read. |
| `ConverterInputStream.Untroubled` | externs/glib/glib-2.49.6/gio/gconverterinputstream.c:374-567 | Reads during which neither the base stream nor the converter fails all succeed. |
| `ConverterInputStream.ConverterInput.ReadBytes` | externs/glib/glib-2.49.6/gio/gconverterinputstream.c:374-567 | Base bytes read equal bytes consumed followed by the input buffer, converter output equals bytes delivered followed by the converted buffer; waiting bytes are always handed out, with one more conversion and no base read if they do not suffice; output is held back only after a full read; 0 only when finished and everything is delivered; -1 only after a failure, delivering nothing. |
| `ConverterInputStream.ConverterInput.ConvertLoop` | externs/glib/glib-2.49.6/gio/gconverterinputstream.c:474-564 | The loop terminates by (unread base bytes, end not seen, buffered input, missing space), never calls a finished converter, always offers output space, and its assertions hold. |
| `ConverterInputStream.ConverterInput.FillInput` | externs/glib/glib-2.49.6/gio/gconverterinputstream.c:341-371 | Appends what the base delivered; at-end is recorded exactly when the base reports its end. |
| `ConverterInputStream.ConverterInput.ConvertInput` | externs/glib/glib-2.49.6/gio/gconverterinputstream.c:427-445 | One conversion keeps the input accounted for; at-end is passed exactly when the base has reported its end. |
| `ConverterInputStream.ConverterInput.Recover` | externs/glib/glib-2.49.6/gio/gconverterinputstream.c:517-563 | Retries only after more input, the end of the input, or more space; gives up only on a failure. |
| `ConverterOutputStream.ConverterOutput.Run` | externs/glib/glib-2.49.6/gio/gconverteroutputstream.c:393-629 | Over any run the bytes taken over are those each write kept, given its result, and exactly those reported if the converter did not fail; each failing operation comes with a failure of the one it blames; a last flush or close that succeeds has put all converter output on the base stream, and closing has finished it. |
| `ConverterOutputStream.TakenIsReported` | externs/glib/glib-2.49.6/gio/gconverteroutputstream.c:393-527 | Up to any point of a run without converter failures, the bytes taken over are those reported, in order. |
| `ConverterOutputStream.Untroubled` | externs/glib/glib-2.49.6/gio/gconverteroutputstream.c:393-629 | A run without base and converter failures has no failing operation. |
| `ConverterOutputStream.ConverterOutput.WriteBytes` | externs/glib/glib-2.49.6/gio/gconverteroutputstream.c:393-527 | Takes over exactly the reported bytes; if the converter consumed anything and the base did not fail, all converter output is on the base stream at the return; bytes come to wait only if nothing could be converted; a failed write takes nothing unless, before it, bytes were waiting in an unfinished stream and there was something to write, and then a converter that fails at once makes it report -1 and keep everything; 0 only if nothing was given or the converter has finished. |
| `ConverterOutputStream.ConverterOutput.FailedWriteKeepsBytes` | externs/glib/glib-2.49.6/gio/gconverteroutputstream.c:424-508 | Writing one byte that needs more input reports 1; writing a second byte on which the converter fails reports -1, and both are kept. |
| `ConverterOutputStream.ConverterOutput.ConvertAll` | externs/glib/glib-2.49.6/gio/gconverteroutputstream.c:441-510 | The loop terminates, consumes a prefix of its input and stops only when done, finished, or on an error it cannot handle. |
| `ConverterOutputStream.ConverterOutput.Flush` | externs/glib/glib-2.49.6/gio/gconverteroutputstream.c:539-629 | Loses nothing; on success all output is on the base stream, no input is left and the converter has answered FLUSHED, unless it finished; closing has passed at-end and finished it; fails only after a base or converter failure. |
| `ConverterOutputStream.ConverterOutput.FlushBuffer` | externs/glib/glib-2.49.6/gio/gconverteroutputstream.c:360-390 | Keeps written plus converted bytes equal to the converter output through partial writes; succeeds exactly if the buffer is empty. |
| `TreeEnumerator.Enumerate` | externs/glib/glib-2.49.6/gio/gcontenttype.c:1130-1220 | From a new enumerator call i returns result i of the whole walk, and NULL forever after its end. |
| `TreeEnumerator.Enumerator.Next` | externs/glib/glib-2.49.6/gio/gcontenttype.c:1130-1176 | The recursion terminates and each call returns the first pending result of its depth and leaves the rest, touching no deeper position. |
| `TreeEnumerator.Enumerator.NextFile` | externs/glib/glib-2.49.6/gio/gcontenttype.c:1178-1182 | Returns the first pending result, or NULL, and leaves the rest. |
| `TreeEnumerator.Enumerator.Scan` | externs/glib/glib-2.49.6/gio/gcontenttype.c:1159-1169 | Returns the next matching entry of the open directory, or exhausts it. |
| `TreeEnumerator.ResultsAreMatches` | externs/glib/glib-2.49.6/gio/gcontenttype.c:1105-1176 | In every tree the files returned are exactly those whose path from the root matches component by component. |
| `TreeEnumerator.MatchesByCase` | externs/glib/glib-2.49.6/gio/gcontenttype.c:1105-1128 | Over a whole walk the files returned are exactly those whose path is the pattern or, when case is ignored, has the same collation keys component by component. |
| `TreeEnumerator.EachMatchOnce` | externs/glib/glib-2.49.6/gio/gcontenttype.c:1130-1176 | If no directory has duplicate names, no path is returned twice. |
| `TreeEnumerator.DepthFirst` | externs/glib/glib-2.49.6/gio/gcontenttype.c:1130-1176 | The results are those of the plain recursive depth-first walk, in its order. |
| `TreeEnumerator.CompleteWalk` | externs/glib/glib-2.49.6/gio/gcontenttype.c:1130-1182 | If every matching entry above the last component is a directory and no directory has duplicate names, the calls return every matching path, each once, and no NULL before the end. |
| `TreeEnumerator.NullIffNotEnumerable` | externs/glib/glib-2.49.6/gio/gcontenttype.c:1144-1156 | The results of the whole walk contain a NULL if and only if some matching entry above the last component cannot be enumerated. |
| `TreeEnumerator.StoppingMissesAMatch` | externs/glib/glib-2.49.6/gio/gcontenttype.c:1257-1264 | Some call returns a file after an earlier one returned NULL if and only if a matching entry above the last component that cannot be enumerated comes, entry by entry along the path, before a full match. |
| `TreeEnumerator.RoutesOrdered` | externs/glib/glib-2.49.6/gio/gcontenttype.c:1130-1176 | The results come in the lexicographic order of the entry positions along their paths. |
| `TreeEnumerator.NullHidesAMatch` | externs/glib/glib-2.49.6/gio/gcontenttype.c:1257-1264 | A tree in which the first call returns NULL although the second finds a match. |
| `Shop.Conservation` | OnlineShoppingCenter/transaction.cpp:38-57 | Over every run of sessions, also one that ends in an exception, on-hand plus ordered quantity of every product is constant, prices never change, and every cart snapshot equals the stored product. |
| `Shop.ExceptionsExactly` | OnlineShoppingCenter/main.cpp:97-880 | Over every run of programs the uncaught exceptions are exactly the commands that read a number of 2^64 or more (cart commands, checkout dialogue, account menu) and the logins to a record whose postal code, card number or card expiry stoul rejects. |
| `Shop.ProgramEnds` | OnlineShoppingCenter/main.cpp:136-880 | For each command of a session, checkouts included, the exact numbers on which it ends the program. |
| `Shop.LoginEnds` | OnlineShoppingCenter/storagesystem.cpp:183-205 | A login ends the program exactly if the stored postal code, card number or card expiry is no number. |
| `Shop.TalkOutcome` | OnlineShoppingCenter/main.cpp:305-538 | A checkout dialogue throws exactly at an asked-for postal code or card number of 2^64 or more, and stores the user exactly if an asked-for address or card entry was completed and confirmed. |
| `Shop.LockedOutForGood` | OnlineShoppingCenter/storagesystem.cpp:183-205 | In every continuation, a user whose stored postal code or card expiry is no number stays so, and every login throws. |
| `Shop.ExpiryLocksOut` | OnlineShoppingCenter/storagesystem.cpp:202-205 | After filing a card whose expiry does not begin with a number and leaving, the user is locked out in every continuation. |
| `Shop.SampleUserLockedOut` | OnlineShoppingCenter/storagesystem.cpp:545-554 | A user with postal code V8T4G7 is locked out in every run. |
| `Shop.OrdersOnRecord` | OnlineShoppingCenter/storagesystem.cpp:327-409 | Every placed order is on record with the sum of price times quantity, and its items read back as the cart that was bought. |
| `Shop.ChargeKeepsStock` | OnlineShoppingCenter/transaction.cpp:42-48 | Writing stock back from cart snapshots takes off the shelf exactly what the order says. |
| `Shop.AmountSplit` | OnlineShoppingCenter/transaction.cpp:29-36 | The amount is the sum over the items in any order. |
| `Shop.EditsArePersisted` | OnlineShoppingCenter/main.cpp:136-293 | In every session that satisfies the shop invariant (all reachable ones do), after a command that changes the cart the stored text reads back as exactly the intended quantities: the number given (cut to 32 bits) at that item and no other change, an item less, or nothing. |
| `Shop.CheckoutIsPersisted` | OnlineShoppingCenter/transaction.cpp:38-57 | A confirmed checkout of a valid cart, after a completed dialogue, records the order with its items, amount and the dialogue's address and card, takes the items off the shelf and nothing else, appends the order to the history in memory and in the store, and leaves an empty cart in both. |
| `Shop.RefusedWhenShort` | OnlineShoppingCenter/main.cpp:294-303 | In every reachable session a checkout is refused exactly for an empty cart or one with more of a product than the store has on hand. |
| `ShopHistory.RecordsByHistory` | OnlineShoppingCenter/storagesystem.cpp:33-221 | In every run a user's stored history is the one at the opening followed by exactly the orders placed since, the record's postal code, card number and expiry are those filed last, and a session shows the history. |
| `ShopHistory.StrangersUntouched` | OnlineShoppingCenter/storagesystem.cpp:33-132 | A user's record is unchanged by any run without a login of that user. |
| `ShopHistory.TalkAsSaid` | OnlineShoppingCenter/main.cpp:305-538 | After any answers the order has the address and card of the last answer that settled them, the file those kept last, and the dialogue has thrown exactly if an asked-for number was too big. |
| `ShopHistory.QuestionsInOrder` | OnlineShoppingCenter/main.cpp:305-538 | Each question is asked exactly when its turn is: a card only with an address settled, nothing after the card is settled, a new address only while none is settled, and what is on file as soon as it is there. |
| `ShopHistory.CartUntouched` | OnlineShoppingCenter/main.cpp:106-570 | A command that neither edits the cart nor places an order nor ends the session leaves the cart alone. |
| `Shop.StoredCartIsCurrent` | OnlineShoppingCenter/storagesystem.cpp:134-221 | During a session the stored cart is the cart in memory if and only if it is empty or some command since the last login changed the cart, put an address or card on file (from the account menu or in a checkout, even a declined one) or was a checkout that went through. |
| `Shop.ZeroEntryStays` | OnlineShoppingCenter/main.cpp:241-274 | An entry of quantity 0 stays through the rest of the session without a non-zero addtocart of that product, a clear or a confirmed checkout; remove and changeqty do nothing to it. |
| `Shop.LoginLosesCart` | OnlineShoppingCenter/storagesystem.cpp:183-221 | In every run, a login that succeeds shows cart, history, postal code and card as stored, with the security code replaced by what the expiry begins with, and leaves an empty cart stored, also after exit; one that throws on the card leaves an empty one stored, too; one that throws on the postal code changes nothing. |
| `Shop.RunKeepsInv` | OnlineShoppingCenter/main.cpp:97-884 | The invariant over store, accounts, orders and session holds after every sequence of commands. |
| `ShopProgram.ShoppingCenter.CheckOut` | OnlineShoppingCenter/main.cpp:294-565 | Performs the checkout step: refused for an empty or invalid cart; otherwise buys, holds the dialogue, ends with its exception or charges if confirmed. |
| `ShopProgram.ShoppingCenter.Converse` | OnlineShoppingCenter/main.cpp:305-538 | The dialogue loop: asks for what is on file or for new entries, stores the user at each entry that is confirmed, and stops at a number it cannot hold. |
| `ShopProgram.ShoppingCenter.ChargeCard` | OnlineShoppingCenter/transaction.cpp:38-57 | Takes the stock, records the order and empties the cart; the runtime error cannot happen. |
| `ShopProgram.ShoppingCenter.StoreUser` | OnlineShoppingCenter/storagesystem.cpp:33-132 | Writes cart, orders and whatever of address and card is set, and leaves the rest of the record. |
| `ShopProgram.ShoppingCenter.ReadOrders` | OnlineShoppingCenter/storagesystem.cpp:156-161 | Succeeds exactly if every order of the history is on record and can be read. |
| `ShopProgram.ShoppingCenter.ManageAccount` | OnlineShoppingCenter/main.cpp:608-855 | The addr, pay and orders commands: an entry that is confirmed is stored, and a number of 2^64 or more ends the program. |
| `ShopProgram.ShoppingCenter.TakeStock` | OnlineShoppingCenter/transaction.cpp:42-48 | Fails exactly for a cart with an invalid quantity; otherwise every bought product is stored with its reduced quantity. |
| `ShopProgram.ShoppingCenter.HasInvalid` | OnlineShoppingCenter/shoppingcart.cpp:135-143 | True exactly if some quantity exceeds the snapshot's on-hand count. |
| `ShopProgram.ShoppingCenter.Total` | OnlineShoppingCenter/transaction.cpp:29-36 | The loop computes the cart's amount. |
| `ShopProgram.ShoppingCenter.PutProduct` | OnlineShoppingCenter/shoppingcart.cpp:24-33 | Sets the entry, also to quantity 0, and stores the user. |
| `ShopProgram.ShoppingCenter.DeleteProduct` | OnlineShoppingCenter/shoppingcart.cpp:50-56 | Erases the entry and stores the user. |
| `ShopProgram.ShoppingCenter.EmptyCart` | OnlineShoppingCenter/shoppingcart.cpp:109-115 | Empties the cart and stores the user. |
| `ShopProgram.ShoppingCenter.EditCart` | OnlineShoppingCenter/main.cpp:136-293 | The addtocart, remove, changeqty and clear commands with their guards in order, the exception for a number of 2^64 or more, and 32-bit quantities. |
| `ShopProgram.ShoppingCenter.LogInAs` | OnlineShoppingCenter/storagesystem.cpp:134-221 | Login as written: orders and postal code are read, the stored cart is emptied, the card is read and stored, and the cart is rebuilt in memory with fresh product snapshots; each number that cannot be read throws at its place. |
| `CartText.RoundTrip` | OnlineShoppingCenter/storagesystem.cpp:111-120 | For every cart with SKUs below 2^64 and quantities below 2^32, writing and reading back gives the same map, zero quantities included. |
| `CartText.EncodeInjective` | OnlineShoppingCenter/storagesystem.cpp:366-375 | Different carts are stored as different texts. |
| `CartText.CartToText` | OnlineShoppingCenter/storagesystem.cpp:111-119 | The append loop writes the items in ascending SKU order, one per line. |
| `CartText.TextToCart` | OnlineShoppingCenter/storagesystem.cpp:213-218 | The read loop rebuilds the map, and fails exactly if some line cannot be read. |
| `CartText.Split` | OnlineShoppingCenter/common.h:20-30 | The getline loop computes the fields. |
| `CartText.FieldsSplit` | OnlineShoppingCenter/common.h:20-30 | A delimiter separates the fields before from those behind it, a text without one is one field, and empty fields are dropped. |
| `CartText.StoulReads` | OnlineShoppingCenter/main.cpp:144-156 | On any text with spaces, a sign and a number at its front stoul gives the number, wrapped around if negative, and refuses 2^64 or more. |
| `CartText.StoulRefuses` | OnlineShoppingCenter/main.cpp:144-151 | On any text without a number there stoul gives nothing. |
| `CartText.TwoItems` | OnlineShoppingCenter/storagesystem.cpp:545-547 | Items are separated by newlines, and a SKU from its quantity by a colon. |
| `CartText.LineReadsBack` | OnlineShoppingCenter/storagesystem.cpp:215-217 | One item line splits and parses back to its SKU and quantity. |
| `CartText.ValueOfToString` | OnlineShoppingCenter/storagesystem.cpp:116-118 | Decimal printing of a number is inverted by its parsing. |
| `DetailedName.NameIsValid` | externs/glib/glib-2.49.6/gio/gaction.c:420-433 | True exactly for non-empty names of alphanumerics, dot and dash. |
| `DetailedName.RoundTrip` | externs/glib/glib-2.49.6/gio/gaction.c:471-587 | For every valid name and optional target, parsing the printed detailed name gives both back in all three formats, provided the value itself prints and parses back. |
| `DetailedName.PrintInjective` | externs/glib/glib-2.49.6/gio/gaction.c:562-587 | No two pairs of name and target share a detailed name. |
| `DetailedName.FormatPrinted` | externs/glib/glib-2.49.6/gio/gaction.c:562-587 | The :: format is used exactly for string targets that are non-empty and consist of alphanumerics, dot and dash; parentheses for any other target. |
| `DetailedName.PrintNormalises` | externs/glib/glib-2.49.6/gio/gaction.c:471-587 | Printing a parsed name with a valid name part gives a text that parses to the same. |
| `DetailedName.ParseAccepts` | externs/glib/glib-2.49.6/gio/gaction.c:471-527 | Parsing gives a name and target if and only if the text is the name without separators, alone and non-empty, or followed by :: and the string target, or by a text in parentheses that parses to the target; so an empty name is accepted before a target. |
| `DetailedName.BaseLength` | externs/glib/glib-2.49.6/gio/gaction.c:492-492 | The length of the longest prefix without a separator. |
| `Application.CountsAreRight` | externs/glib/glib-2.49.6/gio/gapplication.c:2074-2121 | In every run at most one inactivity timer exists, only while the use count is zero; the busy count is outstanding marks plus busy bindings and the desktop state follows it. |
| `Application.CountsByHistory` | externs/glib/glib-2.49.6/gio/gapplication.c:2074-2121 | In every run the use count is holds minus releases; a timer is pending exactly if the last hold was released with a timeout set, or the service began to wait unheld, and neither a hold nor its end came since; the application is busy exactly with more marks than unmarks or an existing binding last heard busy. |
| `Application.StepKeepsBusy` | externs/glib/glib-2.49.6/gio/gapplication.c:2638-2682 | Marks, unmarks, binding, notification and unbinding keep the busy count right. |
| `Application.RunKeepsInv` | externs/glib/glib-2.49.6/gio/gapplication.c:2367-2383 | Timer and busy invariants hold in every reachable state. |
| `Application.GApplication.HoldApplication` | externs/glib/glib-2.49.6/gio/gapplication.c:2074-2086 | Removes a pending timer and counts the hold. |
| `Application.GApplication.ReleaseApplication` | externs/glib/glib-2.49.6/gio/gapplication.c:2110-2121 | Counts the release and starts the timer when it was the last and a timeout is set. |
| `Application.GApplication.StartService` | externs/glib/glib-2.49.6/gio/gapplication.c:2367-2374 | Starts the service timer only if there is neither a hold nor a timer. |
| `Application.GApplication.NotifyBusyBinding` | externs/glib/glib-2.49.6/gio/gapplication.c:2821-2837 | Marks or unmarks exactly when the binding's state changes. |
| `Application.GApplication.UnbindBusyProperty` | externs/glib/glib-2.49.6/gio/gapplication.c:2808-2819 | A binding destroyed while busy gives its mark back. |

## Left out

- GObject plumbing (class initialisation, properties, reference counts, type checks) and interface forwarders: no behaviour worth proving.
- D-Bus transport, the inside of GVariant, iconv and xdgmime: a variant is its type string and text, signals arrive in order, and case folding is an arbitrary function.
- RocksDB handles, column families and write batches: the store is a set of maps, and a handle opened before a write reads the old value.
- Reactions of a group to Activate and SetState are any signals it emits before the call returns; one that runs the main loop meanwhile is left out.
- Group discipline of the exporter: `added` for absent names, the other signals for present names, and a new state of the same type, are conditions on the steps.
- Lifetime of a context's instance: `get` is not called on an instance whose finalizer is already running, as `g_object_ref` demands, and every call passes start and stop functions.
- Handlers connected to a cancellable by plain `g_signal_connect`, and the unlocked first test of `cancel`, which only decides when the call takes effect.
- Descriptor users of a cancellable release only what they made; the unlocked test before the lock in `release_fd` is not modelled.
- Asynchronous and non-blocking variants of the streams: a would-block result is one of the failures of the base stream.
- Seeking sizes: buffer sizes are below 2^63 and offsets fit a goffset; other counters are mathematical integers.
- Converter progress: a converter that goes on producing without ever consuming more than finitely often, or reports NO_SPACE for every size, is excluded (fields `stored` and `enough`).
- Empty pattern of the enumerator: the original dereferences NULL for an empty path, so at least one component is required; the directory tree does not change during a walk.
- Dates, rounding of floating-point prices, and address fields other than the postal code; UUIDs are fresh. A typed text is represented by the number `stoul` reads from it, an entry it rejects is no command, and an empty answer to a yes-or-no question counts as yes.
- Stores not written by the program: a record has all fields of an address or card or none, and stored carts and orders can be read and name known products (`Opening`).
- Two shop processes at once: checkout writes stock from a snapshot, so conservation is a property of sequential sessions.
- Unbalanced calls on an application: more unmarks than marks, or more releases than holds, are caller errors.
