# gpshub: model and proofs

gpshub is a server that passes GPS positions between buddies. A TCP thread takes
commands (register a nick, add or remove buddies), a UDP thread takes positions, and
any number of broadcasting threads send each new position to the user's buddies. This
project models that logic in Dafny and proves what it keeps, mostly over whole runs.
Check it with `dafny verify dfyconfig.toml`.

| file | what it models |
|---|---|
| `Handoff.dfy`, `HandoffInvariant.dfy`, `HandoffTheorems.dfy`, `HandoffOutcomes.dfy` | the hand-off of positions from the UDP thread to the broadcasting threads, one memory access at a time, any number of users and threads |
| `Shutdown.dfy` | stopping the broadcasting threads through the queue they share |
| `QueueMonitor.dfy` | `BlockingQueue` down to its mutex and condition variable |
| `CircularBuffer.dfy` | the per-session byte ring, its loops and guards |
| `Framing.dfy`, `Sessions.dfy`, `ManySessions.dfy` | cutting the TCP streams into packages, for one session and for many that share the receive buffer |
| `Hub.dfy`, `Users.dfy` | the registry, the id search, the UDP handshake; first as a value, then as the shared objects |
| `Connections.dfy` | connections, the users they register and what closing them leaves behind |
| `NickLookup.dfy` | the broadcasters' two calls on the nick map, with quits between them |
| `CommandHandler.dfy`, `CmdPkg.dfy` | the commands and the packages they send |
| `Csv.dfy`, `BuddiesIds.dfy` | buddy lists, the two-pass BUDDIES_IDS encoder and the client's decoder |
| `GpsData.dfy` | GPS datagrams, the UDP handlers, the broadcast |
| `Sends.dfy`, `Epoll.dfy` | deferred sends; sizing of epoll's event array |
| `Bytes.dfy`, `Selections.dfy` | network-order numbers, C strings, remainders; elements picked by flags |

Code that changes objects in place is modelled by classes and loops; every such method
is proved against a function of the old state, and the lemmas are about that function.
The concurrent protocols are state machines whose steps are the code's accesses.
The two views of the hand-off meet in `Handoff.Undisturbed`: the method
`UpdatePosition` computes it, and `ProducerAlone` shows that the steps of the state
machine, left alone, add up to it; `ConsumerAlone` does the same for `Serve`. `Relayed`
and `Relay` put the two together, from a received datagram to those sent.

## Where the code does less than it seems to, and exactly when it does not

* `CircularBuffer`'s early exits compare a cell index, which is reduced modulo the
  capacity, with a counter that never is. A request that exceeds the free space or the
  content is cut short correctly exactly when the counter has not passed the capacity
  and the ring is not full (not empty): `AddShort`, `GetShort`. After a few packages a
  read of three bytes returns three though only one is buffered: `ReadsTooMuch`.
  Requests within bounds are always exact: `AddExact`, `GetExact`, `RefinesQueue`.
* `incomingData` handles at most one package per receive. Where every chunk leaves a
  header to read, it keeps up exactly when no chunk completes two packages:
  `NeverBehindExactly`. Six bytes in one chunk are enough to leave it behind:
  `TwoInOneChunk`.
* `incomingData` ignores how many bytes `add` took. A client that does not wait fills
  the 1024-byte ring, and then bytes of the stream are lost: three full chunks of
  3-byte packages are enough (`PipelineOverflows`). While the guard of the ring can
  fire, every chunk without room loses its tail (`ShortAddLoses`); once `start` has
  passed the capacity, or when the ring is full, the oldest bytes are overwritten
  instead. One receive keeps handled packages and buffered bytes equal to the stream
  exactly when the chunk survives, as `Survives` defines it, and so does a run:
  `StillInStepExactly`, `FramingExactly`. That there is room can be told beforehand
  from the lengths of packages and chunks: `FramingSafe`, `FramingComplete`. All
  sessions receive into one buffer, so stale bytes may be another session's; the
  results hold for every interleaving of sessions: `ServerSafe`, `ServerExactly`.
* With fewer than three bytes buffered it reads stale memory as a length. No byte is
  lost, whatever the memory holds, exactly when the type and a non-zero high length
  byte are there: `SplitHeader`. That split is among those `FramingSafe` allows.
* `stop` puts its marker on the queue all broadcasting threads share, so another thread
  may take it. Shutdown is clean under every interleaving exactly for at most one
  thread: `ShutdownSafeExactly`, `CleanShutdownExactly`. It is clean for any number if
  every `stop` has returned before a marker is pulled: `StopBeforePull`.
* `addBuddies` does not move the start of its field on an empty one. Its scan reads the
  non-empty fields exactly when no comma stands first or right after another
  (`AddScanExactly`; `",x"` adds the name `",x"`: `LeadingComma`); empty data and a
  comma at the end do no harm. `AddScanIsMerged` says what it reads otherwise: the comma
  after an empty field joins the next field. Removing a list after adding it takes its fields out of
  the old buddies exactly when every name with a comma that was added had been a buddy
  before (`RemoveAfterAdd`): always for a clean list, and only for one if no old buddy
  has a comma in its name (`RemoveAfterAddOfClean`).
* `broadcast` asks the nick map twice, count and then get, and each call takes the lock
  for itself. If the buddy quits in between, get inserts a NULL entry and the broadcaster
  follows a NULL pointer. A nick has a NULL entry exactly if a quit of it, with no new
  registration after, fell between some broadcaster's two calls: `NullEntryExactly`, `GetsNullExactly`; such runs exist:
  `QuitCanFallBetween`. Everywhere else the two calls are one step.
* A connection may register twice. Closing it removes only the user it registered last;
  the earlier one stays registered for good. With all connections closed, the users left
  are exactly those replaced that way, and the registry is empty exactly if no connection
  registered twice: `LeftBehindExactly`.
* The first pass over a buddy list counts a name each time it is listed, the second
  writes it once. The lengths agree, and the reply decodes whatever memory its tail was
  made of, exactly when no registered name is listed twice: `LengthsAgree`,
  `ReplyDecodesExactly`, `AnswerDecodesExactly`.
* A broadcast leaves out a negative altitude, which readers then take for zero, though
  README.md:157-159 of the repository gives the altitude no sign restriction. The
  position comes back whole exactly for altitudes that are not negative: `GpsRoundTrip`.
* The loop of `generate` cannot end through its guard, so `return 0` and the status
  "too many users" are dead; with every id taken it never ends. It ends exactly when
  some non-zero id is absent: `FindableExactly`.
* The comment at src/server/CommandHandler.cpp:141 says that the user's id goes to the
  buddy; the code sends it to the requester, and so does the model.

## Assumptions

* Memory accesses interleave sequentially consistently. Condition variables behave as
  POSIX.1 (IEEE Std 1003.1) says: a signal wakes at least one waiter if there is one,
  and waiters may wake for no reason.
* Ring counters are unbounded; in C they are `int`, which holds up to 2^31 bytes
  through one connection.
* A send goes out whole or would block; other socket errors are exceptions and not
  modelled. The outcome of each send, each receive and each `epoll_ctl` is a parameter,
  and so is the random token.
* Outside `NickLookup`, a user quits only while no thread holds its pointer or has
  counted its nick, and ids do not wrap round onto one that is still queued or just
  pulled (`Handoff.Enabled`).
* Registration is one step (token included), and `addr_udp` counts as absent until the
  handshake; in C it is uninitialised memory.
* Where C writes behind the shared receive buffer, nothing is said of what comes after:
  `IncomingData` ends there and says so, exactly when the predicate `Fits` fails for some
  chunk. With a whole header that is a complete package of 512 bytes or more
  (`ReceiveFrom`), and `ReceiveInStep` proves that a well-formed stream with room and
  headers never meets it.
* Commands come in packages the receive buffer can hold together with the terminator:
  at most 508 data bytes.
* Ids on the queue and in the map are compared as 32-bit patterns; C mixes `int` and
  `unsigned int` there.

## Model
| member | source | states |
|---|---|---|
| HandoffTheorems.NotificationToken | src/server/GpsDataServer.cpp:190-207 | in every state of every run, a live user's `ready` is set exactly while one notification of it is under way: on the queue, in a broadcaster's hands, or between the producer's setReady and put |
| HandoffTheorems.QueueBounded | README.md:92 | without quits and stops, each id is on the queue at most once and the queue is no longer than the number of users |
| HandoffTheorems.QueuedAreLive | src/server/GpsDataServer.cpp:206 | without quits and stops, every queued id is a registered user's |
| HandoffTheorems.NoWriteWhileCopied | src/hubthread/CoordsBroadcastThread.cpp:39-43 | under every interleaving, the slot a broadcaster copies is the ready one and the producer's writes go to the other |
| HandoffTheorems.NoTornPosition | src/hubthread/CoordsBroadcastThread.cpp:39-43 | what a broadcaster is about to send is the three fields of one accepted datagram of that user, never a mixture |
| HandoffTheorems.OrderedExactlyOnce | src/hubthread/CoordsBroadcastThread.cpp:32-49 | over every run, the positions broadcast for a user are a prefix of those published, at most one behind; both are subsequences of those accepted; published ones number the finished broadcasts plus one if `ready` is set |
| HandoffOutcomes.PublishedExactly | src/server/GpsDataServer.cpp:182-204 | over every run, whenever the producer is not at work for a user, each of its accepted positions has been tested once, in order, and those published are exactly the ones whose test found `ready` free |
| HandoffOutcomes.FatesAlways | src/server/GpsDataServer.cpp:190-198 | and at any moment but for the position at hand |
| HandoffOutcomes.DatagramAlone | src/server/GpsDataServer.cpp:168-207 | from any state with the producer receiving, a datagram from a registered user's own address is written to its empty slot; if `ready` was free that slot is published, the other becomes the empty one and the id is queued; the other slot, all other users and all other threads stay |
| HandoffOutcomes.DatagramIgnored | src/server/GpsDataServer.cpp:170-180 | any other datagram changes nothing |
| HandoffOutcomes.DatagramServed | src/server/GpsDataServer.cpp:163-209 | in every reachable state with the producer receiving, it can accept any datagram and finish with it |
| HandoffOutcomes.Relayed | src/hubthread/CoordsBroadcastThread.cpp:32-49 | with `ready` free and a broadcaster waiting at an empty queue, the position received is the next one sent, and afterwards `ready` is free, the queue empty and both threads back where they were |
| HandoffOutcomes.QueueIsFifo | src/server/GpsDataServer.cpp:206 | over every run, the ids pulled, by whichever thread, are a prefix of the ids and markers put, and the queue is the rest |
| HandoffOutcomes.UsersAre | src/server/CommandHandler.cpp:201-208 | over every run, a user is found exactly if its id was registered and has not quit since |
| HandoffTheorems.NeverNull | src/hubthread/CoordsBroadcastThread.cpp:39-52 | a broadcaster that finds its user finds a position ready: the branch for null coordinates is never taken |
| HandoffTheorems.RecordIsTheRun | src/server/GpsDataServer.cpp:176-206 | the histories the invariant speaks of are those read off the run's own steps |
| HandoffTheorems.StepRecords | src/server/GpsDataServer.cpp:176-206 | each step adds to a user's history exactly what it did: accepted a datagram, published, sent or finished |
| HandoffTheorems.ProducerAlone | src/server/GpsDataServer.cpp:182-207 | run without interference, the producer's accesses are the whole method: the slot written, and if `ready` was free it is published, the slots are swapped and the id is queued; no other thread is touched |
| HandoffTheorems.ConsumerAlone | src/hubthread/CoordsBroadcastThread.cpp:34-49 | run without interference, a broadcaster's accesses send the published position once, free `ready` and change nothing else |
| HandoffInvariant.InvAlways | src/server/GpsDataServer.cpp:163-209 | every state of every run satisfies the invariant of the hand-off |
| HandoffInvariant.StepKeepsInv | src/server/GpsDataServer.cpp:163-209 | each step of any thread keeps the invariant |
| HandoffInvariant.ProduceKeepsInv | src/server/GpsDataServer.cpp:182-204 | each access of the producer keeps the invariant |
| HandoffInvariant.ConsumeKeepsInv | src/hubthread/CoordsBroadcastThread.cpp:32-53 | each access of a broadcaster, its three field reads in any order, keeps the invariant |
| HandoffInvariant.OneHolder | src/hubthread/CoordsBroadcastThread.cpp:45-49 | at most one broadcaster has a user's notification in hand, and then the id is neither queued nor about to be, and `ready` is set |
| HandoffInvariant.RegisterKeepsInv | src/user/User.cpp:5-14 | a new user (first slot empty, nothing ready) joins without disturbing the invariant |
| HandoffInvariant.QuitKeepsInv | src/server/CommandHandler.cpp:201-213 | a user that no thread holds can leave, its stale ids staying on the queue, without disturbing the invariant |
| Shutdown.ShutdownSafeExactly | src/hubthread/CoordsBroadcastThread.cpp:32-33 | every reachable state in which all stop calls have returned has a queue entry for each thread that still has to pull, if and only if there is at most one thread |
| Shutdown.OneMarkerShort | src/main.cpp:241-244 | with two or more threads there is a run in which all wait and one marker is missing |
| Shutdown.SingleThread | src/hubthread/CoordsBroadcastThread.cpp:94-97 | with one thread, a waiting thread whose flag is down has its marker queued or about to be |
| Shutdown.StopBeforePull | src/hubthread/CoordsBroadcastThread.cpp:94-97 | for any number of threads: if all stop calls return before any marker is pulled, nobody starves |
| Shutdown.StoppedThreadsExit | src/hubthread/CoordsBroadcastThread.cpp:32-53 | once all flags are down and nobody starves, in every continuation of any steps the broadcasters take at most ten steps each, that promise is kept, and where no broadcaster can step all have exited |
| Shutdown.StarvedStayBlocked | src/hubthread/CoordsBroadcastThread.cpp:32-33 | once all flags are down, no continuation that puts fewer entries on the queue than are missing makes all threads exit |
| Shutdown.CleanShutdownExactly | src/main.cpp:241-244 | once all flags are down, a continuation without puts that ends with no broadcaster able to step has made all of them exit if and only if nobody starved at its start |
| Shutdown.DownRun | src/hubthread/CoordsBroadcastThread.cpp:32-53 | in every continuation, each broadcaster step uses up one of those left, and the queue changes by the puts and by those who stop waiting for it |
| QueueMonitor.NoLostWakeup | include/thread/BlockingQueue.h:44-69 | whenever the mutex is free and somebody sleeps in pull, the queue is no longer than the number of woken threads not yet resumed; spurious wakeups included |
| QueueMonitor.NeverAllAsleep | include/thread/BlockingQueue.h:44-61 | while the queue is not empty and somebody sleeps, some thread inside put or pull can take a step: advance, or signal some set of sleepers |
| QueueMonitor.Fifo | include/thread/BlockingQueue.h:44-69 | over every run, the values pulled are a prefix of the values put and the queue is the rest |
| QueueMonitor.EachCallOnce | include/thread/BlockingQueue.h:44-69 | over every run, once all calls have returned: put has pushed each element as often as it was called with it, as many elements were taken as pull was called, and pull has returned exactly what was taken |
| QueueMonitor.CallsAccounted | include/thread/BlockingQueue.h:44-69 | and at any moment but for the calls still on their way |
| QueueMonitor.PutAlone | include/thread/BlockingQueue.h:45-52 | with the mutex free, a call of put can run to its end, whichever sleepers its signal wakes, and has appended its element |
| QueueMonitor.PullAlone | include/thread/BlockingQueue.h:55-69 | with the mutex free and the queue not empty, a call of pull can run to its end and has taken the front |
| QueueMonitor.StepIsAtomic | include/thread/BlockingQueue.h:45-52 | the monitor is an atomic queue: a step leaves it alone, appends its caller's element or hands the front to the thread that pulls it; only one thread holds the mutex |
| QueueMonitor.InvAlways | include/thread/BlockingQueue.h:44-69 | mutual exclusion, and an attending or woken thread for each queued element while somebody sleeps, in every state of every run |
| QueueMonitor.SignalKeepsInv | include/thread/BlockingQueue.h:49 | signalling, waking any non-empty set of the sleepers, keeps that |
| QueueMonitor.AdvanceKeepsInv | include/thread/BlockingQueue.h:54-69 | locking, pushing, testing, sleeping, popping and unlocking keep that |
| Rings.CircularBuffer.Add | src/util/CircularBuffer.cpp:16-30 | the loop with its guard computes the ring `Added` and returns how many bytes it took |
| Rings.CircularBuffer.Get | src/util/CircularBuffer.cpp:32-46 | the loop with its guard copies `Copied` to the front of the destination and leaves `Taken` |
| Rings.CircularBuffer.Read | src/util/CircularBuffer.cpp:48-59 | the same bytes as get, the ring unchanged |
| Rings.CircularBuffer.constructor | src/util/CircularBuffer.cpp:4-10 | a new ring stands for the empty queue |
| Rings.AddCountIs | src/util/CircularBuffer.cpp:16-24 | how many bytes add takes, for every length and every ring: never cut short once `start` has reached the capacity, cut after a whole turn if the ring is full |
| Rings.ReadCountIs | src/util/CircularBuffer.cpp:34-40 | how many bytes get and read copy, for every length and every ring |
| Rings.AddExact | src/util/CircularBuffer.cpp:16-30 | add appends its whole argument to the byte queue if and only if it fits |
| Rings.AddShort | src/util/CircularBuffer.cpp:16-30 | add appends exactly what fits if and only if everything fits, or the ring is not full and `start` has not reached the capacity |
| Rings.GetExact | src/util/CircularBuffer.cpp:32-46 | get removes exactly the prefix asked for if and only if that much is buffered |
| Rings.GetShort | src/util/CircularBuffer.cpp:32-46 | get hands out exactly what is there if and only if enough is buffered, or the ring is not empty and `end` has not reached the capacity |
| Rings.ReadsTooMuch | src/util/CircularBuffer.cpp:48-59 | after three packages that add up to the capacity have passed through a new ring, a read of three bytes returns three though one is buffered |
| Rings.StoreAppends | src/util/CircularBuffer.cpp:18-27 | bytes stored modulo the capacity leave the used cells alone and are found again behind them |
| Rings.StoreLaps | src/util/CircularBuffer.cpp:18-27 | room or not, the cells then hold the queue with its newest bytes in the places of the oldest |
| Rings.OverfullYields | src/util/CircularBuffer.cpp:16-46 | without room, and with a guard that cannot fire, add takes everything and counts more bytes than there are cells; get then hands out the overwritten queue |
| Rings.RefinesQueue | src/util/CircularBuffer.cpp:16-59 | over every sequence of operations within bounds, the ring hands out what a byte queue hands out, however large its counters get |
| Framing.CommandServer.IncomingData | src/server/CommandServer.cpp:133-180 | every chunk up to the first other outcome of recv is received, in order, and none after; the session is closed exactly if that outcome is the end of file; the result tells exactly whether every write stayed within the receive buffer. For every well-formed stream the chunks go on with: if its lengths leave room, the packages handled are its first ones, and if it was not behind and no chunk completes two, exactly the complete ones |
| Framing.CommandServer.ProcessChunk | src/server/CommandServer.cpp:162-177 | adding, reading the header over the shared buffer, and taking out at most one package compute `Receive`, stale bytes included, exactly if the package and its terminator fit the buffer, and the result says whether they do |
| Framing.ReceiveInStep | src/server/CommandServer.cpp:162-177 | one receive with room, and with a whole header or a non-zero high length byte, handles the next package exactly if it is complete, never more than one, and keeps handled packages plus ring contents equal to the bytes received |
| Framing.ReceiveFrom | src/server/CommandServer.cpp:162-177 | with three bytes or more counted, the length read is that at their front; a package is taken exactly if so many are counted, and it fits the buffer exactly if it is shorter than 512 bytes |
| Framing.StillInStepExactly | src/server/CommandServer.cpp:162-177 | for every chunk that continues the stream, handled packages plus ring contents equal the bytes received after it if and only if the chunk survives: with room, a whole header or a stale length that asks for too much; without, an unguarded ring whose overwritten bytes equal those that overwrite them and which fits again after one package |
| Framing.ShortAddLoses | src/server/CommandServer.cpp:162 | where the ring is neither full nor big enough for the chunk and its guard can fire, the stream is no longer kept |
| Framing.PipelineOverflows | src/server/CommandServer.cpp:143-178 | a new connection that receives 512 pipelined 3-byte packages in three full chunks falls out of step |
| Framing.FramingExactly | src/server/CommandServer.cpp:143-178 | for every way to cut a well-formed stream, the connection is in step after every chunk if and only if every chunk survives in the state that it meets |
| Framing.FramingSafe | src/server/CommandServer.cpp:143-178 | for every way to cut a well-formed stream whose package and chunk lengths leave room in the ring and a header to read at each receive (three bytes, or two of a package of 256 bytes or more), the packages handled are the first ones sent, unaltered and in order, and together with the ring's content are the bytes received |
| Framing.NeverBehindExactly | src/server/CommandServer.cpp:171-177 | where every chunk leaves such a header to read, all complete packages have been handled after every receive if and only if no chunk completes two |
| Framing.TwoInOneChunk | src/server/CommandServer.cpp:171-177 | a new connection that receives two 3-byte packages in one chunk handles only the first |
| Framing.FramingComplete | src/server/CommandServer.cpp:143-178 | then there is room at every receive, exactly the complete packages have been handled, and what is left is a strict prefix of the next, shorter than 511 bytes |
| Framing.ResidueIsPartial | src/server/CommandServer.cpp:171 | a connection that is not behind holds a strict prefix of the next package |
| Framing.SplitHeader | src/server/CommandServer.cpp:164-171 | with fewer than three bytes buffered, the chunk joins them and none is taken out, whatever stale memory holds, if and only if type and a non-zero high length byte are there |
| Framing.ClientPackageWellFormed | test/gpshub_pyclient/cmdchannel.py:25-32 | what the client sends is a package the server can frame if and only if its data is at most 508 bytes, and carries that data |
| ManySessions.AnyBuffer | src/server/CommandServer.cpp:145-165 | being in step does not depend on what the shared receive buffer holds |
| ManySessions.ServerSafe | src/server/CommandServer.cpp:143-178 | however the chunks of any number of sessions interleave in the shared buffer, if the lengths of each stream leave room and headers, each session handles the first packages of its own stream, unaltered and in order |
| ManySessions.ServerExactly | src/server/CommandServer.cpp:143-178 | for every interleaving, all sessions stay in step with their streams if and only if every chunk survives in the ring and the shared buffer that it meets |
| Sessions.Session.constructor | src/server/CommandServer.cpp:112-114 | a new session has no user, nothing waiting, and an empty ring of 1024 bytes |
| Sessions.Session.Send | src/server/CommandServer.cpp:186-196 | a package goes out or, if the send would block, to the end of the session's queue |
| Sessions.Session.SendQueued | src/server/CommandServer.cpp:204-219 | sends waiting packages from the front until one would block, which stays |
| Sends.SendsConserve | src/server/CommandServer.cpp:186-219 | over every run of sends and writable events, the packages submitted are, as a multiset, those sent and those waiting |
| Sends.DeferredInOrder | src/server/CommandServer.cpp:186-219 | the packages deferred are those sent later, in that order, followed by those waiting |
| Sends.PendingQueue.SendPendingCmd | src/server/GpsDataServer.cpp:138-155 | the erasing loop ends, removes exactly the commands sent and keeps the others in order |
| Sends.PassConserves | src/server/GpsDataServer.cpp:138-155 | a pass loses and repeats nothing |
| Selections.ChosenAt | src/server/GpsDataServer.cpp:142-153 | a command whose send succeeded (or would have blocked) is among those sent (kept), at the place that the earlier ones of its kind give it |
| Selections.ChosenLength | src/server/GpsDataServer.cpp:142-153 | and there are no others |
| Sends.PendingQueue.SendOrDefer | src/server/GpsDataServer.cpp:124-135 | an acknowledgement goes out or to the end of the list |
| Hubs.Gap | src/user/UserIdGenerator.cpp:15-21 | the distance from `current` to the first id, in wrap-around order, that is non-zero and absent |
| Hubs.FindableExactly | src/user/UserIdGenerator.cpp:13-25 | the search ends, from wherever it starts, if and only if some non-zero id is absent from the map |
| Hubs.NextIdIsFirst | src/user/UserIdGenerator.cpp:15-19 | of all ids that are neither zero nor in the map, the one found is the nearest ahead of `current`, zero following the greatest |
| Users.UserIdGenerator.Generate | src/user/UserIdGenerator.cpp:13-25 | if some non-zero id is absent, the loop ends and returns, of all such ids, the nearest ahead of the old `current`, zero following the greatest; NULL entries count as present |
| Hubs.ApplyKeepsOneToOne | src/server/CommandHandler.cpp:48-105 | each command or datagram keeps live ids and nicks in one-to-one correspondence |
| Hubs.AlwaysOneToOne | src/server/CommandHandler.cpp:201-213 | after every run of registrations, quits, lookups of unknown ids, handshakes and buddy changes, live users and nicks correspond one to one, each user under its own nick, none under id zero, and no nick leads to NULL |
| Hubs.EntriesAre | src/server/CommandHandler.cpp:82-83 | over every run, an id is a live user's exactly if it was given out and not given up since; the map has entries for those and for each other id a datagram has named since it was given up |
| Hubs.BuddiesAre | src/server/CommandHandler.cpp:134 | over every run, a nick is a live user's buddy exactly if, since the id was given out, the last change of that nick was an addition |
| Connections.LeftBehindExactly | src/server/CommandServer.cpp:221-241 | over every run of any number of connections: once all are closed, the live users are exactly those a connection replaced by registering again, and the registry is empty if and only if no connection registered twice |
| Connections.ConnectionsUserIsLive | src/server/CommandServer.cpp:225-226 | the user that closing a connection removes is always registered, and no other connection has it |
| Connections.AlwaysAccounted | src/server/CommandHandler.cpp:48-105 | in every state of every run, each live user belongs to exactly one open connection or was replaced |
| Hubs.HandshakeIsLatest | src/server/GpsDataServer.cpp:86-118 | over every run, a user's UDP address is the source of the latest init datagram, since its id was given out, that carried its token and came from an address of the same family and the same bytes as its TCP peer's, whatever the ports; nick, token and peer are those of the registration |
| Hubs.RecipientsHandshook | src/hubthread/CoordsBroadcastThread.cpp:69-90 | over every run, a buddy is sent broadcasts if and only if it is registered and such a datagram has come, and at that datagram's source |
| NickLookup.NullEntryExactly | src/hubthread/CoordsBroadcastThread.cpp:69-76 | over every run with any number of broadcasters, a nick has a NULL entry if and only if a quit of it, with no new registration after, fell between some broadcaster's count and get |
| NickLookup.GetsNullExactly | src/hubthread/CoordsBroadcastThread.cpp:70-73 | get hands a broadcaster the user registered last under the nick and not gone; NULL if and only if such a quit came since its own count, or the nick had a NULL entry already |
| NickLookup.OwnerIs | src/server/CommandHandler.cpp:82 | a nick leads to the user registered last under it and not gone, to nobody if there is none |
| NickLookup.QuitCanFallBetween | src/hubthread/CoordsBroadcastThread.cpp:70-72 | there is such a run |
| Users.SyncHashMap.Put | include/thread/SyncHashMap.h:39-42 | exactly that entry is set |
| Users.SyncHashMap.Get | include/thread/SyncHashMap.h:45-48 | a miss inserts a NULL entry and returns NULL; nothing else changes |
| Users.SyncHashMap.Count | include/thread/SyncHashMap.h:51-54 | one for every key present, NULL entries included |
| Users.SyncHashMap.Erase | include/thread/SyncHashMap.h:57-60 | exactly that entry goes |
| Users.User.constructor | src/user/User.cpp:5-14 | all fields of both slots zero, the first slot empty, nothing ready, no UDP address: the new user of the hand-off |
| Users.AgreeIsOneToOne | src/server/CommandHandler.cpp:81-83 | two maps of objects that agree stand for a one-to-one registry |
| Users.AgreeAdd | src/server/CommandHandler.cpp:81-83 | putting a user with a new id and nick into both maps keeps them in agreement |
| Users.AgreeDrop | src/server/CommandHandler.cpp:207-208 | erasing a user's id and nick keeps the maps in agreement |
| Users.AgreeLookup | include/thread/SyncHashMap.h:45-48 | the NULL entry a lookup leaves behind keeps the maps in agreement |
| CommandHandlers.CommandHandler.RegisterNick | src/server/CommandHandler.cpp:48-105 | a taken nick changes nothing and is refused; a free one makes a new user under the next free id in both maps and the session, acknowledged with that id and the token |
| CommandHandlers.CommandHandler.CreateUser | src/server/CommandHandler.cpp:61-83 | the registry after a registration, the new user's hand-off state being the initial one |
| CommandHandlers.CommandHandler.AddBuddies | src/server/CommandHandler.cpp:107-174 | the buddies grow by the names the scan reads and nothing else in the registry changes; the requester gets the user's own id once per registered name listed, then one reply if any is registered |
| CommandHandlers.CommandHandler.ScanBuddies | src/server/CommandHandler.cpp:124-149 | the scanning loop with its left-behind field start collects the names, the ordered id map and the first-pass length |
| CommandHandlers.CommandHandler.NewBuddiesIds | src/server/CommandHandler.cpp:157-169 | the second pass writes the entries one after another within the length of the first |
| CommandHandlers.CommandHandler.SendUserId | src/server/CommandHandler.cpp:141-145 | one entry, the user's own, in a package to the requester |
| CommandHandlers.CommandHandler.RemoveBuddies | src/server/CommandHandler.cpp:176-199 | the buddies lose exactly the fields of the list and nothing else in the registry changes |
| CommandHandlers.CommandHandler.Quit | src/server/CommandHandler.cpp:201-213 | the user leaves both maps, which stay in agreement |
| CommandHandlers.CommandHandler.CloseConnection | src/server/CommandServer.cpp:221-241 | the user the session registered last leaves before the session is closed |
| CommandHandlers.CommandHandler.Handle | src/server/CommandHandler.cpp:24-46 | type 1 registers, 2 adds and 3 removes buddies; each changes the registry, the session's user and its buddies as its command does and is answered by exactly its packages; buddies only after login; an unknown type changes and answers nothing |
| CommandHandlers.ReplyDecodes | test/gpshub_pyclient/cmdchannel.py:74-90 | with no registered name listed twice, a reply carries the entries and nothing more and decodes to the registered names under their ids |
| CommandHandlers.ReplyDecodesExactly | src/server/CommandHandler.cpp:151-172 | every reply, whatever unwritten bytes it holds, decodes to exactly the registered names under their ids, if and only if no registered name is listed twice |
| CommandHandlers.RepeatMisleads | src/server/CommandHandler.cpp:138-157 | if a registered name is listed twice, the reply's unwritten bytes can be such that it does not decode to the registered names under their ids |
| CommandHandlers.AnswerDecodesExactly | src/server/CommandHandler.cpp:107-174 | in every state of the handler and for every request, the reply that addBuddies sends decodes to the registered names under their ids if and only if no registered name is listed twice |
| CommandHandlers.AnswerTells | src/server/CommandHandler.cpp:141-171 | of a list without repeats, the requester is sent nothing if no name is registered, else one package that decodes to its own id and nick for each that is, and then one that decodes to all their ids |
| CommandHandlers.UserIdDecodes | src/server/CommandHandler.cpp:117-145 | the client decodes the user's own package to its id and nick |
| BuddiesIds.ReplyRoundTrip | test/gpshub_pyclient/cmdchannel.py:74-90 | the client decodes what the second pass writes to exactly the registered names of the list under their ids |
| BuddiesIds.LengthsAgree | src/server/CommandHandler.cpp:138-157 | the length of the first pass is never less than what the second writes, and equal if and only if no registered name is listed twice |
| BuddiesIds.ReplyFits | src/server/CommandHandler.cpp:152-157 | for every request of at most 508 bytes the reply's length fits sixteen bits |
| BuddiesIds.CollectHolds | src/server/CommandHandler.cpp:121-140 | the id map holds each registered name of the list under its id, and nothing else, in ascending signed order |
| BuddiesIds.DecodeThrough | test/gpshub_pyclient/cmdchannel.py:78-89 | the client takes encoded entries one by one whatever follows them |
| BuddiesIds.DecodeBuddiesIds | test/gpshub_pyclient/cmdchannel.py:74-90 | the client's loop computes `Decode`, failing where an id would run past the data |
| BuddiesIds.FindNickEnd | test/gpshub_pyclient/cmdchannel.py:82-84 | the inner loop stops at the first NUL or the end of the data |
| Csv.AddScanExactly | src/server/CommandHandler.cpp:124-149 | the scan of addBuddies reads exactly the non-empty fields if and only if no comma stands first or after another; otherwise it reads a name with a comma in it |
| Csv.AddScanIsMerged | src/server/CommandHandler.cpp:124-149 | for every list, the scan of addBuddies reads the fields, but the comma after an empty one joins the next field, and an empty last one is dropped |
| Csv.RemoveScanIsSplit | src/server/CommandHandler.cpp:185-197 | the scan of removeBuddies reads exactly the fields, for every list |
| Csv.SplitJoin | src/server/CommandHandler.cpp:185-197 | the fields of joined comma-free names are the names |
| Csv.ScansInvertJoin | src/server/CommandHandler.cpp:124-149 | both scans of a joined list of proper names read exactly those names in order |
| Csv.RemoveAfterAdd | src/server/CommandHandler.cpp:185-197 | for all buddies and lists, removing a list after adding it takes exactly its fields out of the old buddies, if and only if every name with a comma in it that was added had been a buddy before |
| Csv.RemoveAfterAddOfClean | src/server/CommandHandler.cpp:185-197 | it does for every list in which no comma stands first or after another; and if no old buddy has a comma in its name, for no other list |
| Csv.LeadingComma | src/server/CommandHandler.cpp:127-149 | a comma and a letter: the scan of addBuddies adds a name of both, though the fields are empty and the letter |
| Csv.ScanBound | src/server/CommandHandler.cpp:127-149 | whatever the list, the names read, terminated, are no longer than it, and at most half as many as its bytes |
| CmdPkgs.CmdPkg.constructor | src/server/CmdPkg.cpp:13-20 | type, length and terminator are in place; the data is unset |
| CmdPkgs.CmdPkg.SetInt | src/server/CmdPkg.cpp:43-45 | four data bytes become the number in network order; type, length, terminator and other data stay |
| CmdPkgs.CmdPkg.SetBytes | src/server/CmdPkg.cpp:51-53 | exactly those data bytes are overwritten |
| CmdPkgs.CmdPkg.GetBytes | src/server/CmdPkg.cpp:31-41 | what is passed to the socket is type, length and data, without the terminator |
| CmdPkgs.NewNickAck | src/server/CommandHandler.cpp:92-94 | the acknowledgement package built for a new id |
| CmdPkgs.NewInitUdp | src/server/CommandHandler.cpp:101-102 | the request package built for a token |
| CmdPkgs.RepliesRoundTrip | test/gpshub_pyclient/cmdchannel.py:10-17 | types 101, 105 and 106; the id and status a client reads are those put in, the token is the one put in, taken as unsigned, and the length fields are the packages' own lengths |
| GpsData.GpsRoundTrip | src/hubthread/CoordsBroadcastThread.cpp:78-87 | read by the server's own layout, a broadcast datagram gives back the id and the position with a negative altitude turned to zero, is 16 bytes long if and only if the altitude is positive and otherwise 12, and gives back the whole position if and only if the altitude is not negative |
| GpsData.GpsDataServer.ProcessCoordinates | src/server/GpsDataServer.cpp:163-209 | only a datagram from the user's own UDP address changes its slots and pointers: longitude from byte 4, latitude from 8, altitude from 12 or zero, into the empty slot, which is published and swapped, and the id queued, exactly if `ready` was free; an unknown id leaves a NULL entry; no other user is written |
| GpsData.GpsDataServer.UpdatePosition | src/server/GpsDataServer.cpp:182-207 | the same for the user at hand, field by field, and as the state machine says |
| GpsData.GpsDataServer.FindSender | src/server/GpsDataServer.cpp:168-180 | the user named, if the datagram comes from its registered UDP socket |
| GpsData.GpsDataServer.InitAddrUdp | src/server/GpsDataServer.cpp:86-119 | the UDP address, the only field written, is set exactly if the token is the user's and the address has the family and bytes of its TCP peer's, whatever the ports; a known user is acknowledged with that status and nobody else changes |
| GpsData.GpsDataServer.SendUdpInitAck | src/server/GpsDataServer.cpp:121-136 | the status acknowledgement goes to the user's TCP socket or to the end of the pending list |
| GpsData.CoordsBroadcastThread.Broadcast | src/hubthread/CoordsBroadcastThread.cpp:58-92 | exactly one datagram with the position goes to each buddy that is registered and UDP-ready, at its UDP address, and none to anybody else |
| GpsData.CoordsBroadcastThread.SendTo | src/hubthread/CoordsBroadcastThread.cpp:70-88 | whether a nick gets a datagram, where it goes and what is in it |
| GpsData.CoordsBroadcastThread.WritePosition | src/hubthread/CoordsBroadcastThread.cpp:78-85 | the buffer begins with the encoded position and its length is returned |
| GpsData.CoordsBroadcastThread.Serve | src/hubthread/CoordsBroadcastThread.cpp:34-52 | an unknown user or one with nothing ready sends nothing; otherwise the ready position is broadcast and `ready`, the only field written, freed |
| GpsData.Relay | src/hubthread/CoordsBroadcastThread.cpp:33-49 | a datagram accepted with nothing pending, and then the broadcast of the id it queued: exactly each registered, UDP-ready buddy is sent the received bytes, all sixteen if there is a positive altitude, else the first twelve |
| GpsData.EncodeRelays | src/hubthread/CoordsBroadcastThread.cpp:78-85 | encoding a decoded position gives the received bytes back |
| EpollSizing.Hysteresis | src/socket/Epoll.cpp:57-92 | over every run, failed calls included, nevents is the successful adds less the successful removes, the array holds them all, is less than two steps larger, and its size is a positive multiple of the step; changes of size times the step are at most the operations |
| EpollSizing.StepKeepsRoom | src/socket/Epoll.cpp:57-92 | one call keeps those bounds and the account of operations paying for reallocations |
| EpollSizing.Epoll.AddEvent | src/socket/Epoll.cpp:57-71 | the array grows before the kernel is asked; the event counts only if it agrees |
| EpollSizing.Epoll.RemoveEvent | src/socket/Epoll.cpp:80-92 | a removal shrinks the array only if two steps are spare |
| Bytes.UIntRoundTrip | src/socket/netutil.cpp:43-46 | four bytes written for an unsigned number are read back as it, wherever they stand |
| Bytes.IntRoundTrip | src/socket/netutil.cpp:38-41 | likewise for a signed number |
| Bytes.UShortRoundTrip | src/socket/netutil.cpp:53-56 | likewise for a 16-bit length |
| Bytes.NetworkOrder | src/socket/netutil.cpp:43-56 | the most significant byte comes first |
| Bytes.UIntOfBytes | src/socket/netutil.cpp:73-76 | the number read from four bytes is written as those bytes |

## Left out

- Socket, epoll and pthread system calls, `getaddrinfo`, exceptions and errno: their outcomes are parameters.
- Epoll's dispatch loop and its stop pipe: only the sizing arithmetic is modelled.
- Memory: allocation, `new char(n + 1)`, leaks, and a User deleted while a broadcast holds it; nicks are values.
- The moment in `registerNick` between publishing a user and setting its token.
- Locks of the maps and of the buddy set: each map operation is one step. The broadcast methods run alone; what a quit between count and get does is in `NickLookup`.
- Liveness the code does not promise: that the newest position is sent in the end, or an order between direct and deferred sends.
- The `while(loop)` around `Serve`, the call of the command handler from the receive loop (the model records the packages handed over) and the choice between `processCoordinates` and `initAddrUdp` by datagram length.
- `BlockingQueue` and the interleaved hand-off are state machines, not classes: their methods run concurrently, which a Dafny method cannot express. `UpdatePosition` and `Serve` are the same code as methods, run alone.
- `setShort`, `toshort`, the printable-address helpers, `accept` and `Session` teardown beyond `closed`.
- Logging, option parsing, ComponentRegistry, signal handling, exception classes, thread wrappers, SyncMap, SyncSet, CoordsUpdateThread and the Python client's sockets.
- What C does once it has written behind its receive buffer: undefined.
- Sends.PendingQueue.SendPendingCmd: the order in which acknowledgements are submitted and sent between passes is not stated, since a later direct send may overtake a pending one.
