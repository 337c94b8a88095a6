# leanmqd: a model of the broker and its proofs

leanmqd is a single-threaded STOMP broker. A client sends frames; a SEND frame becomes a MESSAGE that is put
into the message queues of the subscribers of a destination (`/queue/...`: one subscriber in turn, `/topic/...`:
all of them), and the queues are written out to sockets that may take any part of a message, or nothing.
This project states what that code does in Dafny and proves what it is for. `dafny verify dfyconfig.toml` checks it.

The layers, from the bottom up:

| files | what they model |
|---|---|
| `Bytes`, `Pbuf` | the sliding byte buffer of `libsf/sf_pbuf.c`, on an array |
| `Ring`, `Records`, `MsgQueue` | the ring of four buffers of `mqcore/msgqueue.c`: as a value, as bytes, and as a class over arrays |
| `Sender`, `StompData` | the resumable sender of `stomp/stomp_subr.c`: as a value, and as a class that keeps the pointer `ss_sbuf` |
| `Members`, `Binding` | the growing slot array of `mqcore/binding.c`: as a value, and as a class over an array of sinks, which are the sessions' queues with their callbacks |
| `ChainTable`, `BindingHash`, `SessionTable` | the chained tables of `mqcore/binding_hash.c` and `libsf/sf_session.c`, on the heap |
| `Frames`, `StompMsg` | frame recognition in `stomp/stomp_proto.c`: its meaning, and its loops |
| `Receive`, `Framing`, `Forward`, `Build`, `BrokenFrames`, `Headers` | the receive loop of `libsf/sf_session.c`, which byte strings are frames, what forwarding makes of them, frames written from their parts, frames that go wrong, and what is read from the bytes of a header |
| `StompSubr`, `Sessions` | the steps of `stomp/stomp_subr.c` on the heap: one session with its queue and its binding, and all sessions together |
| `Broker`, `BrokerSteps` | the broker as a state machine over all sessions, queues and bindings: its steps, and what they keep |
| `Protocol`, `Dispatch`, `Subscriptions` | protocol states, runs of events, what each frame does, and over runs which sessions are there, connected and bound to a name |
| `StaleBuffer`, `Subscriber` | sessions with a stale send buffer, and what a subscriber reads end to end |
| `Histories`, `Turns`, `Progress` | over runs: what a queue accepts, whose turn it is, and that everything accepted is sent |

A class is proved against the value model of its layer, and the properties are proved about the value model.
The heap classes and the state machine meet in the same functions: both subscribe with `Members.Subscribe`, take turns
with `Members.Pick`, push with `Rings.Push`, and send with `Senders.SendResume` and `Senders.Deliver`
(`Brokers.DeliverIsSender`). Pointers inside one object are array indices; in `Broker` pointers between objects are
identifiers that are never used twice, so that using a freed object would be an access outside a map.

The main results:

- **Stream conservation.** In every run, what the socket took, the rest of the current message and the messages
  behind it are the accepted messages in order: for one queue (`Senders.StreamConservation`) and for the queues of
  all sessions interleaved (`Protocol.EveryRun`, whose invariant says so for every session that is not stale).
  Delivery completes exactly when no queued message is empty (`Senders.DrainsUnlessEmptyMessage`).
- **Framing.** The byte strings that `stomp_msg_length` delimits whatever precedes or follows, in every buffer whose
  length is an int, are exactly those that pass a check on their own bytes (`Framing.DelimitsIffWellFramed`). Streams
  of them may be cut anywhere (`Framing.StompChunking`), and what a frame is made of decides whether it passes
  (`Building.BuiltFrame`).
- **Forwarding.** A SEND frame is forwarded as a frame exactly under a condition that is known before
  (`Forwarding.ForwardedIsFramed`), so that a subscriber's bytes are read back as the accepted messages
  (`Subscribers.SubscriberReads`), from publisher bytes to subscriber bytes (`Subscribers.PublisherToSubscriber`), and
  for what clients write with the same headers and bodies (`Subscribers.ClientsAreRead`).
- **Invariant.** Every event keeps the invariant of the whole broker (`Protocol.StepKeeps`, `Protocol.EveryRun`), up to
  the first event that sends from a queue that is gone (`Protocol.UndefinedReadsFreed`) or copies a text over the end
  of its buffer, behind which nothing is known of the code.
- **Heap.** On the heap the sessions share nothing but bindings whose slots point back to exactly the sessions bound to
  them; every step keeps it so, for any set of sessions (`Sessions.Subscribe`, `Sessions.Enqueue` and the others).
- **Subscriptions and delivery.** After every run a session is bound to a name exactly if a SUBSCRIBE of it to that name
  succeeded and no UNSUBSCRIBE, DISCONNECT or end has followed (`Subscriptions.BoundHistory`). A SEND to a topic is then
  offered to the queues of exactly the sessions that have subscribed to it (`Subscriptions.TopicSend`), one to a queue to
  exactly one of them (`Subscriptions.QueueSend`). A queue accepts exactly the publications that are pushed to it while
  it has room (`Histories.LogHistory`), and sends exactly as much as the socket takes (`Dispatch.SendFrameTakes`).
- **Fairness, progress.** Turns are fair over runs (`Turns.RunIsFair`), and everything accepted is sent once the socket
  takes enough bytes (`Progress.EverythingIsSent`).
- **Gate.** SEND, SUBSCRIBE, UNSUBSCRIBE and DISCONNECT frames are handled exactly between a successful CONNECT and the end
  of the session, CONNECT frames before, and no other frame ever is (`Dispatch.HandlersNeedConnect`).
- **Headers and message-ids.** A header has the value behind its key and any blanks, whatever the line ends
  (`Headers.HeaderOfWire`), and publication p of a run has the message-id p + 1 modulo 2^32 (`Subscribers.MessageIds`).

Where the code does not do what it is meant to do:

- A refused subscription destroys the session's queue and leaves `ss_sbuf` and `ss_slen` behind
  (`stomp/stomp_subr.c:124-145`). A session is stale in this way exactly if it named neither a queue nor a topic in the
  middle of a message and has not ended since (`Protocol.StaleHistory`), and all streams are in order exactly if no
  session is (`Protocol.RunInOrder`). A new session and five frames lead there, and two more events to a send from the
  destroyed queue (`StaleBuffers.StaleIsReachable`, `StaleBuffers.UndefinedIsReachable`).
- A frame with a content-length but without a body is not delimited reliably, and neither is a frame whose body is not
  as long as it says, or behind its first NUL (`Framing.BreaksOnNumber`, `Framing.BreaksWithBody`):
  `BrokenFrames.NUMBER_FRAME` and `BrokenFrames.SHORT_FRAME`.
- A frame with seven headers loses its body to the eighth entry that the message-id takes, and its message is then
  delimited by its first NUL (`Forwarding.FullFrameSurvives`, `BrokenFrames.SevenHeadersSurvive`):
  `BrokenFrames.SevenHeadersBreak`.
- A header without a value takes the whole next header line for its value, because the line ends are skipped like blanks
  (`Headers.EmptyHeaderOfWire`).
- `msgqueue_push_msg` may allocate the whole ring and still refuse a message that fits a buffer only without its header
  (`Rings.RejectedPushFillsRing`). This concerns other callers of it only: the broker's frames have at most a megabyte,
  its buffers two (`Histories.RefusedWithoutEffect`).

## Model

| member | source | states |
|---|---|---|
| `Pbufs.Pbuf.Relocate` | libsf/sf_pbuf.c:206-218 | the overlapping move to the front keeps the contents, and the bytes behind them |
| `Pbufs.Pbuf.Adjust` | libsf/sf_pbuf.c:115-122 | drops exactly a prefix, or nothing if there is less data, and always leaves the data in front |
| `Pbufs.Pbuf.WritePrepare` | libsf/sf_pbuf.c:130-139 | succeeds exactly if that many bytes are free, keeps the contents, and does not touch a buffer whose data is in front |
| `Pbufs.Pbuf.Write` | libsf/sf_pbuf.c:141-151 | appends everything or changes nothing, and fails exactly without room |
| `Pbufs.Pbuf.Resize` | libsf/sf_pbuf.c:54-71 | keeps the first bytes of the buffer, which are the contents if the data is in front |
| `Pbufs.Pbuf.FreeLen` | libsf/sf_pbuf.c:97-101 | free and held bytes are the whole buffer |
| `Records.LengthRoundTrip` | mqcore/msgqueue.c:109-110 | a reader finds the length that was written into the header |
| `Records.FirstRecord` | mqcore/msgqueue.c:109-111 | the front of a slot is its first message, and behind it are the records of the others |
| `Records.EncodeAllInjective` | mqcore/msgqueue.c:206-212 | the bytes of a slot determine its messages |
| `Rings.PushRefinesFifo` | mqcore/msgqueue.c:178-220 | a push appends exactly the message or leaves the FIFO alone; it is accepted exactly if it fits with its header into the write slot or a slot still to be allocated |
| `Rings.RejectedPushFillsRing` | mqcore/msgqueue.c:190-204 | a refused push changes the ring exactly if the message passes the size check, does not fit with its header, and slots are free; then all are allocated |
| `Rings.RefusedKeepsRing` | mqcore/msgqueue.c:190-204 | a message that fits a buffer with its header is refused without any effect |
| `Rings.PeekRefinesFifo` | mqcore/msgqueue.c:94-114 | peek returns the first message of the FIFO and fails exactly if there is none |
| `Rings.PopRefinesFifo` | mqcore/msgqueue.c:116-135 | pop removes exactly the first message and fails exactly if there is none |
| `Rings.PushKeepsFront` | mqcore/msgqueue.c:178-220 | a push only appends to the slot that is read, and the next peek or pop stays there |
| `Rings.LongestMessage` | mqcore/msgqueue.c:178-220 | a new queue of eight megabytes takes a message if and only if it has at most two megabytes less four bytes |
| `Rings.FourBigMessages` | mqcore/msgqueue.c:178-220 | of messages of which no two fit a buffer it takes four, one to a buffer, and no fifth |
| `MsgQueues.MsgQueue.constructor` | mqcore/msgqueue.c:47-77 | a new queue is the empty ring with one allocated slot |
| `MsgQueues.MsgQueue.WNext` | mqcore/msgqueue.c:137-152 | allocates the next slot exactly if it is free, and moves nothing |
| `MsgQueues.MsgQueue.RNext` | mqcore/msgqueue.c:154-165 | gives back the drained front slot exactly if another one is allocated |
| `MsgQueues.MsgQueue.Peek` | mqcore/msgqueue.c:94-114 | the pointer and length returned are the bytes of the first message, inside the front buffer; the ring settles as the value model does |
| `MsgQueues.MsgQueue.PopMsg` | mqcore/msgqueue.c:116-135 | the array ring pops as the value ring does |
| `MsgQueues.MsgQueue.PushMsg` | mqcore/msgqueue.c:178-220 | the array ring pushes as the value ring does, and the bytes of the front slot keep their buffer, their place and their values, whether the push is accepted or not |
| `MsgQueues.WriteRecord` | mqcore/msgqueue.c:206-212 | once the room is there no write fails, so the slot ends in one whole record more |
| `MsgQueues.MsgQueue.MakeRoom` | mqcore/msgqueue.c:195-204 | the redo loop ends, and fails only with all slots allocated |
| `Senders.SendResumeConserves` | stomp/stomp_subr.c:204-243 | whatever send() takes moves from the outstanding to the sent bytes, in order |
| `Senders.DeliverConserves` | stomp/stomp_subr.c:271-275 | an accepted message is added behind everything outstanding, a refused one leaves it alone |
| `Senders.SendResumeTakes` | stomp/stomp_subr.c:204-243 | one send: it offers what is left of the first message, or all of it if none was begun; of that the socket takes the first n bytes, or all, or none if it fails; the rest is pending, and the message is popped exactly if nothing is left of it |
| `Senders.DeliverTakes` | stomp/stomp_subr.c:271-275 | a push that is accepted puts the message at the end and then sends once in this way, whatever was pending; a push that is refused sends nothing |
| `Senders.StreamConservation` | stomp/stomp_subr.c:204-243 | over every run of pushes, callbacks and writable events with partial, empty and failed sends: sent ++ pending ++ queued is the concatenation of the accepted messages |
| `Senders.DrainsUnlessEmptyMessage` | stomp/stomp_subr.c:220-240 | writable events on a socket that takes everything empty the queue if and only if no queued message is empty |
| `Senders.ResumeAdvances` | stomp/stomp_subr.c:220-240 | a socket that takes something takes a byte of what is outstanding, if no queued message is empty |
| `StompDatas.StompData.SendResume` | stomp/stomp_subr.c:204-243 | the session with its pointer into the ring sends as the value model does, for every result of send() |
| `StompDatas.StompData.CreateQueue` | stomp/stomp_subr.c:124-130 | the session gets an empty queue; `ss_sbuf` and `ss_slen` stay as they are |
| `StompDatas.StompData.DestroyQueue` | stomp/stomp_subr.c:135-136 | the queue is gone while `ss_sbuf` and `ss_slen` stay, and the session is stale exactly if bytes of it were left to send |
| `StompDatas.StompData.PointsAtPending` | stomp/stomp_subr.c:227-239 | between calls `ss_sbuf` and `ss_slen` describe the unsent end of the first message in memory |
| `StompDatas.StompData.Deliver` | mqcore/msgqueue.c:178-220 | a push with its callback keeps the pointer valid and delivers as the value model does; a refused push only concerns the ring |
| `Members.SubscribeJoins` | mqcore/binding.c:99-125 | subscribing always finds an empty slot, so that the error return behind the loop cannot be reached; the count stays the number of occupied slots, everybody keeps their slot, growth is strict |
| `Members.SubscribeTakesFirst` | mqcore/binding.c:99-125 | the newcomer gets the first empty slot, and an array without one grows by half |
| `Members.UnsubscribeLeaves` | mqcore/binding.c:127-145 | leaving empties exactly that member's slot, and destroys the binding exactly if it was the last |
| `Members.PickRotates` | mqcore/binding.c:232-250 | a queue push serves the member at the front of the order and sends it to the end, for any holes and any cursor; without members it serves nobody |
| `Members.TurnIsOrder` | mqcore/binding.c:238-247 | that order has as many entries as there are members, without repetition |
| `Members.TurnMembers` | mqcore/binding.c:238-247 | and its entries are exactly the occupied slots |
| `Members.Fairness` | mqcore/binding.c:232-250 | after any number of pushes the attempts of two members differ by at most one, and empty slots got none |
| `Members.OneRound` | mqcore/binding.c:232-250 | k pushes to k members serve each of them exactly once |
| `Members.NextIsModulo` | mqcore/binding.c:241 | the cursor moves on by one modulo the number of slots |
| `Bindings.Binding.constructor` | mqcore/binding.c:155-176 | a new binding has eight empty slots |
| `Bindings.Binding.Extend` | mqcore/binding.c:191-214 | the array grows by half, with every slot kept |
| `Bindings.Binding.Subscribe` | mqcore/binding.c:99-125 | the array of pointers takes the sink into its first free slot, as the value model says, and grows if it is full |
| `Bindings.Binding.Unsubscribe` | mqcore/binding.c:127-145 | likewise for leaving, and the binding is gone exactly with its last member |
| `Bindings.Binding.Turn` | mqcore/binding.c:238-247 | the scan finds the member whose turn it is and moves the cursor behind it |
| `Bindings.Binding.QueuePush` | mqcore/binding.c:232-250 | the sink whose turn it is takes the message, and its callback sends; nothing else is written but the cursor, and it is enough that this sink can take the message |
| `Bindings.Binding.TopicPush` | mqcore/binding.c:216-230 | every sink gets the message once, each with its callback, none disturbs another, and the call succeeds exactly if all of them had room |
| `Bindings.Binding.PushMsg` | mqcore/binding.c:147-153 | one of the two, by the kind of the binding |
| `StompSubr.SessionData.Join` | mqcore/binding.c:113-119 | the session takes one empty slot of the binding, everybody else keeps theirs |
| `StompSubr.SessionData.Leave` | stomp/stomp_subr.c:180-181 | exactly the slots of the session become empty, and the binding leaves the table exactly with its last member |
| `Sessions.MemberFollows` | stomp/stomp_subr.c:107-184 | in the invariant of all sessions a session is in a slot of a binding exactly if it is bound to it, and the slots hold the sessions bound to it |
| `Sessions.EnqueueFollows` | mqcore/binding.c:216-250 | the members of a binding share nothing, which is what a push to them requires |
| `Sessions.NoneStaleCanTake` | stomp/stomp_subr.c:186-202 | a message can be pushed to any binding none of whose sessions is stale |
| `Sessions.LinksKept` | stomp/stomp_subr.c:50-202 | a step that changes one session and one binding keeps the invariant if it keeps that binding in order |
| `Sessions.Connect` | stomp/stomp_subr.c:50-65 | a new session shares nothing with the others |
| `Sessions.Output` | stomp/stomp_proto.c:234-238 | a writable event sends as the sender says, and concerns no other session |
| `Sessions.Subscribe` | stomp/stomp_subr.c:107-152 | fails exactly for a bound session or for an unknown name that is neither a queue nor a topic; then the queue is gone and a message half sent leaves the session stale; otherwise the session has its old queue or a new one, and one slot that was empty in the binding of that name, which is in the table; everybody else keeps theirs |
| `Sessions.Unsubscribe` | stomp/stomp_subr.c:154-184 | a session bound to the name leaves its binding and keeps its queue, the binding leaves the table exactly with its last member; for any other name nothing changes |
| `Sessions.Destroy` | stomp/stomp_subr.c:67-87 | the session leaves its binding in the same way, its queue is gone, and the others stay together |
| `Sessions.Enqueue` | stomp/stomp_subr.c:186-202 | a message for a known name reaches the sink whose turn it is, or all of them, each as its sender says, and nobody else; the cursor moves behind that sink; for an unknown name nothing changes |
| `ChainTables.Table.Register` | mqcore/binding_hash.c:43-60 | puts one node at the head of its bucket; all chains stay acyclic with inverse links, every node in its bucket |
| `ChainTables.Table.Unlink` | mqcore/binding_hash.c:74-79 | takes out this node and no other, and keeps the same shape |
| `ChainTables.Table.Lookup` | mqcore/binding_hash.c:95-103 | finds the first match of the chain |
| `BindingHashes.CalcHash` | mqcore/binding_hash.c:106-118 | the loop computes FNV-1a |
| `BindingHashes.HashOfA` | mqcore/binding_hash.c:106-118 | the hash of "a" is the published one of 32-bit FNV-1a, which fixes the basis and the prime |
| `BindingHashes.HashOfBoth` | libsf/sf_session.c:340-354 | hashing field by field is hashing the fields in a row |
| `BindingHashes.Lookup` | mqcore/binding_hash.c:84-104 | lookup agrees with the finite map for every name |
| `BindingHashes.Register` | mqcore/binding_hash.c:43-60 | register adds one name to the map |
| `BindingHashes.Unregister` | mqcore/binding_hash.c:62-82 | unregister removes that name and no other |
| `BindingHashes.MatchIsUnique` | mqcore/binding_hash.c:95-103 | the first match of a chain is what the map has under the name |
| `SessionTables.CalcHash` | libsf/sf_session.c:297-338 | the hash of a session's address and identifier |
| `SessionTables.SameBucket` | libsf/sf_session.c:356-397 | addresses that compare equal, with equal identifiers, hash alike |
| `SessionTables.SessionTable.Create` | libsf/sf_session.c:194-223 | refused exactly at the maximum; the count is the number of linked sessions and never exceeds it |
| `SessionTables.SessionTable.Destroy` | libsf/sf_session.c:113-130 | takes out this session only, also among sessions with the same key |
| `SessionTables.SessionTable.Find` | libsf/sf_session.c:278-295 | looks at one bucket and yet finds a matching session whenever the table has one |
| `Frames.NextStartIsLeast` | stomp/stomp_proto.c:411-435 | the next line is the first place behind a line end that is not one itself |
| `Frames.ToInt` | stomp/stomp_proto.c:169-176 | an int keeps the value if it is in range |
| `Frames.ToIntIsModulo` | stomp/stomp_proto.c:169-176 | otherwise it keeps the low 32 bits, as a signed number |
| `Frames.ParseCommand` | stomp/stomp_proto.c:376-389 | the first command of the table that the frame starts with |
| `Frames.MsgLength` | stomp/stomp_proto.c:183-203 | a frame that is recognised is not empty, was received, and ends in NUL |
| `StompMsgs.NextLine` | stomp/stomp_proto.c:411-435 | the scan with its flag finds the next line start |
| `StompMsgs.IsHeaderLine` | stomp/stomp_proto.c:448-461 | the bounded scan decides whether a line is a header |
| `StompMsgs.StompMsg.ParseLines` | stomp/stomp_proto.c:391-409 | the loop fills `sm_hdr` and `sm_body` with the header lines and the body of the parse |
| `StompMsgs.StompMsg.Find` | stomp/stomp_proto.c:346-358 | the first header with the key |
| `StompMsgs.StompMsg.Read` | stomp/stomp_proto.c:318-344 | the buffer gets the header's value and a NUL, found behind the first colon, which is the one of the key |
| `StompMsgs.MsgEstimLen` | stomp/stomp_proto.c:154-181 | the estimated length, with the conversions to int |
| `StompMsgs.MsgLen` | stomp/stomp_proto.c:183-203 | the length of the frame in front, or -1 |
| `StompMsgs.FindCommand` | stomp/stomp_proto.c:376-389 | the command table is searched in order |
| `Receiving.SessionInput` | libsf/sf_session.c:138-151 | the loop over the buffer takes exactly the frames of the receive function and leaves its rest |
| `Receiving.ReceivePartitions` | libsf/sf_session.c:138-151 | for any protocol and any bytes: consumed pieces ++ rest is the input, every piece was recognised and is not empty, and nothing more is recognised |
| `Receiving.ChunkingIndependence` | libsf/sf_session.c:138-151 | frames that are delimited are dispatched exactly, in order, however the stream is cut and whatever the buffer holds behind it |
| `Framing.ParseLocal` | stomp/stomp_proto.c:391-435 | bytes behind a NUL do not change the lines in front of it |
| `Framing.EstimateInContext` | stomp/stomp_proto.c:154-181 | once the body is inside, whatever follows leaves the estimate alone |
| `Framing.FrameInContext` | stomp/stomp_proto.c:183-203 | a well-framed frame is recognised in front of anything |
| `Framing.NoFrameInPart` | stomp/stomp_proto.c:183-203 | no proper beginning of one is taken for a frame |
| `Framing.FollowingBounds` | stomp/stomp_proto.c:411-435 | what follows a frame starts behind a line end, a body behind a content-length at least seventeen bytes on |
| `Framing.BreaksUnlessFramed` | stomp/stomp_proto.c:183-203 | for every other byte string there is a buffer in which it is not delimited |
| `Framing.DelimitsIffWellFramed` | stomp/stomp_proto.c:183-203 | so exactly the well-framed byte strings are delimited in every context whose length is an int |
| `Framing.BreaksOnNumber` | stomp/stomp_proto.c:166-176 | a content-length that can count, in a frame without a body, breaks on a body at the right distance |
| `Framing.BreaksOnLateHeader` | stomp/stomp_proto.c:166-176 | without one, a content-length and a body that follow break it, if eighteen bytes more fit an int |
| `Framing.BreaksWithBody` | stomp/stomp_proto.c:188-200 | a frame with a body breaks if its estimate is another length, or if the NUL scan ends in front of the body |
| `Framing.StompChunking` | libsf/sf_session.c:138-151 | STOMP streams of well-framed frames may be cut anywhere |
| `Framing.StompPartition` | stomp/stomp_proto.c:183-203 | whatever a client sends is consumed in pieces that end in NUL, and the rest has no recognised frame |
| `Forwarding.DigitsRoundTrip` | stomp/stomp_proto.c:471-477 | the printed message-id reads back as the number |
| `Forwarding.NoLeadingZero` | stomp/stomp_proto.c:471-477 | and has no leading zero |
| `Forwarding.MessageLength` | stomp/stomp_proto.c:264-290 | a message is longer than its frame by less than thirty bytes |
| `Forwarding.ForwardedLines` | stomp/stomp_proto.c:264-290 | the message has the message-id in front of the header lines behind the first line feed, as far as entries are left, and the body at the same distance |
| `Forwarding.ForwardedIsFramed` | stomp/stomp_proto.c:264-290 | the message of any frame is well-framed if and only if the frame survives: body and content-length are found with the seven entries left, and the content-length gives the length of the message or does not count |
| `Forwarding.FramedBodySurvives` | stomp/stomp_proto.c:264-290 | a well-framed frame with its body in place and up to six headers survives if and only if no content-length that was ignored comes back |
| `Forwarding.FullFrameSurvives` | stomp/stomp_proto.c:400-407 | with seven headers or more it survives if and only if its only NUL is the last byte |
| `Forwarding.ForwardingKeepsContent` | stomp/stomp_proto.c:264-290 | every header behind the command line but a message-id keeps its value, and the bytes from the body on are the same; with up to six headers these are all headers |
| `Building.BuildIsParsed` | stomp/stomp_proto.c:391-409 | a frame written from a command, up to seven headers and a body is parsed into them |
| `Building.BuiltFrame` | stomp/stomp_proto.c:183-203 | a frame is well-framed if and only if a content-length that counts is the length of the body, or without one the body has no NUL |
| `Building.SizedFrame` | stomp/stomp_proto.c:166-194 | with a content-length exactly the length of the body does, and then the body may hold any bytes |
| `Building.ForwardedBuild` | stomp/stomp_proto.c:264-290 | forwarding changes the command and puts the message-id in front of the headers, nothing else |
| `Building.ClientFrameForwarded` | stomp/stomp_proto.c:264-290 | what a client writes with up to six headers arrives as a well-framed message with the same headers and body |
| `Headers.HeaderShowsColon` | stomp/stomp_proto.c:448-461 | a line is a header if and only if it has a colon among its first n bytes, n being eighty, and no NUL, LF or CR before it |
| `Headers.WireIsParsed` | stomp/stomp_proto.c:391-435 | a command line, up to seven headers and a body are parsed into them, with any mix of CR and LF between the lines |
| `Headers.EightHeaders` | stomp/stomp_proto.c:400-407 | eight headers or more fill the eight entries, and no body is found |
| `Headers.HeaderOfWire` | stomp/stomp_proto.c:318-358 | the value is what is behind the key and any blanks, tabs, vertical tabs and form feeds in the first header that starts with the key, up to the CR or LF behind it |
| `Headers.EmptyHeaderOfWire` | stomp/stomp_proto.c:329-330 | if there is nothing but blanks behind the key the value is the whole next header line |
| `Headers.DestinationOfWire` | stomp/stomp_proto.c:269-272 | so for "destination:" |
| `Headers.NoDestination` | stomp/stomp_proto.c:346-358 | without such a header there is no destination |
| `Headers.DestinationOfBuilt` | stomp/stomp_proto.c:318-344 | likewise for the frames written from their parts, with a line feed behind each line |
| `Headers.NumberOfPlain` | stomp/stomp_proto.c:167-169 | a decimal content-length counts as it is if it is an int; a larger one is cut to the range of a long, of which the low 32 bits count |
| `Headers.NumberOfPlus` | stomp/stomp_proto.c:167-169 | likewise with a plus sign in front |
| `Headers.NumberOfMinus` | stomp/stomp_proto.c:167-169 | with a minus sign the number is negative |
| `Headers.NotANumber` | stomp/stomp_proto.c:168-169 | a value that has anything but digits behind its sign, or none, is no number |
| `Headers.EstimateOfWire` | stomp/stomp_proto.c:154-181 | the estimate is the length of the lines, the number and one for the NUL, with any blanks in front of the number |
| `Headers.SizedWire` | stomp/stomp_proto.c:183-194 | a frame whose content-length is the length of its body is taken whole, whatever its body and its line ends are |
| `Headers.UnsizedWire` | stomp/stomp_proto.c:195-200 | one without a content-length is taken up to its NUL |
| `BrokenFrames.NumberFrameBreaks` | stomp/stomp_proto.c:166-176 | "A", a content-length of 5 and a NUL are taken for a longer frame in some buffer |
| `BrokenFrames.ShortFrameBreaks` | stomp/stomp_proto.c:183-203 | a content-length of 9 with an empty body is not taken for a frame when it is there |
| `BrokenFrames.SevenHeadersSurvive` | stomp/stomp_proto.c:400-407 | a well-framed frame with seven headers is forwarded as a frame if and only if its body has no NUL |
| `BrokenFrames.SevenHeadersBreak` | stomp/stomp_proto.c:400-407 | with a content-length of 1, six more headers and a NUL for a body the frame is well-framed and its message is not, for every message-id |
| `Brokers.WritableKeeps` | stomp/stomp_subr.c:204-243 | a writable event keeps the invariant, all links, and which sessions are stale |
| `Brokers.StaleIsDangling` | stomp/stomp_subr.c:133-144 | the buffer of a stale session lies in no queue that exists |
| `Brokers.DeliverIsSender` | mqcore/msgqueue.c:206-219 | a delivery of the state machine is what the sender makes of the message |
| `Brokers.WritableSends` | stomp/stomp_proto.c:234-238 | a writable event of a session with a queue is one send from that queue, with all others left alone; without a queue nothing changes |
| `Brokers.EnqueueTook` | mqcore/binding.c:216-250 | every target of a message takes it if it has room and then sends once, as its own send() result says; one without room sends nothing |
| `Brokers.DeliverKeeps` | mqcore/msgqueue.c:178-220 | a delivery keeps the invariant, logs the publication exactly if there is room, and touches no other queue or session |
| `Brokers.EnqueueDelivers` | stomp/stomp_subr.c:186-202 | a SEND is offered once to each target, which takes it exactly if it has room; all other queues stay as they are, and the invariant is kept |
| `Brokers.QueueHasOneTarget` | mqcore/binding.c:232-250 | a name whose binding is a queue has exactly one target; `Subscriptions.QueueTarget` says so by the name alone |
| `Brokers.TopicPushDelivers` | mqcore/binding.c:216-230 | the fan-out loop reaches the queues of the remaining slots, each once |
| `BrokerSteps.OpenKeeps` | stomp/stomp_subr.c:50-65 | a new session keeps the invariant |
| `BrokerSteps.QuietKeeps` | stomp/stomp_subr.c:50-184 | no step that sends nothing breaks the invariant |
| `BrokerSteps.QuietStaleness` | stomp/stomp_subr.c:50-184 | such a step makes a session stale exactly by taking the queue that it is sending from |
| `BrokerSteps.LeaveKeeps` | mqcore/binding.c:127-145 | leaving a binding keeps the invariant, in which every binding in the table has a member; queues and everything else of the session stay |
| `BrokerSteps.LeaveSlots` | mqcore/binding.c:127-145 | exactly the session's queue leaves the slots, and the binding is destroyed exactly if it was the only member |
| `BrokerSteps.DestroyKeeps` | stomp/stomp_subr.c:67-87 | the end of a session keeps the invariant |
| `BrokerSteps.UnsubscribeKeeps` | stomp/stomp_subr.c:154-184 | unsubscribing keeps the invariant (what it does is `Subscriptions.UnsubscribeLeaves`) |
| `BrokerSteps.SubscribeKeepsLinks` | stomp/stomp_subr.c:107-152 | subscribing always keeps the links between sessions, queues, bindings and the table |
| `BrokerSteps.SubscribeKeeps` | stomp/stomp_subr.c:107-152 | subscribing keeps the invariant on every path (what it does is `Subscriptions.SubscribeBinds` and `Subscriptions.SubscribeFails`) |
| `BrokerSteps.SubscribeStaleness` | stomp/stomp_subr.c:107-152 | it leaves a session stale if and only if the session was, or its name is refused in the middle of a message |
| `StaleBuffers.StaleIsReachable` | stomp/stomp_subr.c:139-144 | CONNECT, SUBSCRIBE, a SEND whose message cannot be sent yet, UNSUBSCRIBE and a SUBSCRIBE to a bad name are a run that leaves the session stale |
| `StaleBuffers.UndefinedIsReachable` | stomp/stomp_subr.c:227-230 | with one more SUBSCRIBE the next writable event sends from the queue that is gone |
| `StaleBuffers.StaleBufferIsUsed` | stomp/stomp_subr.c:227-230 | the next subscription gives a stale session a new queue, while `ss_sbuf` points into one that is gone, with bytes left to send |
| `Protocol.HandlerOf` | stomp/stomp_proto.c:91-109 | which frames have which handler, by their first bytes and the state of the session: DISCONNECT, SEND, SUBSCRIBE and UNSUBSCRIBE if it is connected, CONNECT if not |
| `Protocol.StepKeeps` | stomp/stomp_proto.c:205-238 | every event keeps the invariant of the whole broker |
| `Protocol.StepStaleness` | stomp/stomp_proto.c:205-238 | an event leaves a session stale if and only if it is the refused subscription in the middle of a message, or the session was stale and the event does not end it |
| `Protocol.StepKeepsOrderUnlessStale` | stomp/stomp_proto.c:205-238 | with all streams in order, an event that overflows no buffer keeps them so if and only if it leaves no session stale |
| `Protocol.UndefinedReadsFreed` | stomp/stomp_subr.c:227-235 | an event sends from a queue that is gone if and only if a stale session has a queue again, and its socket is writable or that queue is pushed a message that it accepts |
| `Protocol.EveryRun` | stomp/stomp_proto.c:205-238 | the invariant holds after every run whose events neither send from a queue that is gone nor overflow a buffer; so no other step reaches a queue or binding that was destroyed |
| `Protocol.StaleHistory` | stomp/stomp_proto.c:205-238 | after a run a session is stale if and only if some event left it stale and nothing since has ended it |
| `Protocol.RunInOrder` | stomp/stomp_proto.c:205-238 | after a run all streams are in order if and only if no session is stale |
| `Dispatch.DisconnectFrame` | stomp/stomp_proto.c:255-262 | a DISCONNECT frame of a connected session removes the session, as its end does |
| `Dispatch.ConnectFrame` | stomp/stomp_proto.c:240-253 | a CONNECT frame of a session that is not connected connects it and changes nothing else, or changes nothing if the reply cannot be sent |
| `Dispatch.SendFrame` | stomp/stomp_proto.c:264-290 | a SEND frame of a connected session fails without effect if it has no destination or no line feed; otherwise its message gets the next message-id, is published, and is offered once to each target and to no other queue |
| `Dispatch.SendFrameTakes` | stomp/stomp_subr.c:186-243 | and each target with room then sends once, whatever was pending: as many bytes of what is in front as its send() takes |
| `Dispatch.SubscriptionFrame` | stomp/stomp_proto.c:292-316 | SUBSCRIBE and UNSUBSCRIBE frames of a connected session are the steps of the broker, and fail without effect if there is no destination |
| `Dispatch.OtherFrame` | stomp/stomp_proto.c:205-232 | every other frame fails without effect |
| `Dispatch.StepConnects` | stomp/stomp_proto.c:217-231 | a session is connected if and only if the event is a CONNECT whose reply was sent, or it was connected and the event does not end it |
| `Dispatch.StepLives` | stomp/stomp_proto.c:132-152 | a session is there if and only if the event starts it, or it was and the event is not its end or its DISCONNECT |
| `Dispatch.SessionHistory` | stomp/stomp_proto.c:205-232 | after a run a session is there, or is connected, if and only if it was started, or connected, and nothing since has ended it |
| `Dispatch.HandlersNeedConnect` | stomp/stomp_proto.c:205-232 | in every run SEND, SUBSCRIBE, UNSUBSCRIBE and DISCONNECT frames are handled if and only if a CONNECT succeeded that no DISCONNECT and no end of the session has followed, CONNECT frames if and only if the session is there without such a CONNECT; no other frame has a handler |
| `Dispatch.FailedFrame` | stomp/stomp_proto.c:222-228 | a failing handler leaves all protocol states alone, and an unknown command changes nothing at all |
| `Subscriptions.UnsubscribeLeaves` | stomp/stomp_subr.c:154-184 | if the session is bound to the name, it is bound to nothing afterwards, its queue is in no slot, every other queue is in the slot it was in, and no other session and no queue changes; if not, nothing changes |
| `Subscriptions.DestroyLeaves` | stomp/stomp_subr.c:67-87 | the session and its queue are gone, the queue from its slot, too; all other sessions, queues and slots are as they were |
| `Subscriptions.SubscribeBinds` | stomp/stomp_subr.c:107-152 | a session that is bound to nothing is bound to a name that starts with "/queue/" or "/topic/", with its queue or a new empty one of eight megabytes, in one slot; everybody else keeps theirs |
| `Subscriptions.SubscribeFails` | stomp/stomp_subr.c:107-152 | any other session or name fails; a session that is bound to nothing then loses its queue, and nothing else changes |
| `Subscriptions.TopicTargets` | mqcore/binding.c:216-230 | the targets of a name that starts with "/topic/" are the queues of all sessions bound to it |
| `Subscriptions.QueueTarget` | mqcore/binding.c:232-250 | a name that starts with "/queue/" has one target if a session is bound to it, the queue of such a session, and none otherwise |
| `Subscriptions.TableIsBound` | stomp/stomp_subr.c:245-269 | a name is in the table if and only if a session is bound to it, and starts with one of the two prefixes |
| `Subscriptions.StepBinds` | stomp/stomp_subr.c:107-184 | a session is bound to a name if and only if the event is a SUBSCRIBE to it of a connected session that was bound to nothing and the name has one of the two prefixes, or it was bound and the event is no UNSUBSCRIBE of that name and no end of the session |
| `Subscriptions.BoundHistory` | stomp/stomp_subr.c:107-184 | after a run a session is bound to a name if and only if such a SUBSCRIBE came and neither UNSUBSCRIBE nor end has followed |
| `Subscriptions.TopicSend` | stomp/stomp_subr.c:186-202 | a SEND to a topic after a run is offered once to the queue of every session that has subscribed to it, and every other queue stays as it is |
| `Subscriptions.QueueSend` | stomp/stomp_subr.c:186-202 | a SEND to a queue is offered to exactly one queue of a session that has subscribed to it, if there is one, and every other queue stays as it is |
| `Subscriptions.OverflowsExactly` | stomp/stomp_proto.c:318-344 | which frames overflow a buffer: a content-length or, where it is read, a destination of 256 bytes or more, or a name of 64 bytes or more in a subscription that creates its binding |
| `Subscribers.StepGrows` | stomp/stomp_proto.c:205-238 | no event takes back what was published, accepted or sent, and a SEND publishes its message with the next message-id |
| `Subscribers.PublishedComeFrom` | stomp/stomp_proto.c:264-290 | every publication is the forwarded form of the SEND frame that it comes from, with the message-id of its time |
| `Subscribers.MessageIds` | stomp/stomp_proto.c:281 | publication p of a run has the message-id p + 1, modulo 2^32 |
| `Subscribers.MessageIdsDiffer` | stomp/stomp_proto.c:281 | so message-ids repeat only after 2^32 publications |
| `Subscribers.PublicationBytes` | stomp/stomp_proto.c:264-290 | the bytes of publication p: "MESSAGE", "message-id:" with that number, each with a line feed, and the rest of its SEND frame |
| `Subscribers.PublishedInOrder` | stomp/stomp_proto.c:264-290 | a session's publications are frames of it, each at most once and in order |
| `Subscribers.LoggedAreFramed` | stomp/stomp_proto.c:264-290 | the messages that a queue has accepted are well-framed if the frames they come from survive forwarding, whatever else was published |
| `Subscribers.SubscriberReads` | stomp/stomp_subr.c:204-243 | the bytes that the socket of a session that is not stale has taken, however they arrive, are framed as exactly the accepted messages that were sent in full, in publishing order |
| `Subscribers.PublisherToSubscriber` | libsf/sf_session.c:138-151 | from the bytes of a publisher, cut anyhow, to those of a subscriber, cut anyhow: what is read comes from frames of the stream, in its order |
| `Subscribers.ClientsAreRead` | stomp/stomp_proto.c:264-290 | if the messages of a queue come from frames that clients write with up to six headers, its subscriber reads the same headers behind a message-id, and the same bodies |
| `Histories.StepQueues` | stomp/stomp_proto.c:205-238 | an event leaves every queue as it is, or sends from it, or offers it the message, or creates it empty |
| `Histories.LogHistory` | stomp/stomp_subr.c:186-202 | over every run a queue has accepted exactly the publications that were pushed to it while it had room, in order |
| `Histories.EveryRing` | mqcore/msgqueue.c:178-220 | over every run all buffers have 2097152 bytes, and no queue holds an empty message |
| `Histories.RefusedWithoutEffect` | libsf/sf_socket.c:636-644 | over every run a message made of a frame of at most a megabyte is refused without any effect |
| `Turns.StepRounds` | mqcore/binding.c:232-250 | the cursor of a binding moves in a SEND to it, behind the member served, and in no other event |
| `Turns.ServedIsTarget` | mqcore/binding.c:232-250 | such a SEND is for the queue in that slot, and for no other |
| `Turns.RunIsFair` | mqcore/binding.c:232-250 | over any stretch of a run in which nobody joins or leaves a queue binding the numbers of messages for two members differ by at most one, whatever else happens |
| `Progress.EverythingIsSent` | stomp/stomp_subr.c:204-243 | after any run, writable events in which the socket takes at least a byte, as many as bytes are left, send everything that a session that is not stale has accepted |

## Left out

- malloc, calloc and realloc are assumed to succeed.
- Pbufs.Pbuf.Resize: requires a new length that holds the data, because the code copies all of it whatever the new length is (libsf/sf_pbuf.c:61-64).
- MsgQueues.MsgQueue.constructor: requires a queue size of at least 4 (the only caller passes 8 MiB); below that the slots have no bytes and the loop of a push of an empty message would not end (mqcore/msgqueue.c:144-149).
- MsgQueues.MsgQueue.PushMsg: requires iovecs of less than 2^31 bytes in all, because `msgqueue_total_len` sums into an int (mqcore/msgqueue.c:167-176).
- StompDatas.StompData.Deliver: the same.
- `binding_extend` clears `mmax - bi_members_max` bytes and not slots (mqcore/binding.c:209): the new slots are taken to be empty, as intended.
- `binding_unsubscribe` goes on looping after it has destroyed the binding (mqcore/binding.c:134-142): the model stops there; `Members.UnsubscribeLeaves` says exactly when that happens.
- A sink is the session's sending half, not the message queue inside it: every session has at most one queue, and the callback belongs to it.
- The steps on the heap are proved for any set of sessions; runs of them, with frames and protocol states, are proved for the state machine, which refers to sessions, queues and bindings by identifiers.
- StompDatas.StompData.SendResume: requires that a session with a queue is not stale, because the code would send from freed memory (stomp/stomp_subr.c:227-230).
- `BindingIndex` is the finite map that the chained table of `BindingHash` is proved to implement, not the table itself.
- What the code does with names of 64 bytes and more in a new binding (`strncpy`, mqcore/binding.c:172) is open, so a run ends there (`Protocol.Overflows`).
- StompMsgs.StompMsg.Read: requires a value shorter than the buffer, because `bufmax` is never counted down (stomp/stomp_proto.c:332-339); the value model has no such bound.
- StompMsgs.MsgEstimLen: requires the same for its buffer of 256 bytes.
- StompMsgs.MsgLen: requires the same.
- The scans without a length (`stomp_is_header`, `strchr`, `isspace`) read on behind the frame; the model gives them the buffer, and its end stops them like a NUL.
- Building.BuiltFrame: a content-length that is nothing but its key and spaces is not covered, because the code then reads on into the next line (`Headers.EmptyHeaderOfWire`).
- Headers.EmptyHeaderOfWire: says nothing of the last header, whose value is then taken from the body.
- What the code does once it sends from a queue that is gone, or copies a header value of 256 bytes or more (stomp/stomp_proto.c:332-339), is open, so a run ends there (`Protocol.EventDefined`).
- DISCONNECT is the end of a session: after it the code sets the state of a session without data (stomp/stomp_proto.c:230, stomp/stomp_subr.c:103-104).
- The reply to CONNECT and its session-id are left out; whether it can be sent is a parameter.
- sockets, polling, timers, logging, argument parsing and the daemon set-up: send() is any result of any call, received bytes are any chunks, and what is behind them in the buffer is any bytes.
- Peeking at a socket and resizing its buffer by the estimated length (libsf/sf_socket.c:538-660) are left out; the length callback and `sf_pbuf_resize` are modelled.
- The size of the session table, `session_euler_prime`, is a parameter; family and other fields of addresses are byte strings.
- `sf_session_create_start` and the session identifier callback only add cases that pass a result on.
