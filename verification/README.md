# xgame, modelled and verified

xgame is a small distributed game-server framework. A gate terminates game clients, backend nodes
exchange framed protobuf messages over a bus, and every node runs its handlers through a worker queue.
This project models five connected parts of it and proves what they promise, then joins them.

* **Wire format and registry** (`Protobuf.dfy`, `Registry.dfy`, `Packet.dfy`, `Stream.dfy`, `WebSocket.dfy`):
  the concrete encoding of `MsgCommon`, the three registry maps, `PackMessage` and `ReadMessage` over a
  stream that arrives in arbitrary pieces, and `WSConn.Read`. User payloads are an abstract type with a
  lawful marshaller, the CRC-32 checksum is an arbitrary function (`Messages.Schema`).
* **Worker** (`Worker.dfy`): the queue as interleaved atomic steps, with restart on panic and a draining stop.
* **RPC and bus** (`Requester.dfy`, `MsgHandler.dfy`, `Cluster.dfy`): mids and one-shot callbacks,
  `Sender.Resp`, dispatch, gate forwarding and the gate's default handler, over a bus that loses,
  duplicates and reorders; and (`Runners.dfy`) the same with each node's worker running the callbacks.
* **Gate agents** (`Agents.dfy`, `Agent.dfy`, `Heartbeat.dfy`): the sid and uid tables, the two-stage output
  queue and the close protocol of one agent, and the heartbeat.
* **Discovery** (`Discovery.dfy`): the member cache, its listeners, and the replay of the event log.
* **Joined** (`Gate.dfy`, `EndToEnd.dfy`): one client's agent and the cluster as one system, from the client's
  websocket bytes through the gate to the bus, and from the bus back to the client.

Objects whose fields the source updates are classes (`Registry`, `ByteSource`, `WSConn`, `Queue`,
`CallbackTable`, `MessageHandlerMgr`, `AgentManager`, `Agent`, `DiscoveryDefault`, `Etcd`); their methods are
proved against functions on values, and the results are about those functions. Where goroutines
interleave, every atomic action is a `Step`, `Next` is the effect of one, and the results hold for every
run of any length (`Runs.dfy`).

## Where the code does not meet an obvious promise

* `PackMessage` cuts the lengths to 16 bits unchecked: `Stream.FrameRoundTripIff` gives the exact condition,
  `Stream.OversizedHeader` a packet that fails it for every message.
* A frame cut inside its payload is not rejected: `Stream.TruncatedPayload` says what happens instead,
  `Stream.CutReadAsOther` how a message is read as a different one, and `Stream.PrefixDecodes` what is
  read of a stream cut anywhere. Cut inside its header it passes only for a message of a type whose
  checksum is 0 (`Protobuf.CutHeader`).
* A real node calls `Start` twice (`framework/pkg/worker/component.go:26`, `framework/application.go:199`).
  Two tasks can overlap exactly from the second `Start` on (`Worker.OverlapIff`), and so can a duplicated
  response run a callback twice (`Runners.StartsTight`). A panic leaves the callback registered, so one
  runner can run it twice as well: `Cluster.CallbackTimesIff` gives all numbers of runs there can be.
* Mids wrap around: an old response can begin the wrong callback exactly from the 2^32 + 1st registration
  on (`Cluster.RpcCorrelation`, `Cluster.MidsIff`).
* `Stop` drains exactly if there was a `Start` or nothing was sent (`Worker.StopDrainsIff`,
  `Worker.StopWithoutStart`), and `Len` never recovers from a post that panicked at the closed channel
  (`Worker.LenCounts`, `Worker.LenStaysOff`).
* Rebinding a session leaves a stale uid entry: lookups stay right exactly if no bind does
  (`Agents.SoundThroughoutIff`, `Agents.RebindLeavesStale`). A leaver deletes an entry another session has
  taken over, and a stale entry dies with it: every live uid stays findable exactly if no session leaves
  while the lookup of another hangs on it (`Agents.FoundThroughoutIff`, `Agents.TakeoverLosesUid`). A takeover
  alone only makes the lookup find another session (`Agents.CompleteThroughoutIff`).
* The writer of an agent sends to the queue only it drains: with one message more than `chWrite` holds taken
  before any is written it waits for ever, and no `Close` ends the agent any more. An agent can be ended
  exactly while its writer is not there (`AgentLife.CanEndIff`, `AgentLife.CanGetStuck`).
* `strings.ReplaceAll` cuts the prefix out of the middle of an id too (`EtcdDiscovery.DeleteRemovesIff`), so a
  deletion can evict another live node (`EtcdDiscovery.DeleteEvictsOther`).
* `WSConn.Read` drops the last bytes exactly if a message reader returns them together with the end of the
  last message: `WebSocket.LosslessIff`, `WebSocket.EagerReaderLosesBytes`.

## What the results assume

* Registered response types are used only to answer requests sent with a callback (`Cluster.Disciplined`,
  asked for by the results on RPC correlation alone); a request with a nil callback has mid 0 and counts as
  a publication, which must not be answered with a response type, and packets put on the bus have headers of at most 65535 bytes
  (`Cluster.CanSend`); a longer payload is published with its length cut, and read accordingly.
* The ticks of the heartbeat come on time and are serviced at once.
* A post that finds the channel closed panics; that counts as a failed post.
* sids are non-empty and never reused; the gate's routes are a fixed map.
* The event log is contiguous with the snapshot; the watch of the source starts without its revision.
* `Worker.StopCanReturn` and `AgentLife.CanEndIff` say what can still happen, not that it will: tasks, writes
  and calls may take for ever. A post to a full queue blocks, and a late response to a timed-out
  `requestWait` blocks its runner.

## Model

| member | source | states |
|---|---|---|
| Protobuf.VarintRoundTrip | pb/def.proto:82-89 | every number that fits in the bytes left of a ten-byte varint is read back from its encoding, and the rest of the input is left |
| Protobuf.VarintBytes | pb/def.proto:82-89 | seven bits a byte, lowest first, and a high bit on all but the last |
| Protobuf.VarintOverflows | pb/def.proto:82-89 | a tenth byte is accepted exactly if it is 0 or 1 |
| Protobuf.ValidUtf8Iff | pb/def.proto:82-89 | the strings accepted are exactly the UTF-8 encodings of lists of scalar values |
| Protobuf.FieldNumbers | pb/def.proto:82-89 | the header on the wire, field by field, under the numbers 1 to 6 |
| Protobuf.SampleHeader | pb/def.proto:82-89 | one header, byte by byte |
| Protobuf.LastWins | pb/def.proto:82-89 | of a field sent twice the last value counts |
| Protobuf.WideUints | pb/def.proto:82-89 | Mid and Route keep the low 32 bits |
| Protobuf.BadString | pb/def.proto:82-89 | a string that is not UTF-8 is not decoded |
| Protobuf.CommonRoundTrip | pb/def.proto:82-89 | decoding the encoding of any MsgCommon with valid strings gives it back, default values omitted |
| Protobuf.MarshalCommonInjective | pb/def.proto:82-89 | different headers have different encodings |
| Protobuf.CommonFitsFrame | framework/pkg/packet/packet.go:106-114 | tags, lengths and integers cost at most 35 bytes, so strings of 65500 bytes in all fit the 16-bit length |
| Protobuf.CutHeader | framework/pkg/packet/packet.go:42-51 | a cut header either does not decode or decodes without a Route |
| HashRegistry.Registry.RegisterMessage | framework/pkg/packet/hash.go:20-45 | the new maps and result, nil and collision included; consistency of the maps is kept |
| HashRegistry.Registry.OnMarshal | framework/pkg/packet/hash.go:87-101 | looks the type up or registers it, then marshals; consistency is kept |
| HashRegistry.Registry.OnUnmarshal | framework/pkg/packet/hash.go:78-85 | decodes by the type registered under the id, or says that there is none |
| HashRegistry.MarshalIsRegister | framework/pkg/packet/hash.go:87-101 | on consistent maps marshalling changes them exactly as registering the type does, and yields its checksum |
| HashRegistry.RunKeepsConsistent | framework/pkg/packet/hash.go:20-45 | after any registrations, panicking ones included, the two directions are inverse and ids are checksums of the stored names |
| HashRegistry.SucceedIffNoCollision | framework/pkg/packet/hash.go:31-36 | a run of registrations never panics exactly when no two of the types share a checksum |
| HashRegistry.OrderIrrelevant | framework/pkg/packet/hash.go:20-45 | processes that register the same types in any order hold the same maps |
| HashRegistry.ProcessesAgree | framework/pkg/packet/hash.go:20-45 | two processes name every common id alike exactly when the checksum separates their different names |
| Packet.ByteSource.ReadLimited | framework/pkg/packet/packet.go:27 | io.ReadAll of a limited reader returns the next n bytes however they are chunked, or what there is |
| Packet.ReadMessage | framework/pkg/packet/packet.go:25-64 | the result and the bytes left depend on the stream's bytes alone, in every error case |
| Packet.PackMessage | framework/pkg/packet/packet.go:96-122 | the frame, the Route written into the header, and the registry afterwards |
| Packet.FrameLayout | framework/pkg/packet/packet.go:106-122 | the bytes of a frame: both lengths low byte first, then the bodies |
| Stream.PackYieldsFrame | framework/pkg/packet/packet.go:96-122 | a successful pack changes only Route, to the checksum of the message's name |
| Stream.PackOutcome | framework/pkg/packet/packet.go:96-122 | which packs fail and how, and what Route and registry are then |
| Stream.ShortStream | framework/pkg/packet/packet.go:27-40 | what is reported of fewer bytes than a frame's lengths take |
| Stream.UndecodedFrame | framework/pkg/packet/packet.go:47-61 | the errors of a whole frame that does not decode, and where they leave the stream |
| Stream.FrameParses | framework/pkg/packet/packet.go:25-64 | a frame whose bodies fit is read back and the rest of the stream left intact |
| Stream.FrameRoundTripIff | framework/pkg/packet/packet.go:109-112 | a frame is read back with the rest left intact if and only if both bodies are at most 65535 bytes |
| Stream.ReadBack | framework/pkg/packet/packet.go:25-64 | the same read through ReadMessage from a connection |
| Stream.OversizedHeader | framework/pkg/packet/packet.go:109-112 | for every message a packet that packs and is not read back |
| Stream.TruncatedPayload | framework/pkg/packet/packet.go:53-61 | a frame cut inside its payload has exactly the fate of unmarshalling the shortened payload |
| Stream.CutReadAsOther | framework/pkg/packet/packet.go:53-61 | for any two different messages of one type a lawful library under which the frame of the one, cut by a byte, is read as the other |
| Stream.PrefixDecodes | framework/pkg/packet/packet.go:25-64 | any first n bytes of a stream of frames decode to the whole frames in them, then to a read failure on a failed connection, and to at most one packet more on one that ended cleanly, with the cut frame's header or with Route 0 |
| Stream.ReadLoop | framework/pkg/xagent/agent.go:127-132 | the packets up to the first error, in order, and that error |
| Stream.StreamDecodes | framework/pkg/packet/packet.go:25-64 | the concatenated frames of any list of packets decode to exactly that list and then the end of the connection |
| Stream.StreamRoundTrip | framework/pkg/packet/packet.go:25-122 | the same for any chunking of those bytes, read with ReadMessage |
| Stream.GateRepack | framework/pkg/xagent/agent.go:222-226 | stamping and re-packing a decoded frame succeeds exactly for valid strings, and decodes elsewhere to the same message, Mid and Route exactly when the bodies fit |
| WebSocket.WSConn.Read | framework/pkg/connector/ws_connector.go:117-138 | the bytes put into the caller's buffer, the count, failure or not, and the new reader state, a failing reader included |
| WebSocket.CallCounts | framework/pkg/connector/ws_connector.go:126-137 | a call that does not fail hands out as much as the message, the buffer and the reader allow |
| WebSocket.ReadStepConserves | framework/pkg/connector/ws_connector.go:117-138 | one call hands out the next bytes, but for what it swallows; without a fault of the reader it fails only when nothing is left |
| WebSocket.ReadRunConserves | framework/pkg/connector/ws_connector.go:117-138 | over any run, faults included, the bytes handed out, those that came with the failure, those swallowed and those left make up the payloads in order |
| WebSocket.LosslessIff | framework/pkg/connector/ws_connector.go:126-135 | bytes are swallowed exactly if the failing call gets the last bytes of the last message together with their end; a run that ended handed out everything exactly if neither that nor a fault in mid-stream ended it |
| WebSocket.EagerReaderLosesBytes | framework/pkg/connector/ws_connector.go:129-133 | two messages whose last byte never arrives |
| WebSocket.EverythingArrives | framework/pkg/connector/ws_connector.go:117-138 | with any room, and ends of messages reported on their own, enough calls hand out all payloads |
| WebSocket.TypeIsFirst | framework/pkg/connector/ws_connector.go:118-125 | the type noted stays that of the first message |
| Worker.Queue.Post | framework/pkg/worker/worker.go:27-33 | a closed worker ignores the task; an open one counts it, and then queues it, blocks at a full queue or panics at a closed channel |
| Worker.Queue.Send | framework/pkg/worker/worker.go:32 | a send that completes appends to the queue |
| Worker.Queue.Receive | framework/pkg/worker/worker.go:52 | a receive takes the oldest task, the channel closed or not |
| Worker.Queue.CompareAndSwapClosed | framework/pkg/worker/worker.go:66 | only the first caller wins |
| Worker.Queue.Start | framework/pkg/worker/worker.go:41-44 | a Start counts its goroutine before spawning it |
| Worker.Queue.Done | framework/pkg/worker/worker.go:45 | a goroutine that ends is uncounted |
| Worker.Queue.Stop | framework/pkg/worker/worker.go:65-67 | only the winning call closes the channel and goes on to wait |
| Worker.StepKeepsInv | framework/pkg/worker/worker.go:27-70 | every atomic action keeps the FIFO, the wait-group count, the slots, the tickets and the counter |
| Worker.StopDrains | framework/pkg/worker/worker.go:41-70 | when the winning Stop returns after some Start, every task sent was taken and ran to return or panic, whatever panicked, and no runner is left |
| Worker.StopDrainsIff | framework/pkg/worker/worker.go:65-70 | whenever the winning Stop can return, everything sent has ended if and only if there was a Start or nothing was sent; without one all of it is in the queue |
| Worker.StopCanReturn | framework/pkg/worker/worker.go:41-70 | from every state, whatever panics and restarts are under way, there is a way on to where Stop returns |
| Worker.AnyEndings | framework/pkg/worker/worker.go:41-59 | for every list of returns and panics a run in which one Start runs the tasks to these ends, and Stop returns |
| Worker.DrainedForEver | framework/pkg/worker/worker.go:65-70 | nothing is sent, taken or run after a drained stop |
| Worker.StopWithoutStart | framework/pkg/worker/worker.go:65-70 | for every queue length, and as many tasks as it holds, a run in which Stop returns with all of them still queued |
| Worker.RunnerCount | framework/pkg/worker/worker.go:41-59 | before the close, runners and restarts in progress equal the outside Starts; at most that many tasks run at once |
| Worker.OneStartIsSequential | framework/pkg/worker/worker.go:41-59 | one Start: one task at a time in queue order, all earlier ones ended |
| Worker.OverlapIff | framework/pkg/worker/component.go:25-27 | for every queue length and number k of Starts a run with k tasks at once; two at once are possible exactly for k of at least 2 |
| Worker.LenCounts | framework/pkg/worker/worker.go:61-63 | what Len counts in every reachable state |
| Worker.LenStaysOff | framework/pkg/worker/worker.go:27-33 | for every queue length a run that leaves Len at 1 with nothing queued and nobody running |
| Worker.CapacityIff | framework/pkg/worker/worker.go:17-25 | as many sends complete without a receive as were asked for, or 1024 |
| Worker.PostAlone | framework/pkg/worker/worker.go:27-33 | an uninterrupted Post is its steps in a row |
| Requester.CallbackTable.RegisterCallback | framework/pkg/cluster/requester.go:33-42 | a fresh mid with 32-bit wrap-around; nil gets 0 and no entry |
| Requester.CallbackTable.UnregisterCallback | framework/pkg/cluster/requester.go:43-47 | exactly that mid goes |
| Requester.CallbackTable.Answer | framework/pkg/cluster/requester.go:48-55 | the callback under the mid, which is unregistered when it returns; a mid without one changes nothing |
| Requester.RegisterKeepsInv | framework/pkg/cluster/requester.go:33-42 | registering keeps the accounting of every callback, and all pending ones in the table |
| Requester.RegisterAdds | framework/pkg/cluster/requester.go:33-42 | a registration changes no other entry |
| Requester.BeginKeepsInv | framework/pkg/cluster/requester.go:48-55 | so does starting a callback outside the lock |
| Requester.ReturnKeepsInv | framework/pkg/cluster/requester.go:51-54 | so does its return, which unregisters its mid |
| Requester.PanicKeepsInv | framework/pkg/cluster/requester.go:51-54 | so does its panic, which unregisters nothing |
| MsgHandler.MessageHandlerMgr.Register | framework/pkg/cluster/msg_handler.go:45-67 | the registry's maps and the handlers after ListenMsg or RegisterResponse, and whether it panics |
| MsgHandler.DispatchIsLast | framework/pkg/cluster/msg_handler.go:32-67 | after any registrations a message goes to the default handler exactly if none has its route, and otherwise to the last one for it that did not panic |
| MsgHandler.MessageHandlerMgr.Dispatch | framework/pkg/cluster/cluster.go:130-133 | the same of the lookup for a received message |
| Cluster.DeployIsValid | framework/pkg/cluster/msg_handler.go:57-67 | so only messages of registered response types reach callbacks |
| Cluster.StepKeepsInv | framework/pkg/cluster/cluster.go:41-154 | every step of nodes, gates and bus keeps the system invariant |
| Cluster.CallbackRuns | framework/pkg/cluster/requester.go:48-68 | under loss, duplication and reordering a callback begins at most once per runner plus once per panic |
| Cluster.CallbackTimesIff | framework/pkg/cluster/requester.go:48-55 | between any two nodes with such messages: exactly which numbers of beginnings and panics of a callback are possible, for every number of runners |
| Cluster.OneShot | framework/pkg/cluster/requester.go:32-68 | with one runner and no panic, at most once |
| Cluster.TableHoldsIff | framework/pkg/cluster/requester.go:32-55 | in every state up to 2^32 registrations the table holds exactly the callbacks that have not returned |
| Cluster.ResponseBegins | framework/pkg/cluster/msg_handler.go:57-67 | so a response that arrives can begin its callback on any idle runner |
| Cluster.NeverSentAgain | framework/pkg/cluster/requester.go:57-68 | a request that was sent or given up is never sent later |
| Cluster.PublishedPackets | framework/facade/cluster.go:59-80 | the header of everything that is published, field by field |
| Cluster.RpcCorrelation | framework/pkg/cluster/msg_handler.go:57-67 | a callback begins only with a response to a request that carried its mid, from the node it went to; up to 2^32 registrations that is the one request sent for it |
| Cluster.MidsIff | framework/pkg/cluster/requester.go:37-41 | a callback that never had a request can begin at a node after n registrations if and only if n is more than 2^32 |
| Cluster.BeginsTwiceIff | framework/pkg/cluster/requester.go:51-54 | a second beginning without a panic needs two runners; after a panic one is enough |
| Cluster.DeliveredIff | framework/pkg/xagent/agentManager.go:128-137 | when exactly the default handler hands a packet to an agent |
| Cluster.NothingAfterLeave | framework/pkg/xagent/agentManager.go:130-134 | over every run a session that has left is handed nothing more, and its uid stays |
| Cluster.GateRouting | framework/pkg/xagent/agentManager.go:128-137 | what the default handler hands to agent s carries Sid s and the Mid of a client packet the same agent forwarded from this gate, before or after its sid was unbound |
| Cluster.SidsKept | framework/facade/cluster.go:59-80 | every packet with a Sid stays tied to a forwarded one across Resp's swap of source and target |
| Cluster.BusDelivers | framework/pkg/cluster/cluster.go:119-133 | the receiver decodes the header that was published, with the message read from the cut length; exactly the packet if it fits |
| Runners.ProjectsToCluster | framework/pkg/cluster/cluster.go:134-136 | with callbacks run by the workers' goroutines, every run is one of the cluster with as many runners as outside Starts, and a disciplined one if it keeps to the response types |
| Runners.RpcOverWorkers | framework/pkg/cluster/requester.go:48-68 | so there too a callback begins with the response to its own request, and with one Start at most once without a panic |
| Runners.StartsBoundCallbacks | framework/pkg/worker/worker.go:41-59 | so a callback begins at most once per Start plus once per panic, at most once with one Start and no panic |
| Runners.StartsTight | framework/application.go:199 | and for every number k of Starts there is a run in which one response begins the callback k times without a panic |
| Runners.RpcCompletes | framework/pkg/cluster/requester.go:48-68 | a run from a request to the return of its callback, with the table empty and the runner free again |
| Agents.AgentManager.BindSID | framework/pkg/xagent/agentManager.go:36-42 | the agent is filed under its sid |
| Agents.AgentManager.BindUID | framework/pkg/xagent/agentManager.go:44-69 | the four errors in order, and both tables otherwise |
| Agents.AgentManager.Unbind | framework/pkg/xagent/agentManager.go:71-88 | the sid entry and the entry of the leaver's uid go |
| Agents.AgentManager.GetAgent | framework/pkg/xagent/agentManager.go:90-96 | the agent filed under the sid, if there is one |
| Agents.AgentManager.GetAgentWithUID | framework/pkg/xagent/agentManager.go:98-113 | finds an agent exactly through both tables |
| Agents.BindUidOkIff | framework/pkg/xagent/agentManager.go:44-69 | which binds succeed, and all that they change |
| Agents.BindUidSoundIff | framework/pkg/xagent/agentManager.go:61-66 | a bind keeps every uid entry correct exactly when the session's old uid entry is not its own |
| Agents.BindUidCompleteIff | framework/pkg/xagent/agentManager.go:61-66 | a bind, rebinding included, keeps every bound agent findable exactly when no other live session has the uid |
| Agents.UnbindEffect | framework/pkg/xagent/agentManager.go:80-81 | leaving keeps the tables sound and makes exactly the leaver's uid unfindable, even if taken over |
| Agents.UnbindKeepsComplete | framework/pkg/xagent/agentManager.go:80-81 | leaving keeps every other bound agent findable if all were |
| Agents.UnbindFoundIff | framework/pkg/xagent/agentManager.go:80-81 | a leave keeps the uids of all others findable exactly if no other live session has the leaver's uid or is found as the leaver |
| Agents.SoundThroughoutIff | framework/pkg/xagent/agentManager.go:36-88 | over any run, takeovers included, uid entries stay correct exactly if no bind leaves an old uid of its session behind |
| Agents.CompleteThroughoutIff | framework/pkg/xagent/agentManager.go:36-88 | over any run, rebinding included, bound agents stay found as themselves exactly if no bind takes a live session's uid |
| Agents.FoundThroughoutIff | framework/pkg/xagent/agentManager.go:71-113 | over any run, takeovers and rebinding included, every live agent's uid finds some agent exactly if every leave is of that kind |
| Agents.LookupOverRuns | framework/pkg/xagent/agentManager.go:98-113 | then a uid lookup is never wrong, never fails for the uid of a live agent, and gives this very agent, each under its own condition |
| Agents.UnboundForGood | framework/pkg/xagent/agentManager.go:53-56 | an unbound sid never takes a uid again |
| Agents.TakeoverLosesUid | framework/pkg/xagent/agentManager.go:80-81 | a live session whose uid is not found |
| Agents.RebindLeavesStale | framework/pkg/xagent/agentManager.go:65-66 | a session found under a uid it no longer has |
| AgentLife.Agent.Close | framework/pkg/xagent/agent.go:103-111 | the state and chDie after an uninterrupted Close |
| AgentLife.Agent.Response | framework/pkg/xagent/agent.go:264-297 | queued exactly if the agent is open and the backlog not full |
| AgentLife.Agent.ProcessPending | framework/pkg/xagent/agent.go:253-262 | the oldest pending message's frame goes to chWrite, or nowhere if it does not pack |
| AgentLife.Agent.TakeWrite | framework/pkg/xagent/agent.go:165-168 | the writer takes the oldest frame |
| AgentLife.PackedFrameIsPack | framework/pkg/xagent/agent.go:253-262 | the pipeline's frame is the one PackMessage makes, exactly where it succeeds |
| AgentLife.PipelineKept | framework/pkg/xagent/agent.go:137-171 | written, in hand, chWrite, in move and packed chPending stay equal to the packed accepted messages |
| AgentLife.QueueBounds | framework/pkg/xagent/agent.go:48-49 | over every interleaving both queues stay within the channels' capacity |
| AgentLife.CloseProtocol | framework/pkg/xagent/agent.go:103-201 | over every interleaving chDie closes at most once, and has been closed once all calls of Close on a closed agent are over; reader and writer leave no open agent behind; closeProcess runs at most once, and the pipeline never sends on a closed chWrite |
| AgentLife.CanEndIff | framework/pkg/xagent/agent.go:137-201 | an agent can come to its end, chDie closed and its sid unbound, from exactly the states whose writer does not wait at its own full queue |
| AgentLife.StuckForEver | framework/pkg/xagent/agent.go:99-101 | there it stays, and writes nothing more |
| AgentLife.CanGetStuck | framework/pkg/xagent/agent.go:253-262 | for every queue length a run that leads there |
| AgentLife.CloseAlone | framework/pkg/xagent/agent.go:103-111 | an uninterrupted Close is its steps in a row |
| AgentLife.ResponseAlone | framework/pkg/xagent/agent.go:264-287 | so is a response |
| AgentLife.ProcessAlone | framework/pkg/xagent/agent.go:253-262 | so is the writer's turn with a pending message |
| AgentLife.BindFailsAfterClose | framework/pkg/xagent/agent.go:182 | once closeProcess has unbound the sid, every later BindUID on it fails |
| AgentLife.WireIsPrefix | framework/pkg/xagent/agent.go:253-287 | the frames on the wire are those of a prefix of the accepted messages, and all of them once the queues are empty |
| AgentLife.ClientDecodesPrefix | framework/pkg/xagent/agent.go:253-287 | from any first bytes of the wire the client decodes a prefix of the accepted messages, then the failure of the connection, or at most one packet more if it ended cleanly inside a frame |
| Heartbeat.ExpiredIff | framework/pkg/xagent/agent.go:153-159 | the exact idle time at which a tick closes the agent; never up to h, always from h plus a second |
| Heartbeat.TickUntilExpired | framework/pkg/xagent/agent.go:137-171 | for any last activity, a silent client's included, the first tick that closes comes after h, and before 2h plus a second of silence unless h and a second had passed before the ticker started |
| Heartbeat.BoundIsSharp | framework/pkg/xagent/agent.go:153-159 | for every k a last activity whose first firing tick is the one after the k-th, a nanosecond short of that bound |
| Heartbeat.SampleExpiry | framework/pkg/xagent/agent.go:153-159 | one expiry in nanoseconds |
| MemberCache.DiscoveryDefault.AddMember | framework/pkg/discovery/discovery.go:82-97 | the first value stays; otherwise stored and told to every add listener in order |
| MemberCache.DiscoveryDefault.RemoveMember | framework/pkg/discovery/discovery.go:99-109 | removed and told to every remove listener in order, if it was there |
| MemberCache.DiscoveryDefault.GetMember | framework/pkg/discovery/discovery.go:69-80 | found exactly if stored and the id is not empty |
| MemberCache.DiscoveryDefault.OnAddMember | framework/pkg/discovery/discovery.go:111-116 | one more add listener, unless it is nil |
| MemberCache.DiscoveryDefault.OnRemoveMember | framework/pkg/discovery/discovery.go:118-123 | one more remove listener, unless it is nil |
| MemberCache.ListenersReproduceMap | framework/pkg/discovery/discovery.go:82-123 | folding what a pair of listeners was told gives the member map after every call |
| MemberCache.AddTellsInOrder | framework/pkg/discovery/discovery.go:82-97 | a node that comes is told to every add listener once, in order |
| MemberCache.RemoveTellsInOrder | framework/pkg/discovery/discovery.go:99-109 | and one that goes to every remove listener |
| MemberCache.HeardAlternates | framework/pkg/discovery/discovery.go:82-109 | per node the notices alternate add and remove, starting with add |
| EtcdDiscovery.RemoveAllIdentity | framework/pkg/discovery/discovery_etcd.go:183 | removing all occurrences of the prefix changes nothing exactly when there is none |
| EtcdDiscovery.RemoveAllSplits | framework/pkg/discovery/discovery_etcd.go:183 | the leftmost occurrence goes first, and the search goes on behind it |
| EtcdDiscovery.KeyRoundTrip | framework/pkg/discovery/discovery_etcd.go:132-188 | the id comes back from its key if and only if it does not contain the prefix |
| EtcdDiscovery.DeleteRemovesIff | framework/pkg/discovery/discovery_etcd.go:181-189 | a DELETE removes the registered node exactly for such ids |
| EtcdDiscovery.DeleteRemoves | framework/pkg/discovery/discovery_etcd.go:181-189 | for other ids it removes the node named by the id without the prefix, and no other |
| EtcdDiscovery.DeleteEvictsOther | framework/pkg/discovery/discovery_etcd.go:183 | for every prefix and node a second node whose DELETE leaves it and evicts the first |
| EtcdDiscovery.Etcd.Watch | framework/pkg/discovery/discovery_etcd.go:141-169 | the snapshot, then the events, replayed on the cache |
| EtcdDiscovery.CacheFollowsLog | framework/pkg/discovery/discovery_etcd.go:141-189 | after every event a node is a member exactly when its key is in the store, with the value that began its lifetime |
| EtcdDiscovery.BornUnique | framework/pkg/discovery/discovery.go:83-90 | that value is unique |
| EtcdDiscovery.OnlyValidMembers | framework/pkg/discovery/discovery_etcd.go:171-179 | no other id is ever a member |
| Gate.StepKeepsInv | framework/pkg/xagent/agent.go:118-135 | every step of a client's agent and the cluster together keeps both in reachable states, tied by what is read, forwarded, delivered, bound and unbound |
| Gate.WorkIsFree | framework/pkg/xagent/agent.go:137-201 | the tie holds no goroutine of the agent up |
| Gate.SessionIsTied | framework/pkg/xagent/agent.go:222-225 | packets are stamped with the uid in the gate's table for as long as the sid is in it |
| Gate.ForwardIsStamped | framework/pkg/xagent/agent.go:210-232 | a packet read goes to the node found from this gate, with the client's sid and its bound uid, and Mid, Route and message as they came |
| Gate.ForwardsAreDecoded | framework/pkg/xagent/agent.go:127-134 | what is forwarded for a client was decoded from the client's bytes |
| Gate.AnswerArrives | framework/pkg/xagent/agentManager.go:128-137 | a run from a client's connection over its bind and its request to the answer on its wire |
| EndToEnd.WebsocketToAgent | framework/pkg/connector/ws_connector.go:117-138 | frames cut into websocket messages anywhere reach the agent's read loop as a prefix of the packets sent, all of them exactly if the reader ended neither early nor together with the last bytes |
| EndToEnd.ClientReadsOwnAnswers | framework/pkg/xagent/agentManager.go:128-137 | from any first bytes of the wire a client decodes a prefix of what was accepted for it, all of it carrying its sid and the Mid of a packet the gate decoded from its bytes |
| EndToEnd.WebsocketRoundTrip | framework/pkg/connector/ws_connector.go:117-138 | over a websocket cut anywhere: everything a client decodes carries its sid and the Mid of a packet it sent |

## Left out

- NATS, the etcd client, leases, TLS and HTTP upgrade are external; the bus is a set of packets, etcd a snapshot and an event log, a connection a byte source.
- Protobuf unknown fields: a tag outside `MsgCommon` ends the decoding with an error here, while the library keeps the field.
- JSON, CRC-32 and protobuf reflection are library code and appear as arbitrary functions.
- `MessageType`, `MessageID`, `MessageName`, `ListByType`, `Random`, `Map`, `GetType`, `Application`, options, profile, logging and the sample handlers would only add easy members; the node a gate forwards to is arbitrary.
- `routeMgr`: routes are a fixed map; a client packet with an unknown route is simply not forwarded.
- Outside `SetState` calls and two `Start` calls on one agent are not modelled; the framework makes none.
- Packing errors of the bus, failed publishes and unknown target nodes appear as steps that do not happen, or as an abandoned request.
- A wrapped `len` counter of the worker: the model's counter is an unbounded integer.
- In `Gate.dfy` one agent's goroutines are modelled; all other clients appear as steps of the cluster.
- Data races on the callback map: a lookup outside the lock is one atomic step.
- AgentLife.WireIsPrefix: does not cover bytes from outside SendRaw or failed writes, because then the connection no longer carries the pipeline alone.
