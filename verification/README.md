# SOLDR core algorithms, modelled in Dafny

SOLDR is an endpoint detection and response system. Its agents and servers exchange packets through
a hub (vxProto), run Lua modules that a controller starts and stops, collect telemetry, and store
module configurations. This project models the algorithms behind that and proves what they promise.

Each component is a state machine with one step per section that the program runs under its mutex
(or per turn of a loop). Its steps are functions on values; the methods of the classes, which have
the program's fields and loops, are proved against these functions; the main theorems are about all
runs of the steps. A method that spans several steps, such as closing a router or one turn of the
receive loop, is tied to the steps it consists of by its contract or a lemma.

| file | component |
|---|---|
| `Router.dfy` | packet router: bounded queue beside a list of waiting receivers |
| `Hub.dfy`, `HubEffects.dfy` | hub registry: agents, routes, modules, topics, notifications |
| `Deferred.dfy` | queues of packets that cannot be delivered yet |
| `Token.dfy` | agent tokens: making and checking |
| `Framing.dfy` | websocket framing with fallback |
| `FileTransfer.dfy` | chunked file transfer |
| `Batcher.dfy` | telemetry queue, packing and trimming |
| `Sampler.dfy`, `SamplerClient.dfy` | trace sampler: what is kept, and the objects it rewrites |
| `LuaReceiver.dfy`, `Lifecycle.dfy` | receive loop and life of a loaded module |
| `Controller.dfy` | reconciliation of tracked modules with the configuration |
| `SecureConfig.dfy`, `Base64.dfy` | encryption of secure parameters |
| `ModelChecks.dfy` | validation of a module by length-plus-membership checks |
| `ConfigJson.dfy`, `KeyOrder.dfy`, `FloatNumbers.dfy`, `Digits.dfy` | JSON form of actions and events |
| `Basics.dfy`, `Texts.dfy` | shared helpers |

`dafny verify dfyconfig.toml` checks the whole project.

Outcomes of I/O and of calls into other systems (network, files that cannot be opened, Lua, storage,
upload callbacks, random draws, clocks) are parameters: every theorem holds for all of them. The block
cipher, AES-GCM, MD5 and CRC are parameters too, with the inverse laws as the only assumption.

## Where the code does less than one would expect

Each of these is the exact condition under which a property holds, for all inputs, together with an
input on which it fails.

- A starting module reads its list of agents before it is registered. It starts in step with the
  registry if and only if its agents are the same at both moments (`Hub.StartInStepIff`); an agent
  that connects in between is missed (`Hub.AgentMissed`).
- A start under a name and group that are taken is refused, and the refused socket is closed: the
  module already registered there loses its subscriptions (`HubEffects.RefusedStartIs`).
- Appends to a deferred queue, receive or send, while a pass reads it can overwrite packets not read
  yet. The pass visits what it began with if and only if each append meets its guard
  (`Deferred.PassSparedIff`); one append can be too many (`Deferred.OneAppendTooMany`).
- File parts are counted, not told apart: completion is reported on every N-th arrival
  (`FileTransfer.ReportedEveryNth`), rightly the first time if and only if no part arrived twice
  (`FileTransfer.FirstReportRightIff`, `FileTransfer.DuplicateCompletesTooEarly`). Through a topic,
  every subscriber after the first is told with every part that the file is complete
  (`FileTransfer.SecondSubscriber`).
- An unframed first message that happens to look like a frame is misread
  (`Framing.FrameOfTextMisread`): `Framing.FallbackSession` gives the outcome for both cases. Misread
  or not, no byte is lost (`Framing.NoByteLost`).
- A token attempt is rejected if and only if its first enciphered block begins with four bytes 0xff
  (`Token.RejectedIff`). For an agent or a server every attempt is the same, so that a rejected one
  is rejected for ever (`Token.FixedRandomPart`). Whether that happens under Triple-DES with the
  program's key is not decided here: `Token.NoTokenEver` has an identity cipher and a constant
  checksum, and shows only that the laws assumed of a cipher allow it.
- A module keeps one router for all its starts, and closing it twice crashes the program. That
  happens exactly when an event closes it and an earlier one did (`Lifecycle.CrashesIff`): a module
  that was stopped and started again cannot be stopped any more (`Lifecycle.RestartedCannotStop`,
  `Lifecycle.StopTwiceCrashes`). The passes of the controller stay clear of this, because they give
  every start a new state (`Controller.SController.DoSync`).
- A status write left over from an earlier start hides a running module: exactly when one comes
  (`Lifecycle.ShowsRunningIff`, `Lifecycle.LateWriteHides`). A stop of such a module is refused, and
  a start crashes the program (`Lifecycle.HiddenIsStuck`). A module whose script ended by itself
  keeps its socket in the hub when it is closed (`Lifecycle.FreedRegisteredIff`,
  `Lifecycle.EndedStaysRegistered`).
- A pass of the controller converges if and only if nothing is loaded without being tracked
  (`Controller.SController.DoSync`). A start that fails halfway leaves such a module, which no later
  pass starts (`Controller.HalfStarted`).
- Options of an action or event come back from the JSON round trip if and only if none is called "-"
  or like a known field, those that are case variants of a known field have its type, and numbers
  keep their digits (`ConfigJson.ActionRoundTripIff`, `ConfigJson.EventRoundTripIff`). In the program
  options come only from reading JSON (pkg/app/api/models/modules.go:170-174 and 324-328) and from
  merging such options (pkg/app/api/modules/modules.go:155-165), so that they keep off these names
  already (`ConfigJson.ReadOptionsFree`, `ConfigJson.MergedOptionsFree`): an option called "priority"
  never reaches the writer, and a client's key "-" is lost at the first read (`ConfigJson.DashIsLost`).
  What was read comes back exactly under the conditions left
  (`ConfigJson.ReadActionComesBackIff`, `ConfigJson.ReadEventComesBackIff`).
- Whole numbers in untyped JSON pass through float64 and may come out with other digits: below 2^54
  exactly the odd ones above 2^53 do (`FloatNumbers.SmallSurvivesIff`). In general a float64 value
  keeps its digits if and only if it ends in as many zeros as any number that reads the same
  (`FloatNumbers.FloatSurvivesIff`), which 2^63 does not (`FloatNumbers.PowerOfTwoLost`).

## What the validation of the program stops

- Parameters that read as encrypted are not encrypted (`SecureConfig.EncryptionTurnsIff`), and a nil
  value or a text such as "soldr.abcd" reads so (`SecureConfig.NilReadsEncrypted`,
  `SecureConfig.TextReadsEncrypted`). Validation refuses nil values (`required`,
  pkg/app/api/models/modules.go:43) and parameters that read as encrypted but cannot be decrypted
  (pkg/app/api/models/init.go:922-932). With it nothing stays in the clear:
  `SecureConfig.ProtectedIffValid`.
- The length-plus-membership checks alone would accept a list that names something twice
  (`ModelChecks.PassingListIsSetIff`). The tag `unique` refuses such lists; a module that passes both
  has equal sets everywhere, with no further condition: `ModelChecks.PassingModuleAgrees`.
- Options whose names match a known field in another case have effects of their own
  (`ConfigJson.CaseVariantBreaks`). Validation demands names in lower case, for which nothing is left
  of this (`ConfigJson.LowerCaseActionIff`, `ConfigJson.LowerCaseEventIff`), and priorities of at most
  100, which always keep their digits: every item that was read from JSON and passes validation comes
  back (`ConfigJson.ValidActionComesBack`, `ConfigJson.ValidEventComesBack`).

## Model

| member | source | states |
|---|---|---|
| `Router.EveryRunKeepsOrder` | pkg/vxproto/router.go:37-146 | over every run of routing, receiving, unlocking, the single steps of closing, and head reads: no open waiter wants a queued packet, and for each (source, type) the packets accepted are those that left, in order, followed by those queued: each leaves once, in routing order, by whatever exit |
| `Router.StepKeepsNoneMissed` | pkg/vxproto/router.go:37-146 | every single operation keeps "no open waiter wants a queued packet", control packets are waited for by nobody, and no blocker is listed twice |
| `Router.StepKeepsOrder` | pkg/vxproto/router.go:37-146 | every single operation keeps the order of each (source, type) |
| `Router.FirstWantedIsFirstOfKey` | pkg/vxproto/router.go:117-146 | the packet a lookup removes is the first of its own (source, type), also for a wildcard source; packets of other keys are untouched |
| `Router.BalancedHandOff` | pkg/vxproto/router.go:48-55 | a packet handed straight to a waiter overtakes no queued packet of its source and type |
| `Router.UnlockedIsPassedOver` | pkg/vxproto/router.go:77-86 | after unlock(src) no packet goes to a waiter on src; every packet goes to the longest-waiting other open waiter it suits |
| `Router.WaiterLeavesOnlyServedOrRemoved` | pkg/vxproto/router.go:37-115 | from one operation to the next a waiter stays listed unless it removes itself or is handed a packet of its own type and source while open |
| `Router.RecvRouter.RoutePacket` | pkg/vxproto/router.go:48-62 | hand-off to the first suitable waiter and its removal, else refusal when closed, else append to the queue; nothing else changes |
| `Router.RecvRouter.Drain` | pkg/vxproto/router.go:117-127 | takes every packet out of the queue, in order |
| `Router.RecvRouter.Refill` | pkg/vxproto/router.go:128-132 | puts packets back behind those in the queue, in order |
| `Router.RecvRouter.LookupPacket` | pkg/vxproto/router.go:117-146 | drain, removal of the first match and refill leave the queue without exactly that packet; without a match the queue is as before |
| `Router.RecvRouter.AddBlocker` | pkg/vxproto/router.go:95-103 | searches the queue first; only without a match the blocker joins the end of the list |
| `Router.RecvRouter.DelBlocker` | pkg/vxproto/router.go:105-115 | removes the blocker where it is listed, else changes nothing |
| `Router.RecvRouter.UnlockSrc` | pkg/vxproto/router.go:77-86 | closes exactly the listed blockers on that source, each once |
| `Router.RecvRouter.UnlockEvery` | pkg/vxproto/router.go:88-95 | closes every listed blocker, each once |
| `Router.RecvRouter.CloseRouter` | pkg/vxproto/router.go:65-75 | a close that nothing interrupts: all blockers closed, the router down, the queue emptied |
| `Router.CloseIsSteps` | pkg/vxproto/router.go:65-75 | that close is a run of steps, of which only the unlocking holds the mutex: unlock everything, go down, drop the queued packets one by one |
| `Framing.LittleEndianRoundTrip` | pkg/vxproto/ws.go:209-231 | the four length bytes read back as the length modulo 2^32 |
| `Framing.FrameReadBack` | pkg/vxproto/ws.go:122-151 | a frame, whatever follows it in the buffer, reads back as its payload and leaves the rest, if and only if the payload is shorter than 2^32 bytes |
| `Framing.ConcatenatedFrames` | pkg/vxproto/ws.go:122-151 | one message with any concatenation of n frames is read as exactly those n payloads and leaves no buffer |
| `Framing.FramedSession` | pkg/vxproto/ws.go:122-151 | two endpoints that start framing stay framing in every interleaving of writes and reads; each side has read a prefix of what the other wrote and the rest is on the way, frame by frame |
| `Framing.FramedStep` | pkg/vxproto/ws.go:122-231 | one read or write keeps both directions in step |
| `Framing.FallbackSession` | pkg/vxproto/ws.go:122-145 | against an unframed peer: if its first message does not look framed, everything is read as written and the reader falls back with its first read; if it does, the first payload read already differs |
| `Framing.FrameOfTextMisread` | pkg/vxproto/ws.go:126-151 | an input that is misread: the first message of the peer is itself the frame of some text; the endpoint hands over the text and goes on framing |
| `Framing.NoByteLost` | pkg/vxproto/ws.go:78-152 | against an unframed peer, whatever it writes and however much of that is misread, in every interleaving: what arrived, joined, is the frames of what was handed over while framing, then what was handed over since, then what is still held; no byte is lost, doubled or moved |
| `Framing.RawPeerReadsIff` | pkg/vxproto/ws.go:180-233 | and what the unframed peer reads in turn is a payload as written if and only if the writer had fallen back by then, else its whole frame |
| `Framing.FallbackIsSticky` | pkg/vxproto/ws.go:122-125 | once in the original mode, an endpoint never frames again |
| `Framing.WsConnection.Read` | pkg/vxproto/ws.go:78-152 | a read from the buffer or the next message yields the data, new buffer and mode of the session step; a failing or closed connection delivers nothing and keeps the mode |
| `Framing.WsConnection.Write` | pkg/vxproto/ws.go:180-233 | writes one message, framed or not by mode; a failure closes the connection and sends nothing |
| `Batcher.BatchIsLongest` | pkg/observability/client.go:96-106 | the batch built by the loop is the longest non-empty prefix within the limit: it fits and every longer prefix does not |
| `Batcher.BatchesSplit` | pkg/observability/client.go:96-109 | the batches, joined, are the queue, and each is within PacketSizeLimit or a single item |
| `Batcher.GreedyStaysAhead` | pkg/observability/client.go:96-109 | packing a later tail never needs more batches than any split of an earlier one |
| `Batcher.GreedyIsOptimal` | pkg/observability/client.go:96-109 | no split into consecutive batches under the same rule uses fewer batches |
| `Batcher.KeepsLongestTail` | pkg/observability/client.go:63-72 | trimming keeps the longest suffix that fits QueueSizeLimit |
| `Batcher.Successes` | pkg/observability/client.go:83-95 | number of uploads that succeed before the first failure |
| `Batcher.FlushConserves` | pkg/observability/client.go:58-110 | a flush gives every queued item exactly one fate: uploaded, trimmed or still queued, oldest first |
| `Batcher.FlushSendsAll` | pkg/observability/client.go:78-109 | when every upload succeeds the queue is emptied with the fewest batches |
| `Batcher.FlushKeepsLongestTail` | pkg/observability/client.go:63-72 | after a flush of a non-empty queue, with any failures, what stays is the longest suffix of the unsent items within QueueSizeLimit |
| `Batcher.EveryRunConserves` | pkg/observability/client.go:58-142 | over every run of enqueue, flush, stop and start with any failures: items submitted = items processed, then queue, then channel; a stopped client has an empty channel |
| `Batcher.StopLeavesNothing` | pkg/observability/client.go:176-192 | stopping with a callback that succeeds leaves nothing unprocessed |
| `Batcher.HookClient.TrimQueue` | pkg/observability/client.go:63-72 | the backwards loop cuts the queue to that suffix |
| `Batcher.HookClient.FlushQueue` | pkg/observability/client.go:58-110 | the uploaded batches and the queue left, including no callback and an empty queue |
| `Batcher.HookClient.UploadQueue` | pkg/observability/client.go:78-109 | the loop uploads the batches of the split one by one up to the first failure; the queue left is the rest of the split |
| `Batcher.HookClient.Enqueue` | pkg/observability/client.go:195-211 | a running client puts the item into the channel, a stopped one refuses |
| `Batcher.HookClient.ReadAllUploads` | pkg/observability/client.go:116-121 | moves the whole channel behind the queue, in order |
| `Batcher.HookClient.Stop` | pkg/observability/client.go:176-192 | drains, flushes and stops, once |
| `Batcher.HookClient.Start` | pkg/observability/client.go:160-173 | starts a stopped client only |
| `Sampler.ChainIsShort` | pkg/observability/trace.go:393-418 | in an acyclic batch a chain of parents visits each span at most once |
| `Sampler.ParentRank` | pkg/observability/trace.go:393-405 | a span ranks one above its parent: the rank on which both recursions end |
| `Sampler.KeptIffWanted` | pkg/observability/trace.go:393-418 | the two searches keep a span if and only if it, an ancestor present in the batch, or a descendant has an event or link |
| `Sampler.SurvivorsAre` | pkg/observability/trace.go:447-457 | the kept spans are exactly the wanted ones |
| `Sampler.DataSurvives` | pkg/observability/trace.go:447-457 | no span with an event or link is lost |
| `Sampler.WalkSurvives` | pkg/observability/trace.go:447-457 | every span on the way between a kept span and its data is kept |
| `Sampler.SamplingIsIdempotent` | pkg/observability/trace.go:447-457 | the result is a forest again and sampling it once more changes nothing |
| `Sampler.LiveLibrariesFixed` | pkg/observability/trace.go:442-463 | sampling the libraries left again changes nothing |
| `Sampler.LiveResourcesFixed` | pkg/observability/trace.go:431-477 | sampling what was sent again sends the same |
| `Sampler.BuildSpansIndex` | pkg/observability/trace.go:420-428 | the index maps ids to spans, the parent index lists each span under its parent |
| `Sampler.IsKept` | pkg/observability/trace.go:450-456 | keep if and only if wanted |
| `Sampler.SampleSpans` | pkg/observability/trace.go:447-457 | the kept spans, in input order |
| `SamplerClient.SampleOne` | pkg/observability/trace.go:447-457 | the span list of a library is replaced in place; one sampled before stays as it is |
| `SamplerClient.SampleLibs` | pkg/observability/trace.go:439-463 | every library listed, also one listed twice, ends with its kept spans; those left with spans are returned in order, nil entries skipped |
| `SamplerClient.SampleResource` | pkg/observability/trace.go:435-469 | a resource takes over the libraries left, or keeps its list when none is left |
| `SamplerClient.UploadTraces` | pkg/observability/trace.go:431-477 | the whole upload on the objects of the caller: every library is rewritten to its kept spans, what is passed on are the resources and libraries with spans left, in order, and nothing is sent when none is left |
| `FileTransfer.SendFile` | pkg/vxproto/module.go:214-300 | what is sent: parts of the data in memory, or, when there is none and a path is given, of the file as each read finds it, up to the first read or send that fails; an empty file is one empty part; nothing without a random value or when the path cannot be opened |
| `FileTransfer.SendParts` | pkg/vxproto/module.go:221-248 | the loop: consecutive slices with labels hash:cur:total, up to the first read or send that fails; success if and only if none does |
| `FileTransfer.SentFromPathIff` | pkg/vxproto/module.go:283-297 | from a path a part is that of the file as it was when opened if and only if its bytes are still there when it is read |
| `FileTransfer.LabelSplit` | pkg/vxproto/module.go:363 | splitting undoes the label |
| `FileTransfer.UnmarshalMarshal` | pkg/vxproto/module.go:313-326 | the list in the meta file reads back |
| `FileTransfer.MarshalGrows` | pkg/vxproto/module.go:323-332 | each serialisation is longer than the one it overwrites |
| `FileTransfer.RewrittenWhole` | pkg/vxproto/module.go:327-332 | so rewriting the meta file in place leaves no stale bytes |
| `FileTransfer.MetaRewritten` | pkg/vxproto/module.go:302-349 | one update adds the chunk to the list, or removes the meta file with verdict true when the count reaches the total |
| `FileTransfer.DeliverIs` | pkg/vxproto/module.go:351-403 | what the arrival of one part does to the directory, the packet and the verdict |
| `FileTransfer.DeliverStores` | pkg/vxproto/module.go:351-403 | one arrival keeps "the file holds the parts arrived, the meta file those counted", is true exactly when the count reaches the total, and touches no other file |
| `FileTransfer.EveryStreamStored` | pkg/vxproto/module.go:351-403 | after any arrivals of any number of streams, in any order and with any repetitions, each stream holds exactly what its own arrivals account for |
| `FileTransfer.ReportedEveryNth` | pkg/vxproto/module.go:338-348 | whatever arrives, completion is reported on every N-th arrival of a stream of N parts and on no other |
| `FileTransfer.FirstReportRightIff` | pkg/vxproto/module.go:338-348 | the first report comes with the N-th arrival, and all parts are there if and only if no part arrived twice |
| `FileTransfer.CompleteOnLastArrival` | pkg/vxproto/module.go:351-403 | in any order and interleaving, each part once: the verdict is true on the last-arriving part of its stream and on no other |
| `FileTransfer.FileReassembled` | pkg/vxproto/module.go:351-403 | once all parts arrived, even repeatedly, the file equals the data; the meta file is gone if and only if N divides the number of arrivals |
| `FileTransfer.DuplicateCompletesTooEarly` | pkg/vxproto/module.go:342-347 | an input on which the first report is wrong: of two parts the first arrives twice |
| `FileTransfer.SecondSubscriber` | pkg/vxproto/module.go:364-369 | the packet a second subscriber of a topic sees is always reported complete; the first one was told so on every N-th arrival only |
| `FileTransfer.FileStore.UpdateMetaFile` | pkg/vxproto/module.go:302-349 | open or create, read, append, write at offset 0, and remove when complete, with the error cases |
| `FileTransfer.FilePacket.ParseFileStream` | pkg/vxproto/module.go:351-403 | directory, packet fields and verdict after one packet of any form, well-formed or not |
| `Deferred.DeferAllKeepsNewest` | pkg/vxproto/proto.go:1226-1236 | appends with eviction keep the newest 5000 packets in order |
| `Deferred.SendPassStaysInItsQueue` | pkg/vxproto/proto.go:317-330 | a pass over the send queue defers nothing to the receive queue |
| `Deferred.PacketQueue.Append` | pkg/vxproto/proto.go:1226-1236 | append to a slice: in place behind it while the array lasts, else moved to a new array; a full queue loses its oldest packet |
| `Deferred.DeferredQueues.Redeliver` | pkg/vxproto/proto.go:1201-1256 | one packet of the pass: deferred again, sent, handed over or dropped; nothing behind the write index changes |
| `Deferred.DeferredQueues.RedeliverNext` | pkg/vxproto/proto.go:308-313 | the write index never passes the read index, so every packet is read as it was |
| `Deferred.DeferredQueues.ResendNext` | pkg/vxproto/proto.go:323-328 | the same for the send queue |
| `Deferred.DeferredQueues.DrainReceived` | pkg/vxproto/proto.go:302-315 | one pass visits each packet once in order and leaves exactly the unexpired packets deferred again, in order, although it refills the array it reads; those that now have a route but no agent join the send queue |
| `Deferred.PacketQueue.AppendAmid` | pkg/vxproto/proto.go:1226-1236 | an append in the middle of a pass leaves the unread packets alone if and only if the slice is still shorter than what was read, or it writes what the next packet is anyway |
| `Deferred.DeferredQueues.DrainReceivedAmid` | pkg/vxproto/proto.go:302-315 | a receive pass with any appends to its queue between its reads: the packets it sees, and both queues afterwards |
| `Deferred.DeferredQueues.DrainSentAmid` | pkg/vxproto/proto.go:317-330 | a send pass with any appends to its queue between its reads, such as those of receive passes (lines 1218 and 1284): the packets it sees, and both queues afterwards |
| `Deferred.PassSparedIff` | pkg/vxproto/proto.go:302-330 | a pass over either queue visits exactly the packets it began with if and only if each append, its own included, met its guard: it landed on an entry already read, or behind them all, or wrote what was there |
| `Deferred.OneAppendTooMany` | pkg/vxproto/proto.go:302-330 | for either queue an input on which it does not: one append before the first read takes the place of the first packet |
| `Deferred.DeferredQueues.Resend` | pkg/vxproto/proto.go:1260-1308 | one packet of the send pass |
| `Deferred.DeferredQueues.DrainSent` | pkg/vxproto/proto.go:317-330 | the same for the send queue; the receive queue is untouched |
| `Hub.EveryRunConsistent` | pkg/vxproto/proto.go:559-658 | over every run, starts being two steps, with the agents of a starting module unchanged in between: routes point to registered agents, no inner module map is empty, every topic has a non-empty duplicate-free list, tokens match their modules, and every module's list of agents, after its pending messages, is the registry |
| `Hub.CaughtUpModuleKnowsItsAgents` | pkg/vxproto/proto.go:721-738 | a module that has processed its control messages lists exactly the registered agents whose group matches |
| `Hub.StepConsistent` | pkg/vxproto/proto.go:559-658 | every operation keeps the invariant |
| `Hub.RosterConnect` | pkg/vxproto/proto.go:1312-1351 | one agent coming, seen by one module |
| `Hub.RosterDisconnect` | pkg/vxproto/proto.go:1353-1391 | one agent going, seen by one module |
| `Hub.AddAgentConsistent` | pkg/vxproto/proto.go:1123-1136 | registering an agent keeps the invariant |
| `Hub.DelAgentConsistent` | pkg/vxproto/proto.go:1146-1167 | removing one keeps it |
| `Hub.MoveOneConsistent` | pkg/vxproto/proto.go:721-738 | moving one to another group keeps it: leaving with the old group, coming with the new |
| `Hub.StartInStepIff` | pkg/loader/module.go:42-58 | after any run in which a module has read its list, registering it leaves all lists in step with the registry if and only if the agents of its group are what they were when it read them |
| `Hub.AgentMissed` | pkg/loader/module.go:42-58 | an input on which they are not: an agent connects between the reading and the registration |
| `Hub.ListInStepIff` | pkg/loader/module.go:42-51 | a list read earlier is right if and only if the agents of the group are still the same |
| `Hub.AddModuleConsistent` | pkg/vxproto/proto.go:559-581 | registering a module with a correct list keeps the invariant |
| `Hub.DelModuleConsistent` | pkg/vxproto/proto.go:583-606 | a stopped module is gone and its token is in no topic |
| `Hub.WithoutRemoves` | pkg/vxproto/proto.go:985-1002 | removing the first occurrence removes the token, the lists being duplicate-free |
| `Hub.SubscribeRefines` | pkg/vxproto/proto.go:914-936 | subscribing adds one pair to the (topic, token) relation |
| `Hub.UnsubscribeRefines` | pkg/vxproto/proto.go:939-965 | unsubscribing removes one pair |
| `Hub.UnsubscribeAllConsistent` | pkg/vxproto/proto.go:982-1002 | unsubscribe-all removes the token everywhere and nothing else |
| `Hub.RouteConsistent` | pkg/vxproto/proto.go:629-658 | adding and deleting routes keeps the invariant |
| `Hub.VxProto.NotifyModules` | pkg/vxproto/proto.go:1312-1391 | every module of a matching group gets the message, no other does |
| `Hub.VxProto.AddAgentSocket` | pkg/vxproto/proto.go:1111-1136 | tables and notifications after an agent is added; refused when closed or known |
| `Hub.VxProto.DelAgentSocket` | pkg/vxproto/proto.go:1138-1167 | tables and notifications after it is deleted |
| `Hub.VxProto.DropRoutes` | pkg/vxproto/proto.go:1148-1156 | all routes of the agent and no others |
| `Hub.VxProto.DropAgents` | pkg/vxproto/proto.go:698-717 | every agent of the id, in some order |
| `Hub.VxProto.MoveAgentsTo` | pkg/vxproto/proto.go:721-738 | every agent of the id that is in another group, in some order |
| `Hub.VxProto.AddRouteTo` | pkg/vxproto/proto.go:629-644 | new routes to registered agents only |
| `Hub.VxProto.DelRouteTo` | pkg/vxproto/proto.go:647-658 | known routes only |
| `Hub.VxProto.AgentsFor` | pkg/loader/module.go:42-51 | the list a starting module gets |
| `Hub.VxProto.AddModuleSocket` | pkg/vxproto/proto.go:559-581 | the two-level index after a start |
| `Hub.VxProto.RegisterModule` | pkg/loader/module.go:53-57 | the second half of a start: registered, or refused and then closed, which unsubscribes its token |
| `Hub.VxProto.DelModuleSocket` | pkg/vxproto/proto.go:583-606 | and after a stop, with its subscriptions |
| `Hub.VxProto.SubscribeToTopic` | pkg/vxproto/proto.go:914-936 | topics after a subscription |
| `Hub.VxProto.UnsubscribeFromTopic` | pkg/vxproto/proto.go:939-965 | topics after one is taken back |
| `Hub.VxProto.UnsubscribeFromAllTopics` | pkg/vxproto/proto.go:982-1002 | topics after all of a token are |
| `HubEffects.AgentComesAndGoes` | pkg/vxproto/proto.go:1123-1167 | an agent that comes and goes leaves agents, routes and topics as they were; each matching module was told of both, in order |
| `HubEffects.DropAgentIs` | pkg/vxproto/proto.go:698-717 | whatever the order: exactly the agents of that id and the routes to them are gone |
| `HubEffects.MoveAgentIs` | pkg/vxproto/proto.go:721-738 | whatever the order: exactly the agents of that id are in the group, routes and topics unchanged |
| `HubEffects.HubCloseIs` | pkg/vxproto/proto.go:333-360 | a closed hub has no agents and no routes |
| `HubEffects.RouteComesAndGoes` | pkg/vxproto/proto.go:629-658 | deleting a route undoes adding it |
| `HubEffects.ModuleComesAndGoes` | pkg/vxproto/proto.go:559-606 | stopping a module undoes starting it, if and only if its token was subscribed to no topic before |
| `HubEffects.RefusedStartIs` | pkg/loader/module.go:53-56 | a start under a name and group that are taken: the tables stay, the module registered there loses all its subscriptions and nothing else does; nothing changes at all if and only if it had none |
| `HubEffects.DeliveredToOneWhoKnows` | pkg/vxproto/proto.go:1220-1256 | after any run: a packet from a registered agent, handed to a module that has processed its control messages, reaches one that has this very agent on its list |
| `Token.DecodeEncodeHex` | pkg/vxproto/proto.go:843-844 | hex decoding undoes encoding |
| `Token.DecryptEncryptCbc` | pkg/vxproto/proto.go:766-773 | CBC decryption undoes encryption for any invertible block cipher (section 6.2 of NIST SP 800-38A) |
| `Token.TokenForValid` | pkg/vxproto/proto.go:751-810 | a token made for (id, type) is lower-case hex, and both checkers accept it |
| `Token.NewTokenValid` | pkg/vxproto/proto.go:813-851 | every token returned has 40 hex digits, is not in module-token format and is accepted for the same (id, type) |
| `Token.FixedRandomPart` | pkg/vxproto/proto.go:813-851 | for agents and servers every draw gives the same token: a rejected one is rejected for ever |
| `Token.RejectedIff` | pkg/vxproto/proto.go:813-851 | an attempt is rejected if and only if the first enciphered block, which depends on the random part and the key alone, begins with four bytes 0xff |
| `Token.NoTokenEver` | pkg/vxproto/proto.go:813-851 | nothing assumed of ciphers and checksums rules that out: with an identity cipher and a constant checksum, which are none of the program, no agent ever gets a token |
| `Token.FirstGoodDraw` | pkg/vxproto/proto.go:813-851 | for the other types a token is returned if and only if some draw gives an acceptable one |
| `Base64.DecodeEncode` | pkg/crypto/dbencryptor.go:64-75 | base64 decoding undoes encoding (section 4 of RFC 4648) |
| `SecureConfig.ValueRoundTrip` | pkg/crypto/dbencryptor.go:30-75 | an encrypted value is recognised and decrypts to what it was |
| `SecureConfig.ParamRoundTrip` | pkg/app/api/models/modules.go:698-752 | one parameter: value restored, ServerOnly kept |
| `SecureConfig.EncryptedReads` | pkg/app/api/models/modules.go:698-776 | after encryption every value is a recognised string and the map reads as encrypted |
| `SecureConfig.SecretsRoundTrip` | pkg/app/api/models/modules.go:909-934 | for parameters that do not read as encrypted: encryption followed by decryption restores every value and flag of both maps |
| `SecureConfig.EncryptionTurnsIff` | pkg/app/api/models/modules.go:909-923 | a successful call has encrypted every parameter of both maps if and only if neither map read as encrypted |
| `SecureConfig.NilReadsEncrypted` | pkg/app/api/models/modules.go:754-776 | first input with which nothing is encrypted: a nil value alone makes its map read as encrypted |
| `SecureConfig.TextReadsEncrypted` | pkg/app/api/models/modules.go:754-776 | second input: a text that looks like an encrypted one |
| `SecureConfig.ProtectedIffValid` | pkg/app/api/models/init.go:922-932 | for parameters without nil values, after encryption every value opens under the key if and only if the parameters pass the validation of the module |
| `SecureConfig.ValidationKeepsSecrets` | pkg/app/api/models/init.go:922-983 | validation, which decrypts and encrypts again, leaves encrypted parameters encrypted, with the same contents |
| `SecureConfig.EncryptionIdempotent` | pkg/app/api/models/modules.go:909-923 | encrypting again changes nothing |
| `SecureConfig.RewriteConfig` | pkg/app/api/models/modules.go:698-752 | the loop over a map succeeds if and only if every value can be turned, and then turns all of them; on failure some are turned and the others as before |
| `SecureConfig.ModuleA.EncryptSecureParameters` | pkg/app/api/models/modules.go:914-923 | both maps encrypted, or skipped when they read as encrypted |
| `SecureConfig.ModuleA.DecryptSecureParameters` | pkg/app/api/models/modules.go:925-934 | both maps decrypted, and exactly when that succeeds |
| `LuaReceiver.EveryRunAcksOnce` | pkg/lua/module.go:1275-1372 | for every interleaving of sends and receives with the loop: only the packet in hand may lack its acknowledgement |
| `LuaReceiver.NothingOwedBetweenPackets` | pkg/lua/module.go:1298-1372 | no packet is acknowledged twice, and whenever the loop waits or has returned each packet was acknowledged exactly once |
| `LuaReceiver.EarlyAckIff` | pkg/lua/module.go:396-404 | a packet is acknowledged before its callback ends if and only if the script sent something to its source in the meantime, or waited to receive from it or from anyone (lines 979-1117) |
| `LuaReceiver.LuaModule.Release` | pkg/lua/module.go:1275-1284 | the packet held is acknowledged, once, and forgotten |
| `LuaReceiver.LuaModule.TakeNextPacket` | pkg/lua/module.go:1310-1327 | a packet is taken: the step of the machine |
| `LuaReceiver.LuaModule.TryPacketUnlock` | pkg/lua/module.go:396-404 | a send or a receive by the script: the step of the machine |
| `LuaReceiver.LuaModule.Dispatch` | pkg/lua/module.go:1336-1364 | the callback and the list of agents: a series of such steps |
| `LuaReceiver.LuaModule.HandlePacket` | pkg/lua/module.go:1320-1371 | one turn is the steps take, sends and receives, done (or take, stop); the list of agents updated, an end on the stop message |
| `LuaReceiver.Packet.SetAck` | pkg/vxproto/structs.go:377-383 | one acknowledgement fills the one-slot channel |
| `Lifecycle.EveryRunSane` | pkg/loader/module.go:122-189 | in every interleaving with late status writes: loaded, running, stopped or freed; running implies registered; freed implies nothing pending |
| `Lifecycle.FreedIsTerminal` | pkg/loader/module.go:167-189 | a freed module stays freed, because closing waits for every pending write |
| `Lifecycle.ShowsRunningIff` | pkg/loader/module.go:122-145 | while the script of the last start still runs, the module shows as running if and only if no goroutine of an earlier start has written its status since |
| `Lifecycle.LateWriteHides` | pkg/loader/module.go:122-145 | an input on which it does not: started, stopped and started again before the first goroutine got to write |
| `Lifecycle.HiddenIsStuck` | pkg/loader/module.go:122-165 | a module hidden in this way: a stop is refused and a start crashes the program, whatever the hub says |
| `Lifecycle.CrashesIff` | pkg/loader/module.go:37-74 | in every run an event closes the channel of the module's router a second time, and so crashes the program, if and only if it closes it (a start that the hub refuses, a stop or close of a running module that the hub lets go) and an earlier event of the run did |
| `Lifecycle.RestartedCannotStop` | pkg/loader/module.go:147-189 | a running module that was stopped before crashes the program as soon as the hub lets it go |
| `Lifecycle.StopTwiceCrashes` | pkg/vxproto/proto.go:583-606 | the shortest such run: start, stop, start, stop |
| `Lifecycle.FreedRegisteredIff` | pkg/loader/module.go:167-189 | a freed module leaves its socket in the hub if and only if its script had ended by itself, or a late write had come, before it was closed |
| `Lifecycle.EndedStaysRegistered` | pkg/loader/module.go:167-189 | an input on which it does: started, script over, closed |
| `Lifecycle.ModuleState.CloseRouter` | pkg/vxproto/router.go:65-75 | the close of the control channel, which the program survives once |
| `Lifecycle.ModuleState.StartState` | pkg/loader/module.go:122-145 | status, pending writes, registration and router after a start, accepted or refused |
| `Lifecycle.ModuleState.GoroutineEnds` | pkg/loader/module.go:132-136 | the status write of the last start, or of an earlier one |
| `Lifecycle.ModuleState.StopState` | pkg/loader/module.go:147-165 | after a stop, the second close of the router included |
| `Lifecycle.ModuleState.CloseState` | pkg/loader/module.go:167-189 | after closing, pending writes and the second close of the router included |
| `Lifecycle.Loader.Add` | pkg/loader/loader.go:44-55 | adds under a new id only |
| `Lifecycle.Loader.Del` | pkg/loader/loader.go:57-71 | removes a module only when it could be closed |
| `Lifecycle.Loader.StartById` | pkg/loader/loader.go:95-105 | starts a known module only |
| `Lifecycle.Loader.StopById` | pkg/loader/loader.go:121-131 | stops a known module only |
| `Controller.SController.DoSync` | pkg/controller/controller.go:767-779 | when everything works and tracked modules run: tracked and loaded ids equal the configured ones and all run with matching version fields and LastUpdate, if and only if nothing was loaded without being tracked; a second pass on the same configuration does nothing; under any failures the tracked ids stay distinct, loader states sane, no module runs on a closed router, so that no pass crashes the program, and what is loaded but not tracked is left alone |
| `Controller.HalfStarted` | pkg/controller/controller.go:490-508 | an input with such a leftover: a start that fails after the loader has taken its state stays loaded and untracked, and later passes never start it |
| `Controller.SController.CheckUpdateModules` | pkg/controller/controller.go:679-748 | tracked modules end up to date, same ids; nothing happens when they were |
| `Controller.SController.CheckStopModules` | pkg/controller/controller.go:630-677 | exactly the modules no longer configured go |
| `Controller.SController.CheckStartModules` | pkg/controller/controller.go:578-628 | exactly the untracked, unloaded configurations come |
| `Controller.ReconfiguredAllIs` | pkg/controller/controller.go:718-741 | each tracked module ends with the configuration of its id, if there is one |
| `Controller.ReconfiguredUpToDate` | pkg/controller/controller.go:696-741 | after both rounds every tracked module has the wanted version fields and LastUpdate |
| `Controller.UpToDateWantsNothing` | pkg/controller/controller.go:696-708 | a module up to date is in neither list |
| `Controller.UnwantedIds` | pkg/controller/controller.go:630-645 | what is to be stopped: the tracked ids that are not configured |
| `Controller.MissingIds` | pkg/controller/controller.go:578-593 | what is to be started: the configured ids that are not tracked |
| `Controller.AppendedUpToDate` | pkg/controller/controller.go:607-621 | modules just started are up to date |
| `Controller.SpliceDistinct` | pkg/controller/controller.go:665-667 | removing a module by splicing keeps ids distinct and the others in place |
| `Controller.SController.ChangedConfigs` | pkg/controller/controller.go:696-708 | the two lists of changed configurations |
| `Controller.SController.MissingConfigs` | pkg/controller/controller.go:581-593 | the list of new configurations |
| `Controller.SController.UnwantedConfigs` | pkg/controller/controller.go:633-645 | the list of configurations no longer wanted |
| `Controller.SController.FindTracked` | pkg/controller/controller.go:720-722 | the first tracked module with that id |
| `Controller.SController.StartOne` | pkg/controller/controller.go:490-508 | one start: on success loaded and running; on failure loaded if and only if the state could be made; other modules untouched |
| `Controller.SController.StopOne` | pkg/controller/controller.go:511-531 | one stop: on success gone from the loader; a module not loaded is no error |
| `Controller.SController.UpdateOne` | pkg/controller/controller.go:534-544 | stop then start |
| `Controller.SController.UpdateVersion` | pkg/controller/controller.go:718-729 | the tracked entry is replaced even when the restart fails |
| `Controller.SController.UpdateConfig` | pkg/controller/controller.go:731-741 | the configuration is replaced without a restart, or not at all |
| `Controller.SController.StopTracked` | pkg/controller/controller.go:652-670 | a stopped module is no longer tracked; one not loaded, or not stopped, still is |
| `Controller.SController.StartTracked` | pkg/controller/controller.go:608-621 | tracked if and only if it was started; one already loaded is passed over |
| `ModelChecks.PassingListIsSetIff` | pkg/app/api/models/modules.go:560-563 | why the lists carry the tag "unique": one that passes a length-plus-membership check names exactly the keys if and only if it has no duplicates |
| `ModelChecks.DuplicateMeansSmaller` | pkg/app/api/models/modules.go:560-563 | a list with a duplicate puts fewer keys into a map than it is long, which is what the tag "unique" compares |
| `ModelChecks.PassingModuleAgrees` | pkg/app/api/models/init.go:994-1023 | a module without reports: tags, fields, actions and events are the same sets wherever they are listed, and its dependencies are the modules acted on |
| `ModelChecks.UniqueReports` | pkg/app/api/models/modules.go:560-563 | no report if and only if the list has no duplicates |
| `ModelChecks.UniqueInModule` | pkg/app/api/models/modules.go:560-563 | no report if and only if all lists of ids of the module, of its actions and of its events are without duplicates |
| `ModelChecks.ModuleReports` | pkg/app/api/models/init.go:1010-1023 | no report if and only if the module passes all of it |
| `ModelChecks.FieldSetsAgree` | pkg/app/api/models/init.go:403-493 | fields that pass: info, schema, locale and the union of used fields are the same set |
| `ModelChecks.ActionSetsAgree` | pkg/app/api/models/init.go:495-589 | actions that pass: info, locale, default, current and schema are the same set, and the options of both configurations are the localised ones |
| `ModelChecks.EventSetsAgree` | pkg/app/api/models/init.go:718-799 | events that pass: info, locale, default and current are the same set, with the same options |
| `ModelChecks.DependenciesAgree` | pkg/app/api/models/init.go:621-717 | to_make_action dependencies are exactly the modules named in actions of current events, "this" aside; the module itself is not among them |
| `ModelChecks.GroupingIsFields` | pkg/app/api/models/init.go:655-685 | in a passing module every event that is not atomic groups by exactly its fields |
| `ModelChecks.BinaryInfoReports` | pkg/app/api/models/init.go:343-362 | no report if and only if files are listed once, agree with the checksums in number and every file has one |
| `ModelChecks.TagReports` | pkg/app/api/models/init.go:387-401 | no report if and only if tags and localised tags agree |
| `ModelChecks.FieldReports` | pkg/app/api/models/init.go:403-493 | no report if and only if all field conditions hold |
| `ModelChecks.RequiredReports` | pkg/app/api/models/init.go:431-438 | no report if and only if all required fields are listed |
| `ModelChecks.SchemaReports` | pkg/app/api/models/init.go:403-428 | no report if and only if schema, info and locale agree |
| `ModelChecks.UsedFieldReports` | pkg/app/api/models/init.go:475-492 | no report if and only if schema and used fields agree and "info" is not used |
| `ModelChecks.ActionFieldReports` | pkg/app/api/models/init.go:443-456 | the fields used by actions, and whether required ones are missing |
| `ModelChecks.EventFieldReports` | pkg/app/api/models/init.go:457-474 | the fields used by events; required ones only for atomic events |
| `ModelChecks.ActionItemReports` | pkg/app/api/models/init.go:526-587 | one action of one configuration |
| `ModelChecks.ActionReports` | pkg/app/api/models/init.go:495-619 | no report if and only if all action conditions hold |
| `ModelChecks.EventActionReports` | pkg/app/api/models/init.go:637-654 | the actions of one event |
| `ModelChecks.GroupByReports` | pkg/app/api/models/init.go:655-685 | the grouping of one event |
| `ModelChecks.SeqReports` | pkg/app/api/models/init.go:686-698 | the sequence of one event |
| `ModelChecks.EventItemReports` | pkg/app/api/models/init.go:739-768 | one event of one configuration |
| `ModelChecks.DependencyReports` | pkg/app/api/models/init.go:709-717 | no report if and only if every such dependency is used |
| `ModelChecks.EventReports` | pkg/app/api/models/init.go:621-830 | no report if and only if all event conditions hold |
| `FloatNumbers.FloatTwice` | pkg/app/api/models/modules.go:143-146 | a whole number read as a float64 reads as itself again |
| `FloatNumbers.FloatMono` | pkg/app/api/models/modules.go:143-146 | reading keeps the order of numbers |
| `FloatNumbers.ReprintIs` | pkg/app/api/models/modules.go:143-146 | what is written is, of all multiples of the highest power of ten that has one reading the same, one found nearest to the value |
| `FloatNumbers.ReprintTwice` | pkg/app/api/models/modules.go:143-146 | a second pass through untyped JSON changes no number further |
| `FloatNumbers.SmallSurvivesIff` | pkg/app/api/models/modules.go:143-146 | below 2^54 a number keeps its digits if and only if it is at most 2^53 or even |
| `FloatNumbers.FloatSurvivesIff` | pkg/app/api/models/modules.go:143-146 | a float64 value keeps its digits if and only if it ends in as many zeros as any number that reads the same |
| `FloatNumbers.SurvivesIff` | pkg/app/api/models/modules.go:143-146 | any number keeps its digits if and only if it is the multiple nearest to its float64 of the highest power of ten that has multiples reading the same |
| `FloatNumbers.PowerOfTwoLost` | pkg/app/api/models/modules.go:143-146 | above that, being a float64 is not enough: 2^63 is one and is written differently |
| `Digits.ValueWrittenIff` | pkg/app/api/models/modules.go:143-146 | the same for any reader of digits that keeps their order |
| `KeyOrder.VariantsFirst` | pkg/app/api/models/modules.go:150-161 | in the bytewise order in which keys are written, a name in lower case comes behind all its variants, so that the known fields win |
| `ConfigJson.ActionObject` | pkg/app/api/models/modules.go:136-151 | the object an action is written as, key by key |
| `ConfigJson.ActionRoundTripIff` | pkg/app/api/models/modules.go:136-176 | Unmarshal undoes Marshal for an action if and only if no option is named "-" or exactly like a known field, options that match one in another case have its type, and numbers keep their digits |
| `ConfigJson.LowerCaseActionIff` | pkg/app/api/models/modules.go:116 | for options in lower case, which is what the validation lets pass: the round trip holds if and only if no option is named "-" or like a known field and numbers keep their digits |
| `ConfigJson.DashIsLost` | pkg/app/api/models/modules.go:153-176 | a key "-" that a client sends is gone with the first read, before validation sees it, and is not written again |
| `ConfigJson.KnownNameIsLost` | pkg/app/api/models/modules.go:136-151 | an option called "priority" would replace the priority; the program never makes one |
| `ConfigJson.ReadOptionsFree` | pkg/app/api/models/modules.go:167-174 | reading leaves options that keep off "-" and the known names and whose numbers keep their digits |
| `ConfigJson.MergedOptionsFree` | pkg/app/api/modules/modules.go:155-165 | merging the options of two versions of a module keeps them so |
| `ConfigJson.ReadActionComesBackIff` | pkg/app/api/models/modules.go:136-176 | an action that was read from JSON comes back from every further pass if and only if case variants of a known name have its type and the priority keeps its digits |
| `ConfigJson.ValidActionComesBack` | pkg/app/api/models/modules.go:114-116 | and so does every one that passes validation, with option names in lower case and a priority of at most 100 |
| `ConfigJson.ActionComesBack` | pkg/app/api/models/modules.go:136-176 | what comes back otherwise: the same item with reprinted numbers, or nothing |
| `ConfigJson.CaseVariantBreaks` | pkg/app/api/models/modules.go:136-176 | an option "Priority" that is text, which only code can put there, makes the item unreadable |
| `ConfigJson.EventObject` | pkg/app/api/models/modules.go:279-305 | the object an event is written as, key by key; correlation limits only when not atomic |
| `ConfigJson.EventComesBack` | pkg/app/api/models/modules.go:279-330 | what one pass makes of any event whose options keep off "-" and the exact names: numbers reprinted, an atomic event with the correlation part that case variants among its options stand for; nothing if one of these has the wrong type |
| `ConfigJson.EventRoundTripIff` | pkg/app/api/models/modules.go:279-330 | one pass brings an event to its normal form if and only if no option is named "-" or exactly like a known field, case variants have its type and leave nothing in the correlation part of an atomic event, and numbers keep their digits |
| `ConfigJson.ReadEventComesBackIff` | pkg/app/api/models/modules.go:279-330 | an event that was read from JSON comes back in its normal form if and only if case variants have the type of the known name and, in an atomic event, leave nothing in the correlation part, and priorities of actions keep their digits |
| `ConfigJson.ValidEventComesBack` | pkg/app/api/models/modules.go:257-259 | and so does every one that passes validation |
| `ConfigJson.LowerCaseEventIff` | pkg/app/api/models/modules.go:259 | for options in lower case nothing is left of the conditions on variants |
| `ConfigJson.EventUnchangedIff` | pkg/app/api/models/modules.go:279-330 | exactly when an event comes back unchanged |
| `ConfigJson.NormalFormRoundTrip` | pkg/app/api/models/modules.go:279-330 | Unmarshal undoes Marshal on the normal form of an event exactly when one pass brings the event to it; both are written alike |
| `ConfigJson.SecondPassIff` | pkg/app/api/models/modules.go:279-330 | whatever the numbers: what one pass gives back, the next leaves alone if and only if the case variants among the options, if any, still stand for the same |
| `ConfigJson.SecondPassChangesNothing` | pkg/app/api/models/modules.go:279-330 | without case variants a second pass changes nothing |
| `ConfigJson.EventActionComesBack` | pkg/app/api/models/modules.go:279-306 | an action inside an event comes back with its priority reprinted, or makes the event unreadable |
| `ConfigJson.JoinOptions` | pkg/app/api/models/modules.go:146-148 | the loop that writes the options over the known fields |
| `ConfigJson.SplitOptions` | pkg/app/api/models/modules.go:167-174 | the loop that takes everything but the known names |
| `ConfigJson.ActionOptionsThrough` | pkg/app/api/models/modules.go:136-176 | both loops in a row: the options of an action come back if and only if they keep off "-" and the known names and their numbers keep their digits |
| `ConfigJson.EventOptionsThrough` | pkg/app/api/models/modules.go:279-330 | the same for an event |

## Left out

- Router liveness: a hand-off to a receiver whose timeout has fired blocks under the mutex; timeout and removal of the blocker are one step here.
- Router.RecvRouter.UnlockSrc: requires that the blockers on the source are open, because closing a channel twice is a crash of the program; the same for UnlockEvery and CloseRouter.
- Router.RecvRouter.LookupPacket: is one step; control messages pushed into the queue in the middle of it are not modelled, nor is the reordering when they are pushed into a full queue.
- Acknowledgement waits of routePacket and their timeout; the Lua side of acknowledgements is modelled in `LuaReceiver`.
- Framing.WsConnection.Read: message types other than binary and reader failures are one failure outcome; deadlines are not modelled.
- Batcher.HookClient.UploadQueue: the slice passed to the callback is a value, so a callback that keeps it would not see it reused by the next batch; protobuf marshalling of items is left out.
- Sampler.SampleSpans: spans themselves are values, and batches with cyclic parents or repeated ids, for which the source may not end or may mix spans up, are excluded.
- SamplerClient.UploadTraces: the outcome of the wrapped client is left out.
- FileTransfer.SendFile: random hashes that collide are left out, as are failures of the file system of the receiver, path cleaning, and the JSON escapes that chunk numbers never need.
- Deferred.DeferredQueues.DrainReceivedAmid: appends from outside come between the packets of a pass, not in the middle of handling one; filling in the source of a sent packet is left out, and connection policies are a parameter.
- Deferred.DeferredQueues.DrainSentAmid: appends from outside come between the packets of a pass.
- Deferred.PacketQueue.Append: the growth of a Go slice is some bigger array.
- Hub.EveryRunConsistent: agents have distinct destinations, receive queues have room, and no agent of a starting module's group changes before it is registered (see `Hub.StartInStepIff`); upgrade-only agents and group changes outside MoveAgent are left out.
- Token.NewTokenValid: partial correctness for a list of draws; failures of the random source are left out.
- SecureConfig.ValueRoundTrip: strength of the cipher is no part of the model; JSON encoding of values is an invertible parameter, and the JSON schema of the parameters is left out.
- LuaReceiver.NothingOwedBetweenPackets: Lua callbacks are seen only through the sends and receives they make; the quit signal is an event of the loop.
- Lifecycle.CrashesIff: a crash is the panic on the second close of a channel, which nothing in the program recovers from; waits of other goroutines on the closed router are modelled in `Router`.
- Lifecycle.ModuleState.CloseState: waits for goroutines that end; one whose script never ends makes the source wait for ever.
- Controller.SController.DoSync: module states are values in the loader's table; a script that ends in the middle of a pass, the API that starts and stops all modules, the setters that scripts call, and comparing file checksums are left out.
- ModelChecks.EventReports: whether a configuration satisfies its JSON schema is a parameter; limits of correlated events, and which texts are reported in what order, are left out.
- ModelChecks.TagReports: only that a report is made, not which.
- ConfigJson.EventComesBack: elements that Go leaves over from one case variant of a list when it decodes the next are not modelled.
- FloatNumbers.FloatTwice: numbers from 2^1024 upwards, which Go refuses to read as a float64, are read with the same spacing rule here.
- ConfigJson.SecondPassIff: for options off "-" and the exact names.
- ConfigJson.ActionRoundTripIff: options are known by the JSON they are written as; fractions and negative numbers are opaque values, and the two non-ASCII letters that fold to s and k are left out.
- JSON schema validation, protobuf, TLS, HTTP handlers, the database, operating system information, the Lua virtual machine, plain getters and setters, IfServiceAddStartFlag, and the web interface.
