# TinierProtocol, modelled in Dafny

TinierProtocol lets a server plugin see and rewrite the packets that travel
between a game server and its clients. It does this by inserting its own
stages into the host's per-channel pipelines:

- a **listener stage** goes at the front of every listening socket's
  pipeline. On each accepted channel it records the channel under the peer's
  address, appends the **init stage** to the new channel, and passes the
  channel on.
- the **init stage**, once the pipeline reports it added, queues a task on
  the channel's executor and then removes itself. The task inserts the
  **inbound** and **outbound** stages right before the host's
  `packet_handler` stage.
- the inbound and outbound stages hand every packet to the plugin's current
  transform. A packet is passed on when the transform returns one and
  dropped when it returns null. With no transform set, packets pass
  unchanged.
- every other call a stage receives goes to a shared fallback. It does
  nothing for the registration callbacks and answers `isSharable` with
  false. It forwards `exceptionCaught` unchanged, and forwards any other call
  to the context under `fire<Name>`, or under its own name.

`begin()` and `close()` install and strip these stages under the `hasBegun`
flag. Three caches correlate channels, client-connection wrappers and
players. The `ClientConnection` wrapper identifies a connection by its
channel alone.

The model has these modules:

- `Pipelines` (pipelines.dfy): stages, pipelines as sequences, and the four
  pipeline operations (addFirst, addLast, addBefore, remove) with their
  failure cases.
  - It also defines sweeps: one edit applied to a list of channels in order.
  - The failure rules of the operations are an assumption about the host's
    pipeline library, stated at the top of the module.
- `StageIds` (stage_ids.dfy): the two stage ids,
  `<plugin>_tinierprotocol_in_<n>` and `<plugin>_tinierprotocol_out_<n>`.
- `Connections` (connections.dfy): the `ClientConnection` class. Its equality
  and hash depend on the channel only.
- `Stages` (stages.dfy): the stages' pure behaviour.
  - the transform decision for reads and writes;
  - the `fire<Name>` mapping;
  - the routing of a call to the role's own step or to the shared fallback,
    and the fallback dispatch;
  - the init stage's two-step installation.
- `Host` (host.dfy): the host server the engine works on.
  - the listening channels and the connection channels;
  - each channel's pipeline;
  - the queue of tasks waiting on the channels' executors.
- `Protocol` (protocol.dfy): the `TinierProtocol` class.
  - its fields, `begin`, `close` and the hijack loops;
  - the registry and the support-listener events;
  - each stage's step as a method over the engine's state.
- `Scenarios` (scenarios.dfy): concrete runs on a server with one listening
  socket and one connection.

Some behaviour of the code, as modelled:

- A task queued by the init stage still runs after `close()`, so it
  installs the interceptors on a pipeline that `close()` already swept.
- `close()` does not remove an init stage that is still waiting for its
  `handlerAdded` call.
- `close()` does not clear the address cache.
- `onLogin` replaces any wrapper the channel already had. A wrapper handed
  out earlier is then no longer the cached one.

The Javadoc of `close()` (TinierProtocol.java:308-316) says that it removes
the stages "from every player and channel that was previously injected". The
code calls the pipeline's strict `remove`, which raises on a stage that is
not there, so a single pipeline the stages never reached ends `close()`
early, with the instance still active (see Findings). Both are modelled:

- `CloseAsWritten` is the code as written. `OnDisable` calls it, as the
  code does. The scenarios show it completing once the interceptors are in
  place, and failing before that.
- `Close` is the version that tolerates an absent stage, and does what the
  Javadoc describes.

## Model

| member | source | states |
|---|---|---|
| Pipelines.IndexOfName | tinierprotocol/src/main/java/io/github/agenttroll/tinierprotocol/TinierProtocol.java:598-601 | the anchor lookup of addBefore: the first position whose stage carries the name, with no earlier stage carrying it |
| Pipelines.IndexOf | tinierprotocol/src/main/java/io/github/agenttroll/tinierprotocol/TinierProtocol.java:605 | the stage a removal by identity takes out is its first occurrence |
| Pipelines.HasNameIff | tinierprotocol/src/main/java/io/github/agenttroll/tinierprotocol/TinierProtocol.java:598-601 | a pipeline carries a name exactly when some position holds a stage of that name |
| Pipelines.AddBeforeUndone | tinierprotocol/src/main/java/io/github/agenttroll/tinierprotocol/TinierProtocol.java:598-601 | removing the stage a successful addBefore inserted gives the original pipeline back |
| Pipelines.AddBeforeContents | tinierprotocol/src/main/java/io/github/agenttroll/tinierprotocol/TinierProtocol.java:598-601 | a successful addBefore adds exactly the new stage to the pipeline's contents |
| Pipelines.AddBeforeKeepsNamesUnique | tinierprotocol/src/main/java/io/github/agenttroll/tinierprotocol/TinierProtocol.java:598-601 | addBefore never leaves two stages with one name |
| Pipelines.RemoveAddFirst | tinierprotocol/src/main/java/io/github/agenttroll/tinierprotocol/TinierProtocol.java:336-337 | removing the stage addFirst put in front gives the original pipeline back |
| Pipelines.RemoveAddLast | tinierprotocol/src/main/java/io/github/agenttroll/tinierprotocol/TinierProtocol.java:605 | removing the stage addLast appended gives the original pipeline back when it was not there before |
| Pipelines.RemoveContents | tinierprotocol/src/main/java/io/github/agenttroll/tinierprotocol/TinierProtocol.java:336-337 | a removal takes exactly one copy of the stage out when one is present and changes nothing otherwise |
| Pipelines.RemoveKeepsCount | tinierprotocol/src/main/java/io/github/agenttroll/tinierprotocol/TinierProtocol.java:605 | removing one stage keeps the number of copies of every other stage |
| Pipelines.RemoveKeepsOthers | tinierprotocol/src/main/java/io/github/agenttroll/tinierprotocol/TinierProtocol.java:349-352 | removing one stage does not change whether another stage is present |
| Pipelines.RemoveNamedIsComplete | tinierprotocol/src/main/java/io/github/agenttroll/tinierprotocol/TinierProtocol.java:349-352 | in a pipeline with unique names, removing a named stage leaves no copy behind |
| Pipelines.RemoveSoleCopy | tinierprotocol/src/main/java/io/github/agenttroll/tinierprotocol/TinierProtocol.java:336-337 | a stage held at most once is absent after its removal |
| Pipelines.RemoveKeepsNamesUnique | tinierprotocol/src/main/java/io/github/agenttroll/tinierprotocol/TinierProtocol.java:336-337 | removal keeps stage names unique |
| Pipelines.AddUnnamedKeepsNamesUnique | tinierprotocol/src/main/java/io/github/agenttroll/tinierprotocol/TinierProtocol.java:373 | addFirst and addLast of an unnamed stage keep stage names unique |
| Pipelines.ApplyKeepsNamesUnique | tinierprotocol/src/main/java/io/github/agenttroll/tinierprotocol/TinierProtocol.java:333-353 | every per-pipeline edit of a sweep keeps stage names unique |
| Pipelines.StripBothIsComplete | tinierprotocol/src/main/java/io/github/agenttroll/tinierprotocol/TinierProtocol.java:349-352 | removing the inbound, then the outbound stage from a pipeline with unique names leaves neither |
| Pipelines.ForEachAt | tinierprotocol/src/main/java/io/github/agenttroll/tinierprotocol/TinierProtocol.java:331-354 | a sweep over distinct channels edits each listed channel's pipeline once and leaves every other pipeline as it was |
| Pipelines.ForEachPrefixAt | tinierprotocol/src/main/java/io/github/agenttroll/tinierprotocol/TinierProtocol.java:331-354 | a sweep cut off after the first k channels of a distinct list has edited exactly those channels, each once |
| Pipelines.ForEachKeys | tinierprotocol/src/main/java/io/github/agenttroll/tinierprotocol/TinierProtocol.java:331-354 | a sweep adds only the swept channels to the set of channels with a pipeline |
| StageIds.NatToString | tinierprotocol/src/main/java/io/github/agenttroll/tinierprotocol/TinierProtocol.java:212-214 | the decimal rendering of the counter value is a non-empty string of digits |
| StageIds.NatToStringInjective | tinierprotocol/src/main/java/io/github/agenttroll/tinierprotocol/TinierProtocol.java:212-214 | different counter values render differently |
| StageIds.InId | tinierprotocol/src/main/java/io/github/agenttroll/tinierprotocol/TinierProtocol.java:213 | the inbound id is the plugin name, then `_tinierprotocol_in_`, then the decimal instance number: it starts with the plugin name followed by the infix and is longer than both; SplitInId reads both parts back and StageIdsDistinct separates ids |
| StageIds.OutId | tinierprotocol/src/main/java/io/github/agenttroll/tinierprotocol/TinierProtocol.java:214 | the outbound id is the plugin name, then `_tinierprotocol_out_`, then the decimal instance number: it starts with the plugin name followed by the infix and is longer than both; SplitOutId reads both parts back and StageIdsDistinct separates ids |
| StageIds.SplitInId | tinierprotocol/src/main/java/io/github/agenttroll/tinierprotocol/TinierProtocol.java:213 | an inbound stage id splits at its last separator into plugin name plus infix and the counter value |
| StageIds.SplitOutId | tinierprotocol/src/main/java/io/github/agenttroll/tinierprotocol/TinierProtocol.java:214 | an outbound stage id splits at its last separator into plugin name plus infix and the counter value |
| StageIds.StageIdsDistinct | tinierprotocol/src/main/java/io/github/agenttroll/tinierprotocol/TinierProtocol.java:212-214 | ids built from different counter values differ whatever the plugin names, and an inbound id is never an outbound id |
| Connections.Wrap32 | tinierprotocol/src/main/java/io/github/agenttroll/tinierprotocol/TinierProtocol.java:938 | the 32-bit result of the hash arithmetic is congruent to the exact value modulo 2^32 |
| Connections.ClientConnection.constructor | tinierprotocol/src/main/java/io/github/agenttroll/tinierprotocol/TinierProtocol.java:792-794 | a new wrapper wraps the given channel with no player and no player connection |
| Connections.ClientConnection.HasPlayer | tinierprotocol/src/main/java/io/github/agenttroll/tinierprotocol/TinierProtocol.java:869-871 | true exactly when a player UUID is bound |
| Connections.ClientConnection.SetPlayer | tinierprotocol/src/main/java/io/github/agenttroll/tinierprotocol/TinierProtocol.java:881-888 | binds the player's UUID, or clears it when given no player |
| Connections.ClientConnection.SetPlayerConnection | tinierprotocol/src/main/java/io/github/agenttroll/tinierprotocol/TinierProtocol.java:898-900 | records the player connection, or clears it |
| Connections.ClientConnection.GetPlayer | tinierprotocol/src/main/java/io/github/agenttroll/tinierprotocol/TinierProtocol.java:913-920 | fails with "No player" exactly when no UUID is bound, otherwise yields the bound UUID |
| Connections.ClientConnection.GetRawChannel | tinierprotocol/src/main/java/io/github/agenttroll/tinierprotocol/TinierProtocol.java:857-859 | yields the wrapped channel |
| Connections.ClientConnection.SendPacket | tinierprotocol/src/main/java/io/github/agenttroll/tinierprotocol/TinierProtocol.java:838-845 | the packet goes through the player connection exactly when one is set, otherwise it is written and flushed on the wrapped channel |
| Connections.ClientConnection.Equals | tinierprotocol/src/main/java/io/github/agenttroll/tinierprotocol/TinierProtocol.java:922-934 | true exactly when the other object is a wrapper (not null) of an equal channel; EqualsIsChannelEquality proves it an equivalence and EqualsAgreesWithHashCode ties it to the hash |
| Connections.ClientConnection.HashCode | tinierprotocol/src/main/java/io/github/agenttroll/tinierprotocol/TinierProtocol.java:936-939 | `Objects.hash` of the channel: 31 plus the channel's hash, wrapped to 32 bits, so it depends on the channel alone (EqualsAgreesWithHashCode) |
| Connections.EqualsIsChannelEquality | tinierprotocol/src/main/java/io/github/agenttroll/tinierprotocol/TinierProtocol.java:922-934 | wrapper equality is reflexive, symmetric and transitive, never holds for null, and holds exactly when the channels are equal |
| Connections.EqualsAgreesWithHashCode | tinierprotocol/src/main/java/io/github/agenttroll/tinierprotocol/TinierProtocol.java:922-939 | equal wrappers have equal hash codes whatever players they hold |
| Stages.Transform | tinierprotocol/src/main/java/io/github/agenttroll/tinierprotocol/TinierProtocol.java:624-690 | the decision both interceptors share: with no handler the packet passes unchanged; with one, the handler's result decides, and only a handler can drop a packet; InboundCalls and OutboundCalls turn it into the calls made on the context |
| Stages.InboundCalls | tinierprotocol/src/main/java/io/github/agenttroll/tinierprotocol/TinierProtocol.java:629-645 | with no inbound handler the packet is passed on once unchanged; otherwise the handler's result is passed on once, and nothing is passed on exactly when the handler returns none |
| Stages.OutboundCalls | tinierprotocol/src/main/java/io/github/agenttroll/tinierprotocol/TinierProtocol.java:667-684 | as the inbound rule, for write; every call passes the caller's promise unchanged, and a dropped packet makes no call at all |
| Stages.FireName | tinierprotocol/src/main/java/io/github/agenttroll/tinierprotocol/TinierProtocol.java:567 | the mapped name is "fire" followed by the method name with its first character upper-cased |
| Stages.HandlerNameOfFireName | tinierprotocol/src/main/java/io/github/agenttroll/tinierprotocol/TinierProtocol.java:567 | for a name starting with a lower-case letter, the method name can be read back from its fire name |
| Stages.FireNameInjective | tinierprotocol/src/main/java/io/github/agenttroll/tinierprotocol/TinierProtocol.java:567 | different handler method names map to different context method names |
| Stages.AdaptedDispatch | tinierprotocol/src/main/java/io/github/agenttroll/tinierprotocol/TinierProtocol.java:495-536 | the shared fallback's case split: ensureNotSharable, handlerAdded and handlerRemoved return null with no call; isSharable, and only it, returns false; exceptionCaught forwards the throwable to the context (NullPointer or IndexOutOfBounds on missing arguments); any other call raises NullPointer with no arguments, and otherwise is forwarded to its first argument with the rest of them, under the mapped name, when the target declares it, and raises UnsupportedOperation naming the method exactly when it does not; NeverSharable, ExceptionForwarded and OtherCallsForwardOrRaise state these per role |
| Stages.StageCall | tinierprotocol/src/main/java/io/github/agenttroll/tinierprotocol/TinierProtocol.java:546-690 | a call on a stage goes to the role's own step exactly when it is the role's own method (channelRead for the listener and inbound roles, handlerAdded for the init role, write for the outbound role); anything else goes to the fallback under `MappedName` (fire<Name> for the listener and inbound roles, the own name otherwise) against `Fallback`'s target (the outbound invoker for the outbound role, the context otherwise), and isSharable and exceptionCaught always reach it; OwnStepBeforeFallback, NeverSharable and ExceptionForwarded state it per role |
| Stages.NeverSharable | tinierprotocol/src/main/java/io/github/agenttroll/tinierprotocol/TinierProtocol.java:497-507 | every stage role answers isSharable with false, and every call of ensureNotSharable, handlerAdded or handlerRemoved that reaches the shared fallback does nothing |
| Stages.ExceptionForwarded | tinierprotocol/src/main/java/io/github/agenttroll/tinierprotocol/TinierProtocol.java:510-516 | every stage role passes exceptionCaught on to the context with the very same throwable |
| Stages.OwnStepBeforeFallback | tinierprotocol/src/main/java/io/github/agenttroll/tinierprotocol/TinierProtocol.java:588-607 | each role handles its own method before the fallback: only the init role acts on handlerAdded, which on every other role reaches the fallback and does nothing, and only the outbound role handles write itself |
| Stages.OtherCallsForwardOrRaise | tinierprotocol/src/main/java/io/github/agenttroll/tinierprotocol/TinierProtocol.java:520-533 | any other call is forwarded without its context argument under fire<Name> (listener and inbound roles) or its own name (init and outbound roles) when the target declares it, and raises UnsupportedOperation with the method name otherwise |
| Stages.DeferredInstall | tinierprotocol/src/main/java/io/github/agenttroll/tinierprotocol/TinierProtocol.java:596-602 | the queued task: addBefore of the inbound stage, then of the outbound stage, both before packet_handler, stopping at the first failure; without the anchor nothing changes and it never grows the pipeline by more than two; DeferredInstallContents, InstallLayout, InstallRoundTrip, DeferredInstallKeepsNamesUnique and InstallKeepsUnnamed state its result |
| Stages.DeferredInstallKeepsNamesUnique | tinierprotocol/src/main/java/io/github/agenttroll/tinierprotocol/TinierProtocol.java:596-602 | the queued installation keeps stage names unique |
| Stages.DeferredInstallContents | tinierprotocol/src/main/java/io/github/agenttroll/tinierprotocol/TinierProtocol.java:596-602 | the installation adds the inbound stage, then the outbound one, or stops early; it never removes a stage |
| Stages.InstallLayout | tinierprotocol/src/main/java/io/github/agenttroll/tinierprotocol/TinierProtocol.java:596-602 | on a pipeline with the packet_handler anchor and neither interceptor name, the result is prefix, inbound, outbound, packet_handler and the rest |
| Stages.AnchorAfterInsertion | tinierprotocol/src/main/java/io/github/agenttroll/tinierprotocol/TinierProtocol.java:598-601 | after the inbound insertion the anchor is found one position later and the outbound name is still unused |
| Stages.UninstallLayout | tinierprotocol/src/main/java/io/github/agenttroll/tinierprotocol/TinierProtocol.java:349-352 | removing inbound then outbound from "..., in, out, ..." restores the pipeline |
| Stages.InstallKeepsUnnamed | tinierprotocol/src/main/java/io/github/agenttroll/tinierprotocol/TinierProtocol.java:596-605 | the installation never adds or removes an unnamed stage, so the init stage is present afterwards exactly when it was before |
| Stages.InstallRoundTrip | tinierprotocol/src/main/java/io/github/agenttroll/tinierprotocol/TinierProtocol.java:596-602 | installing the interceptors and then removing both, as close() does, gives the original pipeline back |
| Host.Server.constructor | tinierprotocol/src/main/java/io/github/agenttroll/tinierprotocol/TinierProtocol.java:381-386 | the server's connection list and listening-socket list, each channel listed once and no channel in both |
| Host.Server.SetPipeline | tinierprotocol/src/main/java/io/github/agenttroll/tinierprotocol/TinierProtocol.java:402-408 | an edit through a channel's pipeline replaces that channel's pipeline only and keeps the host's invariants |
| Host.Server.Execute | tinierprotocol/src/main/java/io/github/agenttroll/tinierprotocol/TinierProtocol.java:595-596 | executor.execute queues the task behind the ones already waiting |
| Host.Server.RunNextTask | tinierprotocol/src/main/java/io/github/agenttroll/tinierprotocol/TinierProtocol.java:596-602 | the oldest task runs: the interceptors go in before packet_handler on its channel, no other pipeline changes, and the host's invariants survive |
| Protocol.StageIdCounter.constructor | tinierprotocol/src/main/java/io/github/agenttroll/tinierprotocol/TinierProtocol.java:171 | the process-wide counter starts at zero |
| Protocol.TinierProtocol.constructor | tinierprotocol/src/main/java/io/github/agenttroll/tinierprotocol/TinierProtocol.java:209-221 | the counter is incremented once, the instance number is its new value, the stage ids are derived from it, the instance is idle with no handlers and empty caches |
| Protocol.TinierProtocol.SetInHandler | tinierprotocol/src/main/java/io/github/agenttroll/tinierprotocol/TinierProtocol.java:236-238 | the inbound handler slot holds the given handler |
| Protocol.TinierProtocol.GetInHandler | tinierprotocol/src/main/java/io/github/agenttroll/tinierprotocol/TinierProtocol.java:246-248 | yields the inbound handler slot |
| Protocol.TinierProtocol.SetOutHandler | tinierprotocol/src/main/java/io/github/agenttroll/tinierprotocol/TinierProtocol.java:263-265 | the outbound handler slot holds the given handler |
| Protocol.TinierProtocol.GetOutHandler | tinierprotocol/src/main/java/io/github/agenttroll/tinierprotocol/TinierProtocol.java:273-275 | yields the outbound handler slot |
| Protocol.TinierProtocol.HasBegun | tinierprotocol/src/main/java/io/github/agenttroll/tinierprotocol/TinierProtocol.java:284-288 | yields whether the instance is active |
| Protocol.TinierProtocol.HijackChannel | tinierprotocol/src/main/java/io/github/agenttroll/tinierprotocol/TinierProtocol.java:365-374 | the channel's pipeline gains the init stage at its end; nothing else changes |
| Protocol.TinierProtocol.HijackCurrentPlayers | tinierprotocol/src/main/java/io/github/agenttroll/tinierprotocol/TinierProtocol.java:380-390 | every live connection's pipeline gains the init stage at its end, in list order |
| Protocol.TinierProtocol.HijackServerConnection | tinierprotocol/src/main/java/io/github/agenttroll/tinierprotocol/TinierProtocol.java:397-411 | every listening socket's pipeline gains the listener stage at its front, in list order |
| Protocol.TinierProtocol.Begin | tinierprotocol/src/main/java/io/github/agenttroll/tinierprotocol/TinierProtocol.java:295-306 | no change when already active; otherwise each connection pipeline gains the init stage at its end, each listening pipeline the listener stage at its front, every other pipeline is unchanged and the instance is active; handlers and caches are untouched |
| Protocol.TinierProtocol.StripListeners | tinierprotocol/src/main/java/io/github/agenttroll/tinierprotocol/TinierProtocol.java:331-339 | the listener stage leaves every listening pipeline (removal tolerating an absent stage) |
| Protocol.TinierProtocol.StripConnections | tinierprotocol/src/main/java/io/github/agenttroll/tinierprotocol/TinierProtocol.java:343-354 | the inbound, then the outbound stage leaves every connection pipeline (removal tolerating an absent stage) |
| Protocol.TinierProtocol.Close | tinierprotocol/src/main/java/io/github/agenttroll/tinierprotocol/TinierProtocol.java:318-357 | no change when idle; otherwise the wrapper and player caches are empty, no listening pipeline holds the listener stage, no connection pipeline holds either interceptor, every other pipeline is unchanged and the instance is idle; handlers and the address cache are untouched |
| Protocol.TinierProtocol.StripListenerStrictly | tinierprotocol/src/main/java/io/github/agenttroll/tinierprotocol/TinierProtocol.java:334-337 | the strict removal on one listening pipeline succeeds exactly when it holds the listener stage, and changes nothing when it fails |
| Protocol.TinierProtocol.StripListenersStrictly | tinierprotocol/src/main/java/io/github/agenttroll/tinierprotocol/TinierProtocol.java:331-339 | the strict sweep over listening pipelines runs to the end exactly when every one of them holds the listener stage; otherwise it stops at the first that lacks it, and only the sockets before that one are stripped |
| Protocol.TinierProtocol.StripConnectionStrictly | tinierprotocol/src/main/java/io/github/agenttroll/tinierprotocol/TinierProtocol.java:346-352 | the strict removals on one connection pipeline succeed exactly when it holds both interceptors; when they fail, only the inbound stage, if present, is gone; other pipelines never change |
| Protocol.TinierProtocol.StripConnectionsStrictly | tinierprotocol/src/main/java/io/github/agenttroll/tinierprotocol/TinierProtocol.java:343-354 | the strict sweep over connection pipelines runs to the end exactly when every one of them holds both interceptors; otherwise the connections before the one it stops at are stripped of both, that one of the inbound stage only, and the rest are unchanged |
| Protocol.TinierProtocol.CloseAsWritten | tinierprotocol/src/main/java/io/github/agenttroll/tinierprotocol/TinierProtocol.java:318-357 | close() with the strict removal: it completes exactly when every listening pipeline holds the listener stage and every connection pipeline both interceptors; otherwise the caches are already empty, the instance stays active and the pipelines are those of the sweep cut off where it stopped; the instance invariant holds either way |
| Protocol.TinierProtocol.CloseConnectionsAsWritten | tinierprotocol/src/main/java/io/github/agenttroll/tinierprotocol/TinierProtocol.java:343-357 | the second half of close() once the listener sweep has run to the end: the instance ends idle exactly when every connection pipeline holds both interceptors, with every connection stripped of both; otherwise it stays active and the sweep is cut off where it stopped; the instance invariant holds either way |
| Protocol.SweepsCompose | tinierprotocol/src/main/java/io/github/agenttroll/tinierprotocol/TinierProtocol.java:331-354 | a complete listener sweep leaves the connection pipelines unchanged, so the outcome of the connection sweep after it, success or where it stopped, is the same stated against the pipelines from before both sweeps |
| Protocol.StripPrefixKeepsBound | tinierprotocol/src/main/java/io/github/agenttroll/tinierprotocol/TinierProtocol.java:331-339 | a listener sweep, complete or cut off, leaves every listening pipeline with at most one listener stage, and a complete one with none |
| Protocol.ConnectionSweepSparesListeners | tinierprotocol/src/main/java/io/github/agenttroll/tinierprotocol/TinierProtocol.java:343-354 | a connection sweep, complete or cut off, never changes a listening pipeline |
| Protocol.TinierProtocol.GetClientConnection | tinierprotocol/src/main/java/io/github/agenttroll/tinierprotocol/TinierProtocol.java:703-705 | yields the cached wrapper of the channel, or caches and yields a new one for it; no other entry changes |
| Protocol.TinierProtocol.GetClientConnectionTwice | tinierprotocol/src/main/java/io/github/agenttroll/tinierprotocol/TinierProtocol.java:703-705 | two lookups of one channel yield the same wrapper |
| Protocol.TinierProtocol.OnLogin | tinierprotocol/src/main/java/io/github/agenttroll/tinierprotocol/TinierProtocol.java:432-440 | when a channel is pending for the address it stops being pending, the UUID maps to it and a new wrapper bound to the player, with no player connection yet, replaces the channel's wrapper; otherwise nothing changes |
| Protocol.TinierProtocol.OnQuit | tinierprotocol/src/main/java/io/github/agenttroll/tinierprotocol/TinierProtocol.java:456-462 | only the player's UUID leaves the player cache |
| Protocol.TinierProtocol.OnDisable | tinierprotocol/src/main/java/io/github/agenttroll/tinierprotocol/TinierProtocol.java:465-473 | disabling the owning plugin runs close() as written: the instance ends idle exactly when that close() runs to the end, which it does exactly when every stage it removes is present; any other plugin changes nothing |
| Protocol.TinierProtocol.ListenerChannelRead | tinierprotocol/src/main/java/io/github/agenttroll/tinierprotocol/TinierProtocol.java:553-565 | the new channel becomes pending under its remote address, its pipeline gains the init stage at its end, and the channel itself is passed on once |
| Protocol.TinierProtocol.InitHandlerAdded | tinierprotocol/src/main/java/io/github/agenttroll/tinierprotocol/TinierProtocol.java:589-605 | the installation is queued on the channel's executor first, then the init stage removes itself; when it is already gone the removal fails and the pipeline is unchanged |
| Protocol.TinierProtocol.PacketInRead | tinierprotocol/src/main/java/io/github/agenttroll/tinierprotocol/TinierProtocol.java:629-645 | with no inbound handler the packet passes unchanged and the registry is not consulted; otherwise the channel's wrapper is looked up, or a new one with no player and no player connection is created and cached, and the handler's result decides what passes |
| Protocol.TinierProtocol.PacketOutWrite | tinierprotocol/src/main/java/io/github/agenttroll/tinierprotocol/TinierProtocol.java:667-684 | as the inbound read, with the same new wrapper when none is cached, and the caller's promise passed along and unused when the packet is dropped |
| Scenarios.IdsAvoidHostNames | tinierprotocol/src/main/java/io/github/agenttroll/tinierprotocol/TinierProtocol.java:212-214 | whatever the plugin name and instance number, the stage ids are longer than the host's decoder and packet_handler names, so they never collide with them, and the two ids differ |
| Scenarios.InstallOnConnection | tinierprotocol/src/main/java/io/github/agenttroll/tinierprotocol/TinierProtocol.java:596-602 | on decoder, packet_handler the installation yields decoder, in, out, packet_handler, and removing both interceptors restores it |
| Scenarios.UninstallOnConnection | tinierprotocol/src/main/java/io/github/agenttroll/tinierprotocol/TinierProtocol.java:349-352 | removing the inbound, then the outbound stage from decoder, in, out, packet_handler gives decoder, packet_handler |
| Scenarios.BegunSmallServer | tinierprotocol/src/main/java/io/github/agenttroll/tinierprotocol/TinierProtocol.java:295-306 | after begin() the listening pipeline starts with the listener stage and the connection pipeline ends with the init stage |
| Scenarios.InstalledSmallServer | tinierprotocol/src/main/java/io/github/agenttroll/tinierprotocol/TinierProtocol.java:589-605 | handlerAdded then the queued task leave the connection pipeline as decoder, in, out, packet_handler with the init stage gone |
| Scenarios.ConnectionLifecycle | tinierprotocol/src/main/java/io/github/agenttroll/tinierprotocol/TinierProtocol.java:295-357 | begin(), installation and close() as written: close() finds every stage it removes, runs to the end, gives back the original pipelines and leaves the instance idle |
| Scenarios.CloseBeforeInstallAborts | tinierprotocol/src/main/java/io/github/agenttroll/tinierprotocol/TinierProtocol.java:318-357 | close() as written, called after begin() and before the installation, strips the listener stage, then fails on the connection, leaves the instance active and the caches empty |
| Scenarios.CloseWithoutInterceptors | tinierprotocol/src/main/java/io/github/agenttroll/tinierprotocol/TinierProtocol.java:318-357 | on the begun small server whose connection lacks the inbound stage, close() as written strips the listener stage, stops at the connection, leaves that pipeline as it was, empties the caches and leaves the instance active |
| Scenarios.CloseRetryAbortsAgain | tinierprotocol/src/main/java/io/github/agenttroll/tinierprotocol/TinierProtocol.java:318-357 | a second close() after the aborted one finds the listener stage gone and fails at once; the pipelines after it equal those before it and the instance stays active, so every further close() fails the same way |
| Scenarios.CloseBeforeInstallCompletes | tinierprotocol/src/main/java/io/github/agenttroll/tinierprotocol/TinierProtocol.java:318-357 | with the tolerant removal the same close() leaves the instance idle and the listener stage gone |
| Scenarios.InstancesHaveDistinctStages | tinierprotocol/src/main/java/io/github/agenttroll/tinierprotocol/TinierProtocol.java:209-214 | two instances made in turn get different instance numbers, different stage ids and different stages |

## Left out

- Reflection is not modelled. This covers the lookup of classes, methods and fields and the reflective invocation (lines 55-159 and 942-1040). It also covers the static bootstrap that reaches the server's connection lists; the `Host.Server` state stands for those lists.
- The pipeline library itself is not part of this model. The failure rules of addFirst, addLast, addBefore and remove are an assumption, written at the top of module `Pipelines`.
- Stages are compared by value. Java compares the proxy objects by identity. The instance number inside each stage plays that part.
- Executors are not modelled as threads. The executor is one FIFO queue of install tasks (`Host.Server.tasks`), and `Host.Server.RunNextTask` runs the oldest task whenever the host chooses. There is one queue for the whole server, not one per channel.
- `synchronized` blocks, `volatile` fields and concurrency in general are left out, because every operation is modelled as one atomic step.
- Garbage-collection eviction is left out: the weak keys and weak values of the address and wrapper caches cannot be observed in a sequential model.
- Bukkit event registration and unregistration are left out.
- `onJoin` is left out, because it reads the player connection through NMS reflection.
- `getClientConnection(Player)` is left out, because it resolves the channel through NMS reflection.
- The log record written by `exceptionCaught` is left out.
- The forward caches (`CIH_FORWARD_CACHE`, `COH_FORWARD_CACHE`) are left out, because they only memoise the method lookup.
- Actual packet transmission is left out. `sendPacket` yields which route it takes instead.
- The test plugins are left out, because they only wire identity handlers.
- Stages.OtherCallsForwardOrRaise: forwarding resolves the target method by name only, as `getDeclaredMethods` does with the first method of that name. Overloads and argument counts are not modelled.
- Stages.OtherCallsForwardOrRaise: a call whose argument array is absent, or too short for `exceptionCaught`, raises NullPointer or IndexOutOfBounds.
- Stages.FireName: `Character.toUpperCase` is modelled for ASCII letters only. Other characters are kept as they are.
- Protocol.TinierProtocol.constructor: the counter is an unbounded number. The wrap-around of `AtomicInteger` after 2^31 - 1 instances is not modelled.
- Protocol.TinierProtocol.constructor: it requires that no listening pipeline already holds a listener stage with the next instance number. This stands for Java's guarantee that the new proxy object is in no pipeline yet.
- Stages.InboundCalls: the handler is a total, pure function of the wrapper and the packet. An exception thrown by `handler.apply`, which the pipeline would pass to `exceptionCaught`, is not modelled. Neither are the handler's side effects or its reads of the wrapper's mutable fields. The same holds for `Stages.OutboundCalls`.
- Protocol.TinierProtocol.PacketInRead: because the handler cannot throw, the wrapper lookup and the handler call always complete. A handler failure after the wrapper was created is not modelled. The same holds for `PacketOutWrite`.
- Protocol.TinierProtocol.ListenerChannelRead: the host adds the accepted channel to its connection list in its own code, which is not part of this model. The model's connection list therefore does not grow, and the model does not state that `close()` strips a connection accepted after `begin()`.
- Protocol.TinierProtocol.InitHandlerAdded: the init stage's failing self-removal is returned as a `Failure` rather than raised into the pipeline.
- Connections.ClientConnection.GetPlayer: it yields the bound UUID, not the online player that `Bukkit.getPlayer` would look up.
- Connections.ClientConnection.HashCode: the channel's own `hashCode` is a parameter.
- The address cache keys on a string that stands for the peer's `InetAddress`.
- Plugins are identified by their name.

## Findings

| source | as written | input that shows it | evidently intended | confidence | as-written member | corrected member |
|---|---|---|---|---|---|---|
| tinierprotocol/src/main/java/io/github/agenttroll/tinierprotocol/TinierProtocol.java:318-357 | close() clears the caches, then removes stages with the strict `remove`, which raises when the stage is absent; the first absent stage ends close() with `hasBegun` still true and the remaining pipelines not swept | begin(), then close() before a connection's init stage has installed the interceptors (its pipeline lacks the inbound stage) | every removal tolerates an absent stage, both sweeps run to the end and the instance ends idle | not executed | Protocol.TinierProtocol.CloseAsWritten, Scenarios.CloseBeforeInstallAborts | Protocol.TinierProtocol.Close, Scenarios.CloseBeforeInstallCompletes |
