# DataConsumer lifecycle model

A Dafny model of the `DataConsumer` of libmediasoupclient: the receiving end
of one SCTP data channel. The consumer wraps a WebRTC data channel, observes
its events, and turns them into calls on two listeners. The application
listener is told about state changes, received messages and a transport-side
close. The private listener, which is the owning transport's bookkeeping, is
told only about an application-side close. The consumer can be closed from
either side, and at most once.

The consumer is an immutable record `DataConsumer.Consumer<P, A>`. `P` is the
type of the SCTP stream parameters and `A` the type of the application data.
Both are opaque. The record holds:

- the construction fields `id`, `dataProducerId`, `sctpParameters` and `appData`;
- the `closed` flag;
- `channelCloses`, the number of close requests issued on the data channel;
- `trace`, the notifications delivered so far, in order. Each one is tagged
  with its listener (`ToListener` or `ToPrivateListener`).

Every operation is a pure step function from one record to the next. A
sequence of operations is a `seq<Call>`, and `Run` folds the steps over it.

Modules:

- `DataChannel`: the values that cross from the WebRTC channel into the
  model. These are the channel state (`Connecting | Open | Closing | Closed |
  Other`, where `Other` is the `default:` branch), the received buffer, and
  the 64-bit buffered-amount size.
- `Listeners`: the two listener interfaces as notification datatypes, plus
  projections of a trace. `Count` counts occurrences of one notification.
  `Messages` lists the delivered buffers. `ReportedStates` lists the
  reported states.
- `DataConsumer`: the record, the constructor, the accessors and the five
  operations. It also defines the lifecycle invariant `Valid`. A consumer
  is `Valid` when the channel has been asked to close once if it is closed
  and zero times if it is open, and the number of close notifications on
  the two paths together equals that count.
- `DataConsumerLifecycle`: lemmas over arbitrary call sequences.

The header that declares the `closed` member is not part of this model. The
model takes "`closed` starts false" as part of the constructor `New`'s
contract.

`OnMessage` (src/DataConsumer.cpp:54-59) has no `closed` guard, so the model
forwards a message whether or not the consumer is closed, and
`MessagesForwardedInOrder` holds over every call sequence.

## Model

| member | source | states |
|---|---|---|
| DataConsumer.New | src/DataConsumer.cpp:9-23 | A new consumer holds exactly the id, producer id, stream parameters and app data it was given. It is open, has issued no channel close, has notified nobody, and satisfies the lifecycle invariant. |
| DataConsumer.Close | src/DataConsumer.cpp:151-160 | On a closed consumer the result is the same consumer. On an open one, the result is closed, has issued exactly one more channel close, and has appended exactly one private-listener `OnClose` and nothing for the application listener. The construction fields never change. |
| DataConsumer.TransportClosed | src/DataConsumer.cpp:164-173 | On a closed consumer the result is the same consumer. On an open one, the result is closed, has issued exactly one more channel close, and has appended exactly one application-listener `OnTransportClose` and nothing for the private listener. |
| DataConsumer.StateNotifications | src/DataConsumer.cpp:33-50 | A channel state produces at most one notification, and none exactly when the state is unrecognised. The notification goes to the application listener and reports exactly that state. |
| DataConsumer.OnStateChange | src/DataConsumer.cpp:27-51 | A state change leaves `closed` and the close count unchanged. It only appends the state's notification. |
| DataConsumer.OnMessage | src/DataConsumer.cpp:54-59 | A message appends one application-listener `OnMessage` carrying the buffer unchanged. The delivered-buffer list grows by exactly that buffer. `closed` and the close count are unchanged. |
| DataConsumer.OnBufferedAmountChange | src/DataConsumer.cpp:62-66 | A buffered-amount change leaves the consumer exactly as it was. |
| DataConsumer.GetId | src/DataConsumer.cpp:71-76 | Returns the id stored at construction. With `AccessorsStable`, this is the constructor's `id` for the consumer's whole lifetime. |
| DataConsumer.GetDataProducerId | src/DataConsumer.cpp:87-92 | Returns the data producer id stored at construction, unchanged by any later call. |
| DataConsumer.IsClosed | src/DataConsumer.cpp:96-101 | Returns the `closed` flag. On every reachable consumer it is true exactly when the channel has been asked to close, which happens once. |
| DataConsumer.GetSctpStreamParameters | src/DataConsumer.cpp:105-110 | Returns the SCTP stream parameters stored at construction, uninspected and unchanged. |
| DataConsumer.GetAppData | src/DataConsumer.cpp:141-146 | Returns the application data stored at construction, uninspected and unchanged. |
| DataConsumerLifecycle.ApplyPreservesValid | src/DataConsumer.cpp:151-173 | Every single call keeps the lifecycle invariant: one channel close per closed consumer, and one close notification per channel close. |
| DataConsumerLifecycle.RunPreservesValid | src/DataConsumer.cpp:151-173 | Every sequence of calls keeps the lifecycle invariant. |
| DataConsumerLifecycle.CloseRequestedAtMostOnce | src/DataConsumer.cpp:151-173 | For any calls on a fresh consumer, the channel is asked to close at most once. A closed consumer has delivered exactly one of private `OnClose` and application `OnTransportClose`. An open consumer has delivered neither. |
| DataConsumerLifecycle.RunClosedIff | src/DataConsumer.cpp:151-173 | After a run, the consumer is closed if and only if it started closed or the run contained a `Close` or `TransportClosed` call. |
| DataConsumerLifecycle.ClosedAfterCloseRequest | src/DataConsumer.cpp:96-101 | `IsClosed` returns true after every call that follows a close request, including state and message events. |
| DataConsumerLifecycle.EventsLeaveLifecycleAlone | src/DataConsumer.cpp:27-66 | Any number of state, message and buffered-amount events leave `closed` and the close count unchanged. |
| DataConsumerLifecycle.CloseRequestsOnClosedAreNoOps | src/DataConsumer.cpp:151-173 | On a closed consumer, any sequence of close requests from either side leaves the consumer unchanged. |
| DataConsumerLifecycle.ClosePathsIdempotent | src/DataConsumer.cpp:151-173 | Each close path is idempotent, and each is a no-op after the other. |
| DataConsumerLifecycle.ClosedStepAddsNoCloseNotification | src/DataConsumer.cpp:151-173 | On a closed consumer, any single call adds no close notification on either path and issues no channel close. |
| DataConsumerLifecycle.ClosedRunAddsNoCloseNotification | src/DataConsumer.cpp:151-173 | Once the consumer is closed, no later call adds a close notification on either path or issues another channel close. |
| DataConsumerLifecycle.CloseRequestCounts | src/DataConsumer.cpp:155-172 | The request that closes an open consumer delivers its own path's notification once and the other path's not at all. |
| DataConsumerLifecycle.FirstCloseRequestDecidesPath | src/DataConsumer.cpp:151-173 | On a fresh consumer, the first close request fixes the notification for good. If it is `Close`, the trace has exactly one private `OnClose` and no `OnTransportClose`. If it is `TransportClosed`, the reverse holds. |
| DataConsumerLifecycle.AccessorsStable | src/DataConsumer.cpp:71-146 | After any calls on a fresh consumer, including closing, `GetId`, `GetDataProducerId`, `GetSctpStreamParameters` and `GetAppData` return the construction arguments. |
| DataConsumerLifecycle.MessagesStep | src/DataConsumer.cpp:54-59 | A message call adds its buffer to the delivered buffers. Every other call adds none. |
| DataConsumerLifecycle.MessagesForwardedInOrder | src/DataConsumer.cpp:54-59 | The buffers the application listener receives in a run are exactly the run's message buffers, unchanged and in order. |
| DataConsumerLifecycle.StatesStep | src/DataConsumer.cpp:27-51 | A state-change call to a recognised state adds that state to the reported states. Every other call adds none. |
| DataConsumerLifecycle.StatesReportedInOrder | src/DataConsumer.cpp:27-51 | The states reported to the application listener in a run are exactly the run's recognised states, in order. Unrecognised states are dropped. |
| DataConsumerLifecycle.ExampleSession | src/DataConsumer.cpp:27-173 | In the concrete session open, message `AA BB`, `Close`, `TransportClosed`, the trace is `OnOpen`, the message, then private `OnClose`. The consumer is closed, with one channel close. |

## Left out

- `RegisterObserver` (src/DataConsumer.cpp:22) is a call into the WebRTC library and is not modelled. Construction has no other effect.
- `GetReadyState`, `GetLabel` and `GetProtocol` (src/DataConsumer.cpp:114-137) only pass through channel values the model cannot see. `OnStateChange` takes the state the channel reports as a parameter instead.
- `GetLocalId` (src/DataConsumer.cpp:78-83) renders the channel's numeric id as text. It is a formatting of a foreign value and is not modelled.
- The stream parameters and app data are JSON values in the source. Here they are the opaque type parameters `P` and `A` and are never inspected.
- Logging (`MSC_TRACE`), reference counting of the channel handle and object destruction have no observable behaviour in the model.
- Concurrency is not modelled. Transport-thread events racing with close calls are outside the model, and the source has no locking. A run is one sequential interleaving of calls.
- Each close path is one atomic step here. In the source, the channel is asked to close (src/DataConsumer.cpp:158, 171) before the listener is notified (src/DataConsumer.cpp:159, 172), so a callback the channel makes from inside `Close` lands between those two steps. The model cannot show that order. The reachable final states are the same, because the same trace arises when that state change is placed just before the close call.
- Listener re-entrancy is not modelled separately. A listener that calls back into `Close` is modelled as the next call in the sequence.
- Each listener call in the source also passes the consumer itself. The trace belongs to one consumer, so the model drops that argument.
- `DataChannel.DataBuffer` holds the payload and the binary flag of a WebRTC data buffer. The buffer's internal copy-on-write storage is not modelled.
