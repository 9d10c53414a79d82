/**
  A data consumer: the receiving end of one SCTP data channel, as a value.

  The record holds what the consumer was constructed with (its id, the id of
  the data producer it consumes, the SCTP stream parameters and the
  application data, the last two opaque), its `closed` flag, how many close
  requests it has issued on the underlying channel, and the trace of every
  notification it has delivered to its two listeners. Each operation of the
  consumer is a pure step from one record to the next.
 */
module DataConsumer {
  import opened DataChannel
  import opened Listeners

  datatype Consumer<P, A> = Consumer(
    id: string,
    dataProducerId: string,
    sctpParameters: P,
    appData: A,
    closed: bool,
    channelCloses: nat,
    trace: seq<Notification>)

  /** The consumer's id. */
  function GetId<P, A>(c: Consumer<P, A>): (r: string)
    ensures r == c.id
  {
    c.id
  }

  /** The id of the data producer this consumer receives from. */
  function GetDataProducerId<P, A>(c: Consumer<P, A>): (r: string)
    ensures r == c.dataProducerId
  {
    c.dataProducerId
  }

  /** The SCTP stream parameters, exactly as given at construction. */
  function GetSctpStreamParameters<P, A>(c: Consumer<P, A>): (r: P)
    ensures r == c.sctpParameters
  {
    c.sctpParameters
  }

  /** The application data, exactly as given at construction. */
  function GetAppData<P, A>(c: Consumer<P, A>): (r: A)
    ensures r == c.appData
  {
    c.appData
  }

  /** `r` answers every stored-value accessor exactly as `c` does. */
  ghost predicate SameConstruction<P, A>(c: Consumer<P, A>, r: Consumer<P, A>) {
    GetId(r) == GetId(c)
    && GetDataProducerId(r) == GetDataProducerId(c)
    && GetSctpStreamParameters(r) == GetSctpStreamParameters(c)
    && GetAppData(r) == GetAppData(c)
  }

  /** The lifecycle invariant: the channel has been asked to close exactly when
      the consumer is closed, at most once, and each such request is matched by
      exactly one close notification, on one of the two paths. */
  ghost predicate Valid<P, A>(c: Consumer<P, A>) {
    c.channelCloses == (if c.closed then 1 else 0)
    && Count(c.trace, PrivateClose) + Count(c.trace, TransportClose) == c.channelCloses
  }

  /** Whether the consumer has been closed, by either close path. On a
      consumer that keeps the lifecycle invariant, this is exactly whether
      the channel has been asked to close. */
  function IsClosed<P, A>(c: Consumer<P, A>): (r: bool)
    ensures r == c.closed
    ensures Valid(c) ==> (r <==> c.channelCloses == 1)
  {
    c.closed
  }

  /** A freshly constructed consumer. Registering as the channel's observer
      is the only other effect of construction and is not modelled. The
      `closed` flag starts false. */
  function New<P, A>(id: string, dataProducerId: string, sctpParameters: P, appData: A): (c: Consumer<P, A>)
    ensures GetId(c) == id && GetDataProducerId(c) == dataProducerId
    ensures GetSctpStreamParameters(c) == sctpParameters && GetAppData(c) == appData
    ensures !IsClosed(c) && c.channelCloses == 0 && c.trace == []
    ensures Valid(c)
  {
    Consumer(id, dataProducerId, sctpParameters, appData, false, 0, [])
  }

  /** Application-initiated close. A no-op on a closed consumer; otherwise it
      marks the consumer closed, asks the channel to close once and tells the
      private listener, and only it. */
  function Close<P, A>(c: Consumer<P, A>): (r: Consumer<P, A>)
    ensures SameConstruction(c, r)
    ensures IsClosed(c) ==> r == c
    ensures !IsClosed(c) ==>
              IsClosed(r)
              && r.channelCloses == c.channelCloses + 1
              && r.trace == c.trace + [PrivateClose]
  {
    if c.closed then c
    else c.(closed := true, channelCloses := c.channelCloses + 1, trace := c.trace + [PrivateClose])
  }

  /** Transport-initiated close. A no-op on a closed consumer; otherwise it
      marks the consumer closed, asks the channel to close once and tells the
      application listener, and only it. */
  function TransportClosed<P, A>(c: Consumer<P, A>): (r: Consumer<P, A>)
    ensures SameConstruction(c, r)
    ensures IsClosed(c) ==> r == c
    ensures !IsClosed(c) ==>
              IsClosed(r)
              && r.channelCloses == c.channelCloses + 1
              && r.trace == c.trace + [TransportClose]
  {
    if c.closed then c
    else c.(closed := true, channelCloses := c.channelCloses + 1, trace := c.trace + [TransportClose])
  }

  /** The notifications a state change produces: one application-listener
      notification reporting the state, or none for an unrecognised state. */
  function StateNotifications(s: DataState): (r: seq<Notification>)
    ensures |r| <= 1
    ensures r == [] <==> s == Other
    ensures forall n :: n in r ==> n.ToListener? && ReportedState(n.event) == s
  {
    match s
    case Connecting => [ToListener(OnConnecting)]
    case Open => [ToListener(OnOpen)]
    case Closing => [ToListener(OnClosing)]
    case Closed => [ToListener(OnClose)]
    case Other => []
  }

  /** The channel reported that its state is now `s`. Only notifies; the
      consumer's own `closed` flag and close count are untouched, whatever
      `s` is. */
  function OnStateChange<P, A>(c: Consumer<P, A>, s: DataState): (r: Consumer<P, A>)
    ensures SameConstruction(c, r)
    ensures IsClosed(r) == IsClosed(c) && r.channelCloses == c.channelCloses
    ensures r.trace == c.trace + StateNotifications(s)
  {
    c.(trace := c.trace + StateNotifications(s))
  }

  /** The channel delivered a buffer: it is handed to the application
      listener unchanged. There is no `closed` guard. */
  function OnMessage<P, A>(c: Consumer<P, A>, buffer: DataBuffer): (r: Consumer<P, A>)
    ensures SameConstruction(c, r)
    ensures IsClosed(r) == IsClosed(c) && r.channelCloses == c.channelCloses
    ensures r.trace == c.trace + [ToListener(ListenerEvent.OnMessage(buffer))]
    ensures Messages(r.trace) == Messages(c.trace) + [buffer]
  {
    MessagesAppend(c.trace, [ToListener(ListenerEvent.OnMessage(buffer))]);
    c.(trace := c.trace + [ToListener(ListenerEvent.OnMessage(buffer))])
  }

  /** The channel's buffered amount changed; meaningless on the receiving
      side, so nothing happens. */
  function OnBufferedAmountChange<P, A>(c: Consumer<P, A>, sentDataSize: uint64): (r: Consumer<P, A>)
    ensures r == c
  {
    c
  }

  /** One call made on a consumer, by its owner or by the channel. */
  datatype Call =
    | CloseCall
    | TransportClosedCall
    | StateChange(state: DataState)
    | Message(buffer: DataBuffer)
    | BufferedAmountChange(sentDataSize: uint64)
  {
    /** True for the two close paths. */
    predicate IsCloseRequest() {
      CloseCall? || TransportClosedCall?
    }
  }

  /** The effect of one call. */
  function Apply<P, A>(c: Consumer<P, A>, call: Call): (r: Consumer<P, A>)
    ensures SameConstruction(c, r)
    ensures IsClosed(c) ==> IsClosed(r)
    ensures c.trace <= r.trace
    ensures !call.IsCloseRequest() ==> IsClosed(r) == IsClosed(c) && r.channelCloses == c.channelCloses
  {
    match call
    case CloseCall => Close(c)
    case TransportClosedCall => TransportClosed(c)
    case StateChange(s) => OnStateChange(c, s)
    case Message(b) => OnMessage(c, b)
    case BufferedAmountChange(n) => OnBufferedAmountChange(c, n)
  }

  /** The effect of a sequence of calls, made one after another. */
  function Run<P, A>(c: Consumer<P, A>, calls: seq<Call>): (r: Consumer<P, A>)
    ensures SameConstruction(c, r)
    ensures IsClosed(c) ==> IsClosed(r)
    ensures c.trace <= r.trace
    ensures c.channelCloses <= r.channelCloses
    decreases |calls|
  {
    if calls == [] then c else Run(Apply(c, calls[0]), calls[1..])
  }

  /** The buffers carried by the message calls among `calls`, in order. */
  function Delivered(calls: seq<Call>): (r: seq<DataBuffer>)
    ensures |r| <= |calls|
  {
    if calls == [] then []
    else (if calls[0].Message? then [calls[0].buffer] else []) + Delivered(calls[1..])
  }

  /** The recognised states carried by the state-change calls among `calls`,
      in order. */
  function RecognizedStates(calls: seq<Call>): (r: seq<DataState>)
    ensures |r| <= |calls|
    ensures Other !in r
  {
    if calls == [] then []
    else (if calls[0].StateChange? && calls[0].state != Other then [calls[0].state] else [])
         + RecognizedStates(calls[1..])
  }
}
