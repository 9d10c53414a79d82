/**
  The two listener interfaces a data consumer calls into, and the trace of
  calls it makes on them. The application listener hears about the channel's
  life and its messages; the private listener (the owning transport's
  bookkeeping) hears only that the consumer was closed locally.
 */
module Listeners {
  import opened DataChannel

  /** A call on the application listener. */
  datatype ListenerEvent =
    | OnConnecting
    | OnOpen
    | OnClosing
    | OnClose
    | OnMessage(buffer: DataBuffer)
    | OnTransportClose
  {
    /** True for the four notifications that report a channel state. */
    predicate IsStateEvent() {
      OnConnecting? || OnOpen? || OnClosing? || OnClose?
    }
  }

  /** A call on the private listener; its only method is `OnClose`. */
  datatype PrivateListenerEvent = OnPrivateClose

  /** One notification, tagged with the listener it was delivered to. */
  datatype Notification =
    | ToListener(event: ListenerEvent)
    | ToPrivateListener(privateEvent: PrivateListenerEvent)

  /** The notification of the application-initiated close path. */
  const PrivateClose: Notification := ToPrivateListener(OnPrivateClose)

  /** The notification of the transport-initiated close path. */
  const TransportClose: Notification := ToListener(OnTransportClose)

  /** The channel state a state notification reports; `Other` for every
      notification that does not report a state. */
  function ReportedState(e: ListenerEvent): (s: DataState)
    ensures e.IsStateEvent() <==> s != Other
  {
    match e
    case OnConnecting => Connecting
    case OnOpen => Open
    case OnClosing => Closing
    case OnClose => Closed
    case _ => Other
  }

  /** How many times `n` occurs in `trace`. */
  function Count(trace: seq<Notification>, n: Notification): (k: nat)
    ensures k <= |trace|
    ensures k == 0 <==> n !in trace
  {
    if trace == [] then 0
    else (if trace[0] == n then 1 else 0) + Count(trace[1..], n)
  }

  /** The buffers delivered to the application listener, in delivery order. */
  function Messages(trace: seq<Notification>): (r: seq<DataBuffer>)
    ensures |r| <= |trace|
  {
    if trace == [] then []
    else
      (if trace[0].ToListener? && trace[0].event.OnMessage? then [trace[0].event.buffer] else [])
      + Messages(trace[1..])
  }

  /** The channel states reported to the application listener, in order. */
  function ReportedStates(trace: seq<Notification>): (r: seq<DataState>)
    ensures |r| <= |trace|
    ensures Other !in r
  {
    if trace == [] then []
    else
      (if trace[0].ToListener? && trace[0].event.IsStateEvent() then [ReportedState(trace[0].event)] else [])
      + ReportedStates(trace[1..])
  }

  /** Counting distributes over concatenation of traces. */
  lemma {:induction false} CountAppend(a: seq<Notification>, b: seq<Notification>, n: Notification)
    ensures Count(a + b, n) == Count(a, n) + Count(b, n)
  {
    if a != [] {
      assert (a + b)[0] == a[0];
      assert (a + b)[1..] == a[1..] + b;
      CountAppend(a[1..], b, n);
    } else {
      assert a + b == b;
    }
  }

  /** The buffers of two traces in a row are the buffers of each, in order. */
  lemma {:induction false} MessagesAppend(a: seq<Notification>, b: seq<Notification>)
    ensures Messages(a + b) == Messages(a) + Messages(b)
  {
    if a != [] {
      assert (a + b)[0] == a[0];
      assert (a + b)[1..] == a[1..] + b;
      MessagesAppend(a[1..], b);
    } else {
      assert a + b == b;
    }
  }

  /** The states of two traces in a row are the states of each, in order. */
  lemma {:induction false} ReportedStatesAppend(a: seq<Notification>, b: seq<Notification>)
    ensures ReportedStates(a + b) == ReportedStates(a) + ReportedStates(b)
  {
    if a != [] {
      assert (a + b)[0] == a[0];
      assert (a + b)[1..] == a[1..] + b;
      ReportedStatesAppend(a[1..], b);
    } else {
      assert a + b == b;
    }
  }

  /** The projections of a one-notification trace. */
  lemma MessagesSingleton(n: Notification)
    ensures Messages([n]) == if n.ToListener? && n.event.OnMessage? then [n.event.buffer] else []
  {
  }

  lemma ReportedStatesSingleton(n: Notification)
    ensures ReportedStates([n]) == if n.ToListener? && n.event.IsStateEvent() then [ReportedState(n.event)] else []
  {
  }
}
