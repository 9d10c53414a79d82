/**
  Properties of a data consumer over arbitrary sequences of calls: the two
  close paths are idempotent and mutually exclusive, `closed` only ever goes
  from false to true and only through a close path, the channel is asked to
  close at most once, and messages and state reports reach the application
  listener unchanged and in order.
 */
module DataConsumerLifecycle {
  import opened DataChannel
  import opened Listeners
  import opened DataConsumer

  /** The notifications one call appends to the trace: a per-call summary
      of what the `ensures` of `Close`, `TransportClosed`, `OnStateChange`,
      `OnMessage` and `OnBufferedAmountChange` already state, gathered in
      one place for the step lemmas below. `ApplyAppends` derives it from
      those contracts. */
  ghost function Added<P, A>(c: Consumer<P, A>, call: Call): seq<Notification> {
    match call
    case CloseCall => if IsClosed(c) then [] else [PrivateClose]
    case TransportClosedCall => if IsClosed(c) then [] else [TransportClose]
    case StateChange(s) => StateNotifications(s)
    case Message(b) => [ToListener(ListenerEvent.OnMessage(b))]
    case BufferedAmountChange(_) => []
  }

  /** A call only ever appends to the trace, and what it appends is `Added`. */
  lemma ApplyAppends<P, A>(c: Consumer<P, A>, call: Call)
    ensures Apply(c, call).trace == c.trace + Added(c, call)
  {
  }

  /** Only a close request that closes an open consumer appends a close
      notification. */
  lemma AddedCloseNotifications<P, A>(c: Consumer<P, A>, call: Call)
    ensures Count(Added(c, call), PrivateClose) == (if call.CloseCall? && !IsClosed(c) then 1 else 0)
    ensures Count(Added(c, call), TransportClose) == (if call.TransportClosedCall? && !IsClosed(c) then 1 else 0)
  {
  }

  /** Every single call keeps the lifecycle invariant. */
  lemma ApplyPreservesValid<P, A>(c: Consumer<P, A>, call: Call)
    requires Valid(c)
    ensures Valid(Apply(c, call))
  {
    ApplyAppends(c, call);
    AddedCloseNotifications(c, call);
    CountAppend(c.trace, Added(c, call), PrivateClose);
    CountAppend(c.trace, Added(c, call), TransportClose);
  }

  /** Every sequence of calls keeps the lifecycle invariant. */
  lemma {:induction false} RunPreservesValid<P, A>(c: Consumer<P, A>, calls: seq<Call>)
    requires Valid(c)
    ensures Valid(Run(c, calls))
    decreases |calls|
  {
    if calls != [] {
      ApplyPreservesValid(c, calls[0]);
      RunPreservesValid(Apply(c, calls[0]), calls[1..]);
    }
  }

  /** Running `a` and then `b` is running `a + b`. */
  lemma {:induction false} RunAppend<P, A>(c: Consumer<P, A>, a: seq<Call>, b: seq<Call>)
    ensures Run(c, a + b) == Run(Run(c, a), b)
    decreases |a|
  {
    if a == [] {
      assert a + b == b;
    } else {
      assert (a + b)[0] == a[0];
      assert (a + b)[1..] == a[1..] + b;
      RunAppend(Apply(c, a[0]), a[1..], b);
    }
  }

  /** Whatever calls a fresh consumer receives, the channel is asked to close
      at most once; a closed consumer has delivered exactly one of the two
      close notifications, and an open one neither. */
  lemma CloseRequestedAtMostOnce<P, A>(id: string, dataProducerId: string, sctpParameters: P, appData: A, calls: seq<Call>)
    ensures var r := Run(New(id, dataProducerId, sctpParameters, appData), calls);
            r.channelCloses <= 1
            && (IsClosed(r) ==>
                  (Count(r.trace, PrivateClose) == 1 && Count(r.trace, TransportClose) == 0)
                  || (Count(r.trace, PrivateClose) == 0 && Count(r.trace, TransportClose) == 1))
            && (!IsClosed(r) ==>
                  r.channelCloses == 0
                  && PrivateClose !in r.trace && TransportClose !in r.trace)
  {
    RunPreservesValid(New(id, dataProducerId, sctpParameters, appData), calls);
  }

  /** A consumer ends up closed exactly when it started closed or one of the
      calls was a close request. */
  lemma {:induction false} RunClosedIff<P, A>(c: Consumer<P, A>, calls: seq<Call>)
    ensures IsClosed(Run(c, calls))
            <==> IsClosed(c) || exists i :: 0 <= i < |calls| && calls[i].IsCloseRequest()
    decreases |calls|
  {
    if calls != [] {
      RunClosedIff(Apply(c, calls[0]), calls[1..]);
      if exists i :: 0 <= i < |calls[1..]| && calls[1..][i].IsCloseRequest() {
        var i :| 0 <= i < |calls[1..]| && calls[1..][i].IsCloseRequest();
        assert calls[i + 1].IsCloseRequest();
      }
      if exists i :: 0 <= i < |calls| && calls[i].IsCloseRequest() {
        var i :| 0 <= i < |calls| && calls[i].IsCloseRequest();
        if i > 0 {
          assert calls[1..][i - 1].IsCloseRequest();
        }
      }
    }
  }

  /** Once a close request has been made, the consumer reports itself closed
      after every later call, whatever those calls are. */
  lemma ClosedAfterCloseRequest<P, A>(c: Consumer<P, A>, calls: seq<Call>, i: nat, k: nat)
    requires i < k <= |calls|
    requires calls[i].IsCloseRequest()
    ensures IsClosed(Run(c, calls[..k]))
  {
    assert calls[..k] == calls[..i + 1] + calls[i + 1..k];
    RunAppend(c, calls[..i + 1], calls[i + 1..k]);
    assert calls[..i + 1][i].IsCloseRequest();
    RunClosedIff(c, calls[..i + 1]);
  }

  /** State, message and buffered-amount events never close the consumer and
      never ask the channel to close, however many of them arrive. */
  lemma {:induction false} EventsLeaveLifecycleAlone<P, A>(c: Consumer<P, A>, calls: seq<Call>)
    requires forall i :: 0 <= i < |calls| ==> !calls[i].IsCloseRequest()
    ensures IsClosed(Run(c, calls)) == IsClosed(c)
    ensures Run(c, calls).channelCloses == c.channelCloses
    decreases |calls|
  {
    if calls != [] {
      assert !calls[0].IsCloseRequest();
      EventsLeaveLifecycleAlone(Apply(c, calls[0]), calls[1..]);
    }
  }

  /** On a closed consumer, any number of further close requests, from
      either side and in any order, change nothing at all. */
  lemma {:induction false} CloseRequestsOnClosedAreNoOps<P, A>(c: Consumer<P, A>, calls: seq<Call>)
    requires IsClosed(c)
    requires forall i :: 0 <= i < |calls| ==> calls[i].IsCloseRequest()
    ensures Run(c, calls) == c
    decreases |calls|
  {
    if calls != [] {
      assert calls[0].IsCloseRequest();
      CloseRequestsOnClosedAreNoOps(Apply(c, calls[0]), calls[1..]);
    }
  }

  /** Both close paths are idempotent, and each is a no-op after the other. */
  lemma ClosePathsIdempotent<P, A>(c: Consumer<P, A>)
    ensures Close(Close(c)) == Close(c)
    ensures TransportClosed(TransportClosed(c)) == TransportClosed(c)
    ensures TransportClosed(Close(c)) == Close(c)
    ensures Close(TransportClosed(c)) == TransportClosed(c)
  {
  }

  /** On a closed consumer, a single call adds no close notification and
      asks the channel for no further close. */
  lemma ClosedStepAddsNoCloseNotification<P, A>(c: Consumer<P, A>, call: Call)
    requires IsClosed(c)
    ensures Count(Apply(c, call).trace, PrivateClose) == Count(c.trace, PrivateClose)
    ensures Count(Apply(c, call).trace, TransportClose) == Count(c.trace, TransportClose)
    ensures Apply(c, call).channelCloses == c.channelCloses
  {
    ApplyAppends(c, call);
    AddedCloseNotifications(c, call);
    CountAppend(c.trace, Added(c, call), PrivateClose);
    CountAppend(c.trace, Added(c, call), TransportClose);
  }

  /** After a consumer is closed, no call adds a close notification or asks
      the channel to close again. */
  lemma {:induction false} ClosedRunAddsNoCloseNotification<P, A>(c: Consumer<P, A>, calls: seq<Call>)
    requires IsClosed(c)
    ensures Count(Run(c, calls).trace, PrivateClose) == Count(c.trace, PrivateClose)
    ensures Count(Run(c, calls).trace, TransportClose) == Count(c.trace, TransportClose)
    ensures Run(c, calls).channelCloses == c.channelCloses
    decreases |calls|
  {
    if calls != [] {
      ClosedStepAddsNoCloseNotification(c, calls[0]);
      ClosedRunAddsNoCloseNotification(Apply(c, calls[0]), calls[1..]);
    }
  }

  /** The close request that closes an open, valid consumer delivers the
      notification of its own path and not the other. */
  lemma CloseRequestCounts<P, A>(c: Consumer<P, A>, call: Call)
    requires Valid(c) && !IsClosed(c) && call.IsCloseRequest()
    ensures Count(Apply(c, call).trace, PrivateClose) == (if call.CloseCall? then 1 else 0)
    ensures Count(Apply(c, call).trace, TransportClose) == (if call.TransportClosedCall? then 1 else 0)
  {
    ApplyAppends(c, call);
    AddedCloseNotifications(c, call);
    CountAppend(c.trace, Added(c, call), PrivateClose);
    CountAppend(c.trace, Added(c, call), TransportClose);
  }

  /** A run splits around any one of its calls. */
  lemma RunSplitAt<P, A>(c: Consumer<P, A>, calls: seq<Call>, i: nat)
    requires i < |calls|
    ensures Run(c, calls) == Run(Apply(Run(c, calls[..i]), calls[i]), calls[i + 1..])
  {
    var after := calls[i..];
    assert calls == calls[..i] + after;
    RunAppend(c, calls[..i], after);
    assert after[0] == calls[i] && after[1..] == calls[i + 1..];
  }

  /** The first close request decides the path for good: if it is `Close`,
      the private listener hears `OnClose` once and the application listener
      never hears `OnTransportClose`; if it is `TransportClosed`, the other
      way round. */
  lemma FirstCloseRequestDecidesPath<P, A>(id: string, dataProducerId: string, sctpParameters: P, appData: A, calls: seq<Call>, i: nat)
    requires i < |calls| && calls[i].IsCloseRequest()
    requires forall j :: 0 <= j < i ==> !calls[j].IsCloseRequest()
    ensures var r := Run(New(id, dataProducerId, sctpParameters, appData), calls);
            Count(r.trace, PrivateClose) == (if calls[i].CloseCall? then 1 else 0)
            && Count(r.trace, TransportClose) == (if calls[i].TransportClosedCall? then 1 else 0)
  {
    var c0 := New(id, dataProducerId, sctpParameters, appData);
    var before := calls[..i];
    assert forall j :: 0 <= j < |before| ==> before[j] == calls[j];
    EventsLeaveLifecycleAlone(c0, before);
    RunPreservesValid(c0, before);
    var c1 := Run(c0, before);
    CloseRequestCounts(c1, calls[i]);
    ClosedRunAddsNoCloseNotification(Apply(c1, calls[i]), calls[i + 1..]);
    RunSplitAt(c0, calls, i);
  }

  /** The construction arguments are returned unchanged by the accessors
      after any sequence of calls, closing included. */
  lemma AccessorsStable<P, A>(id: string, dataProducerId: string, sctpParameters: P, appData: A, calls: seq<Call>)
    ensures var r := Run(New(id, dataProducerId, sctpParameters, appData), calls);
            GetId(r) == id && GetDataProducerId(r) == dataProducerId
            && GetSctpStreamParameters(r) == sctpParameters && GetAppData(r) == appData
  {
  }

  /** One call adds its buffer, if it is a message call, to the buffers the
      application listener has received, and nothing else. */
  lemma MessagesStep<P, A>(c: Consumer<P, A>, call: Call)
    ensures Messages(Apply(c, call).trace) == Messages(c.trace) + (if call.Message? then [call.buffer] else [])
  {
    var d := Added(c, call);
    ApplyAppends(c, call);
    MessagesAppend(c.trace, d);
    if d != [] {
      assert d == [d[0]];
      MessagesSingleton(d[0]);
    }
  }

  /** The buffers the application listener receives during a run are exactly
      the buffers of the run's message calls, byte for byte and in order. */
  lemma {:induction false} MessagesForwardedInOrder<P, A>(c: Consumer<P, A>, calls: seq<Call>)
    ensures Messages(Run(c, calls).trace) == Messages(c.trace) + Delivered(calls)
    decreases |calls|
  {
    if calls != [] {
      MessagesStep(c, calls[0]);
      MessagesForwardedInOrder(Apply(c, calls[0]), calls[1..]);
    }
  }

  /** One call adds the state it reports, if it is a state change to a
      recognised state, to the states the application listener has been
      told about, and nothing else. */
  lemma StatesStep<P, A>(c: Consumer<P, A>, call: Call)
    ensures ReportedStates(Apply(c, call).trace)
            == ReportedStates(c.trace) + (if call.StateChange? && call.state != Other then [call.state] else [])
  {
    var d := Added(c, call);
    ApplyAppends(c, call);
    ReportedStatesAppend(c.trace, d);
    if d != [] {
      assert d == [d[0]];
      ReportedStatesSingleton(d[0]);
    }
  }

  /** The states reported to the application listener during a run are
      exactly the recognised states of the run's state-change calls, in
      order; unrecognised states are dropped. */
  lemma {:induction false} StatesReportedInOrder<P, A>(c: Consumer<P, A>, calls: seq<Call>)
    ensures ReportedStates(Run(c, calls).trace) == ReportedStates(c.trace) + RecognizedStates(calls)
    decreases |calls|
  {
    if calls != [] {
      StatesStep(c, calls[0]);
      StatesReportedInOrder(Apply(c, calls[0]), calls[1..]);
    }
  }

  /** A concrete session: the channel opens, one two-byte binary message
      arrives, the application closes the consumer and the transport then
      closes too. The application listener hears `OnOpen` and the message;
      the private listener hears `OnClose`; the late transport close does
      nothing. */
  lemma ExampleSession<P, A>(sctpParameters: P, appData: A)
    ensures var buffer := DataBuffer([0xAA, 0xBB], true);
            var r := Run(New("dc1", "p1", sctpParameters, appData),
                         [StateChange(Open), Message(buffer), CloseCall, TransportClosedCall]);
            r.trace == [ToListener(OnOpen), ToListener(ListenerEvent.OnMessage(buffer)), PrivateClose]
            && IsClosed(r) && r.channelCloses == 1
  {
    var buffer := DataBuffer([0xAA, 0xBB], true);
    var calls := [StateChange(Open), Message(buffer), CloseCall, TransportClosedCall];
    var c0 := New("dc1", "p1", sctpParameters, appData);
    var c1 := OnStateChange(c0, Open);
    var c2 := DataConsumer.OnMessage(c1, buffer);
    var c3 := Close(c2);
    assert calls[1..][1..][1..][1..] == [];
    assert Run(c0, calls) == Run(c1, calls[1..]) == Run(c2, calls[1..][1..]) == Run(c3, calls[1..][1..][1..]);
    assert Run(c3, calls[1..][1..][1..]) == TransportClosed(c3) == c3;
  }
}
