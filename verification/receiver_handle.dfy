/**
  ReceiverHandle: the take-once cell holding the consuming end of the command channel,
  and the request stream that the daemon's channel subscription builds from it.
*/
module ReceiverHandles {
  import opened Options
  import opened TakeOnce
  import opened Daemon

  /** The consuming end of the unbounded command channel. */
  datatype UnboundedReceiver = UnboundedReceiver

  type ReceiverHandle = Slot<UnboundedReceiver>

  /** `ReceiverHandle::new(receiver)`: a new cell holding the receiver. */
  function NewReceiverHandle(): ReceiverHandle
  {
    Filled(UnboundedReceiver)
  }

  /** Each received command becomes an Incoming message, in order. */
  function Forward(commands: seq<Pending>): (r: seq<Message>)
    ensures |r| == |commands|
    ensures forall i :: 0 <= i < |commands| ==> r[i] == Incoming(commands[i])
  {
    seq(|commands|, i requires 0 <= i < |commands| => Incoming(commands[i]))
  }

  /**
    `receive_requests`: take the receiver out of the handle; without one the stream ends
    at once. With one, each command `recv` yields (`received`, in channel order) is
    forwarded as Incoming until a forward fails: `failsAt`, when present, is the index of
    the first forward that fails, and that command and all later ones are not emitted.
  */
  function ReceiveRequests(h: ReceiverHandle, received: seq<Pending>, failsAt: Option<nat>): (r: (ReceiverHandle, seq<Message>))
    ensures r.0 == Take(h).0
    ensures Take(h).1.None? ==> r.1 == []
    ensures Take(h).1.Some? ==>
      && |r.1| <= |received|
      && (forall i :: 0 <= i < |r.1| ==> r.1[i] == Incoming(received[i]))
      && (failsAt.None? ==> |r.1| == |received|)
      && (failsAt.Some? ==> |r.1| == if failsAt.value < |received| then failsAt.value else |received|)
  {
    var (h', taken) := Take(h);
    match taken
    case None => (h', [])
    case Some(_) =>
      var n := if failsAt.Some? && failsAt.value < |received| then failsAt.value else |received|;
      (h', Forward(received[..n]))
  }

  /** A second subscription on the same handle gets no receiver and emits nothing. */
  lemma SecondSubscriptionIsSilent(h: ReceiverHandle, first: seq<Pending>, second: seq<Pending>, f1: Option<nat>, f2: Option<nat>)
    ensures ReceiveRequests(ReceiveRequests(h, first, f1).0, second, f2).1 == []
  {
  }

  /** Of any number of takes on a new handle, exactly the first yields the receiver. */
  lemma ReceiverTakenOnce(k: nat)
    ensures var results := TakeTimes(NewReceiverHandle(), k);
      forall i :: 0 <= i < k ==> (results[i].Some? <==> i == 0)
  {
  }
}
