/**
  The submitting side: `request_validation` builds a command around a new reply path,
  sends it on the command channel and, if that worked, waits for the answer; anything
  but a delivered `true` ends in `false`.
*/
module Adapter {
  import opened Options
  import opened Notification
  import opened Daemon
  import opened ResponseHandles
  import opened Delivery

  /**
    The unbounded command channel as submitters see it: `open` while its receiving end
    exists; sent commands wait in `buffer` in send order.
  */
  datatype Channel = Channel(open: bool, buffer: seq<Pending>)

  /**
    How a `request_validation` call stands: returned already, or suspended on its reply
    `awaiting` after its command went into `channel`, with the reply paths `replies`.
  */
  datatype Call = Returned(value: bool) | Suspended(channel: Channel, replies: Replies, awaiting: ReplyId)

  /** `send` on the unbounded channel: never waits, fails only when the receiving end is gone. */
  function Send(ch: Channel, command: Pending): (r: Option<Channel>)
    ensures r.Some? <==> ch.open
    ensures r.Some? ==> r.value.open && r.value.buffer == ch.buffer + [command]
  {
    if ch.open then Some(ch.(buffer := ch.buffer + [command])) else None
  }

  /**
    The first half of `request_validation`, up to `response.await`. `id` names the new
    oneshot pair and handle this call creates, so it is not yet in use.
  */
  function RequestValidation(ch: Channel, replies: Replies, request: ValidationRequest, id: ReplyId): (c: Call)
    requires id !in replies
    // a closed channel gives false at once, without waiting
    ensures c.Returned? <==> !ch.open
    ensures c.Returned? ==> !c.value
    // otherwise the command, bound to a new single-use reply, joins the tail of the channel
    ensures c.Suspended? ==>
      && c.awaiting == id
      && c.channel == Channel(true, ch.buffer + [Pending(request, id)])
      && c.replies.Keys == replies.Keys + {id}
      && c.replies[id] == Fresh()
      && (forall other :: other in replies ==> c.replies[other] == replies[other])
  {
    var command := Pending(request, id);
    match Send(ch, command)
    case None => Returned(false)
    case Some(sent) => Suspended(sent, replies[id := Fresh()], id)
  }

  /** The second half: `response.await.unwrap_or(false)`. */
  function Resume(received: Result<bool, RecvError>): (approved: bool)
    // approval only when `true` was delivered; a dropped sender means rejection
    ensures approved <==> received == Ok(true)
    ensures received.Ok? ==> approved == received.value
  {
    match received
    case Ok(v) => v
    case Err(_) => false
  }

  /** The `NotificationPort` method: it hands the call to the inherent method unchanged. */
  function PortRequestValidation(ch: Channel, replies: Replies, request: ValidationRequest, id: ReplyId): (c: Call)
    requires id !in replies
    ensures c == RequestValidation(ch, replies, request, id)
    ensures !ch.open ==> c == Returned(false)
  {
    RequestValidation(ch, replies, request, id)
  }

  /**
    A request submitted on an open channel, shown by an idle daemon and decided by the
    operator, resumes its submitter with exactly that decision.
  */
  lemma DecisionReachesSubmitter(ch: Channel, replies: Replies, request: ValidationRequest, id: ReplyId, s: State, approved: bool)
    requires id !in replies && ch.open
    requires Inv(s) && s.current.None?
    ensures var c := RequestValidation(ch, replies, request, id);
      var shown := Update(s, Incoming(Pending(request, id)));
      var decided := Update(shown.state, if approved then Approved else Rejected);
      var out := Deliver(c.replies, [decided.answer.value]);
      && c.Suspended?
      && id in out && Await(out[id]).Some? && Resume(Await(out[id]).value) == approved
  {
    var c := RequestValidation(ch, replies, request, id);
    var shown := Update(s, Incoming(Pending(request, id)));
    var decided := Update(shown.state, if approved then Approved else Rejected);
    assert decided.answer == Some(Answer(Pending(request, id), approved));
    DeliverPerHandle(c.replies, [decided.answer.value], id);
    assert AnswersFor([decided.answer.value], id) == [approved];
    FreshReplyGetsFirstAnswer([approved]);
  }

  /**
    Fail-closed: a submitter whose reply path is dropped before any answer reaches it
    resumes with false.
  */
  lemma DroppedReplyRejects(r: Reply)
    requires Wf(r) && r.waiterAlive && r.inbox == Waiting
    ensures Await(DropHandle(r)).Some? && !Resume(Await(DropHandle(r)).value)
  {
  }

  /**
    A submitter is never told "approved" unless `true` was delivered to its handle, even
    if its handle's lock is poisoned or the daemon drops it.
  */
  lemma ApprovalNeedsDelivery(r: Reply, outcomes: seq<bool>)
    requires Wf(r) && r.inbox == Waiting
    ensures var settled := DropHandle(RespondAll(r, outcomes));
      Await(settled).Some? && Resume(Await(settled).value) ==>
        |outcomes| > 0 && outcomes[0] && !r.handle.poisoned && r.handle.content.Some?
  {
    if |outcomes| > 0 {
      FirstRespondWins(r, outcomes);
    } else {
      assert RespondAll(r, outcomes) == r;
    }
  }
}
