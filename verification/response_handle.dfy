/**
  ResponseHandle: the single-use path by which one request's answer reaches the
  submitter waiting on it. The handle is a take-once cell holding the write end of a
  oneshot channel; the waiter holds the read end.
*/
module ResponseHandles {
  import opened Options
  import opened TakeOnce

  /** The write end of a oneshot channel; it can send once, which consumes it. */
  datatype Sender = Sender

  /** What the waiter can observe: nothing yet, a value, or a sender gone without sending. */
  datatype Inbox = Waiting | Delivered(value: bool) | Closed

  /** Why `response.await` failed: the sender was dropped without sending. */
  datatype RecvError = RecvError

  /**
    One request's reply path: the handle's shared cell and the oneshot it feeds.
    `waiterAlive` is false once the waiting side has been dropped (its caller went away).
  */
  datatype Reply = Reply(handle: Slot<Sender>, waiterAlive: bool, inbox: Inbox)

  /** A sender still in the cell has not sent, and a live waiter sees Waiting only while one is there. */
  predicate Wf(r: Reply)
  {
    && (r.handle.content.Some? ==> r.inbox == Waiting)
    && (r.waiterAlive && r.inbox == Waiting ==> r.handle.content.Some?)
  }

  /** A new oneshot pair with its sender wrapped in a new handle. */
  function Fresh(): (r: Reply)
    ensures Wf(r) && r.waiterAlive && r.inbox == Waiting && !r.handle.poisoned
  {
    Reply(Filled(Sender), true, Waiting)
  }

  /**
    `respond(approved)`: lock the cell and take the sender out, then send on it. The
    sender is taken whether or not the send succeeds; a failed send (waiter gone) is
    ignored. A poisoned lock or an empty cell makes the call a no-op.
  */
  function Respond(r: Reply, approved: bool): (r': Reply)
    ensures r'.waiterAlive == r.waiterAlive && r'.handle.poisoned == r.handle.poisoned
    ensures Wf(r) ==> Wf(r')
    // a healthy cell is empty after any respond
    ensures !r.handle.poisoned ==> r'.handle.content.None?
    // a value reaches the waiter only through the call that took the sender while the waiter was there
    ensures r'.inbox == (if !r.handle.poisoned && r.handle.content.Some? && r.waiterAlive then Delivered(approved) else r.inbox)
    // once the sender is gone (or the lock is poisoned) respond changes nothing
    ensures r.handle.poisoned || r.handle.content.None? ==> r' == r
  {
    var (cell, taken) := Take(r.handle);
    match taken
    case None => r.(handle := cell)
    case Some(_) => if r.waiterAlive then Reply(cell, true, Delivered(approved)) else r.(handle := cell)
  }

  /** Successive `respond` calls on one handle (through any of its clones), in order. */
  function RespondAll(r: Reply, outcomes: seq<bool>): Reply
    decreases |outcomes|
  {
    if |outcomes| == 0 then r else RespondAll(Respond(r, outcomes[0]), outcomes[1..])
  }

  /** Every clone of the handle dropped: the sender, if still in the cell, goes with it. */
  function DropHandle(r: Reply): (r': Reply)
    ensures Wf(r) ==> Wf(r')
    ensures r'.handle.content.None?
    // a live waiter still waiting is woken with "closed"; a delivered value stays delivered
    ensures Wf(r) && r.waiterAlive && r.inbox == Waiting ==> r'.inbox == Closed
    ensures r.inbox != Waiting ==> r'.inbox == r.inbox
  {
    r.(handle := r.handle.(content := None), inbox := if r.handle.content.Some? && r.inbox == Waiting then Closed else r.inbox)
  }

  /** The waiter dropped its end (its caller went away). */
  function Abandon(r: Reply): (r': Reply)
    ensures Wf(r) ==> Wf(r')
    ensures !r'.waiterAlive && r'.handle == r.handle
  {
    r.(waiterAlive := false)
  }

  /**
    Answering a request whose caller went away is harmless: the sender is still taken
    out of a healthy cell, the failed send is ignored, and nothing reaches the inbox.
  */
  lemma RespondAfterAbandonIsHarmless(r: Reply, approved: bool)
    requires Wf(r)
    ensures var r' := Respond(Abandon(r), approved);
      && r'.inbox == r.inbox
      && !r'.waiterAlive
      && (!r.handle.poisoned ==> r'.handle.content.None?)
      && Wf(r')
  {
  }

  /** `response.await` as the waiter sees it: `None` while still suspended. */
  function Await(r: Reply): (o: Option<Result<bool, RecvError>>)
    ensures o == None <==> r.inbox == Waiting
    ensures o.Some? && o.value.Ok? <==> r.inbox.Delivered?
    ensures r.inbox.Delivered? ==> o == Some(Ok(r.inbox.value))
  {
    match r.inbox
    case Waiting => None
    case Delivered(v) => Some(Ok(v))
    case Closed => Some(Err(RecvError))
  }

  /** After the first respond, every later respond on the same handle is a no-op. */
  lemma {:induction false} LaterRespondsAreNoOps(r: Reply, outcomes: seq<bool>)
    requires r.handle.poisoned || r.handle.content.None?
    ensures RespondAll(r, outcomes) == r
    decreases |outcomes|
  {
    if |outcomes| > 0 {
      assert Respond(r, outcomes[0]) == r;
      LaterRespondsAreNoOps(r, outcomes[1..]);
    }
  }

  /** Of any number of respond calls on one handle, only the first has an effect. */
  lemma {:induction false} FirstRespondWins(r: Reply, outcomes: seq<bool>)
    requires |outcomes| > 0
    ensures RespondAll(r, outcomes) == Respond(r, outcomes[0])
  {
    var r1 := Respond(r, outcomes[0]);
    if r.handle.poisoned {
      LaterRespondsAreNoOps(r1, outcomes[1..]);
    } else {
      assert r1.handle.content.None?;
      LaterRespondsAreNoOps(r1, outcomes[1..]);
    }
  }

  /**
    A fresh reply answered any number of times delivers exactly the first answer; never
    answered, it is still waiting.
  */
  lemma FreshReplyGetsFirstAnswer(outcomes: seq<bool>)
    ensures |outcomes| > 0 ==> Await(RespondAll(Fresh(), outcomes)) == Some(Ok(outcomes[0]))
    ensures |outcomes| == 0 ==> Await(RespondAll(Fresh(), outcomes)) == None
  {
    if |outcomes| > 0 {
      FirstRespondWins(Fresh(), outcomes);
    }
  }
}
