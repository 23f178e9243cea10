/**
  The daemon's answers applied to the reply paths they name: each answer is a
  `respond` call on the shared cell of the answered request's handle.
*/
module Delivery {
  import opened Options
  import opened Daemon
  import opened ResponseHandles
  import opened Traces

  /** The reply path of every request in flight, by handle. */
  type Replies = map<ReplyId, Reply>

  function Deliver(rs: Replies, answers: seq<Answer>): (r: Replies)
    ensures r.Keys == rs.Keys
    decreases |answers|
  {
    if |answers| == 0 then rs
    else
      var id := answers[0].to.respondTo;
      var rs' := if id in rs then rs[id := Respond(rs[id], answers[0].approved)] else rs;
      Deliver(rs', answers[1..])
  }

  /** The outcomes sent to handle `id`, in the order sent. */
  function AnswersFor(answers: seq<Answer>, id: ReplyId): seq<bool>
    decreases |answers|
  {
    if |answers| == 0 then []
    else (if answers[0].to.respondTo == id then [answers[0].approved] else []) + AnswersFor(answers[1..], id)
  }

  /** Every clone of every handle dropped: the daemon is gone. */
  function DropAll(rs: Replies): (r: Replies)
    ensures r.Keys == rs.Keys
    ensures forall id :: id in rs ==> r[id] == DropHandle(rs[id])
  {
    map id | id in rs :: DropHandle(rs[id])
  }

  /** Delivering a list of answers acts on each handle as the answers sent to it, in order. */
  lemma {:induction false} DeliverPerHandle(rs: Replies, answers: seq<Answer>, id: ReplyId)
    requires id in rs
    ensures Deliver(rs, answers)[id] == RespondAll(rs[id], AnswersFor(answers, id))
    decreases |answers|
  {
    if |answers| > 0 {
      var a := answers[0];
      var rs' := if a.to.respondTo in rs then rs[a.to.respondTo := Respond(rs[a.to.respondTo], a.approved)] else rs;
      assert Deliver(rs, answers) == Deliver(rs', answers[1..]);
      DeliverPerHandle(rs', answers[1..], id);
      if a.to.respondTo == id {
        var tail := AnswersFor(answers[1..], id);
        assert AnswersFor(answers, id) == [a.approved] + tail;
        assert ([a.approved] + tail)[1..] == tail;
      } else {
        assert AnswersFor(answers, id) == AnswersFor(answers[1..], id);
      }
    }
  }

  /** A handle no answer names receives nothing. */
  lemma {:induction false} AnswersForAbsent(answers: seq<Answer>, id: ReplyId)
    requires forall j :: 0 <= j < |answers| ==> answers[j].to.respondTo != id
    ensures AnswersFor(answers, id) == []
    decreases |answers|
  {
    if |answers| > 0 {
      AnswersForAbsent(answers[1..], id);
    }
  }

  /** A handle named by exactly one answer receives exactly that answer's outcome. */
  lemma {:induction false} AnswersForUnique(answers: seq<Answer>, i: nat)
    requires i < |answers|
    requires forall j :: 0 <= j < |answers| && j != i ==> answers[j].to.respondTo != answers[i].to.respondTo
    ensures AnswersFor(answers, answers[i].to.respondTo) == [answers[i].approved]
    decreases |answers|
  {
    var id := answers[i].to.respondTo;
    if i == 0 {
      AnswersForAbsent(answers[1..], id);
      assert AnswersFor(answers, id) == [answers[0].approved] + AnswersFor(answers[1..], id);
    } else {
      AnswersForUnique(answers[1..], i - 1);
      assert answers[1..][i - 1] == answers[i];
    }
  }

  /**
    Started from boot with a fresh reply path per arriving request, every answered
    request's waiter receives exactly the outcome it was answered with, and every request
    still on screen or queued is still waiting.
  */
  lemma EachWaiterGetsItsAnswer(trace: seq<Message>, rs: Replies)
    requires DistinctReplies(Arrivals(trace))
    requires forall p :: p in Arrivals(trace) ==> p.respondTo in rs && rs[p.respondTo] == Fresh()
    ensures var run := RunFrom(Boot().0, trace); var out := Deliver(rs, run.answers);
      && (forall i :: 0 <= i < |run.answers| ==>
            run.answers[i].to.respondTo in out && Await(out[run.answers[i].to.respondTo]) == Some(Ok(run.answers[i].approved)))
      && (forall p :: p in Line(run.final) ==> p.respondTo in out && Await(out[p.respondTo]) == None)
  {
    var run := RunFrom(Boot().0, trace);
    var arrivals := Arrivals(trace);
    var k := |run.answers|;
    FifoFromBoot(trace);
    assert Items(run.answers) == arrivals[..k];
    forall i | 0 <= i < k
      ensures run.answers[i].to.respondTo in Deliver(rs, run.answers)
      ensures Await(Deliver(rs, run.answers)[run.answers[i].to.respondTo]) == Some(Ok(run.answers[i].approved))
    {
      assert run.answers[i].to == Items(run.answers)[i] == arrivals[i];
      forall j | 0 <= j < k && j != i
        ensures run.answers[j].to.respondTo != run.answers[i].to.respondTo
      {
        assert run.answers[j].to == Items(run.answers)[j] == arrivals[j];
      }
      AnswersForUnique(run.answers, i);
      DeliverPerHandle(rs, run.answers, arrivals[i].respondTo);
      FreshReplyGetsFirstAnswer([run.answers[i].approved]);
    }
    forall p | p in Line(run.final)
      ensures p.respondTo in Deliver(rs, run.answers) && Await(Deliver(rs, run.answers)[p.respondTo]) == None
    {
      var m :| 0 <= m < |Line(run.final)| && Line(run.final)[m] == p;
      assert p == arrivals[k + m];
      forall j | 0 <= j < k
        ensures run.answers[j].to.respondTo != p.respondTo
      {
        assert run.answers[j].to == Items(run.answers)[j] == arrivals[j];
      }
      AnswersForAbsent(run.answers, p.respondTo);
      DeliverPerHandle(rs, run.answers, p.respondTo);
      FreshReplyGetsFirstAnswer([]);
    }
  }

  /**
    If the daemon then goes away, every request it had not answered resolves with the
    receive error, and every answered one keeps its outcome.
  */
  lemma ShutdownClosesUnanswered(trace: seq<Message>, rs: Replies)
    requires DistinctReplies(Arrivals(trace))
    requires forall p :: p in Arrivals(trace) ==> p.respondTo in rs && rs[p.respondTo] == Fresh()
    ensures var run := RunFrom(Boot().0, trace); var out := DropAll(Deliver(rs, run.answers));
      && (forall i :: 0 <= i < |run.answers| ==>
            run.answers[i].to.respondTo in out && Await(out[run.answers[i].to.respondTo]) == Some(Ok(run.answers[i].approved)))
      && (forall p :: p in Line(run.final) ==> p.respondTo in out && Await(out[p.respondTo]) == Some(Err(RecvError)))
  {
    var run := RunFrom(Boot().0, trace);
    var delivered := Deliver(rs, run.answers);
    EachWaiterGetsItsAnswer(trace, rs);
    forall p | p in Line(run.final)
      ensures p.respondTo in delivered && Wf(delivered[p.respondTo]) && delivered[p.respondTo].waiterAlive
    {
      FifoFromBoot(trace);
      var m :| 0 <= m < |Line(run.final)| && Line(run.final)[m] == p;
      assert p == Arrivals(trace)[|run.answers| + m];
      DeliverPerHandle(rs, run.answers, p.respondTo);
      forall j | 0 <= j < |run.answers|
        ensures run.answers[j].to.respondTo != p.respondTo
      {
        assert run.answers[j].to == Items(run.answers)[j] == Arrivals(trace)[j];
      }
      AnswersForAbsent(run.answers, p.respondTo);
    }
  }
}
