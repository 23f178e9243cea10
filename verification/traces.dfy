/**
  The daemon driven by an arbitrary sequence of messages: what it answers, in which
  order, and what is left waiting.
*/
module Traces {
  import opened Options
  import opened Daemon

  /** Where a run ends and the answers it gave, in the order given. */
  datatype Run = Run(final: State, answers: seq<Answer>)

  /** The requests a trace brings in, in arrival order. */
  function Arrivals(trace: seq<Message>): seq<Pending>
    decreases |trace|
  {
    if |trace| == 0 then [] else Arrived(trace[0]) + Arrivals(trace[1..])
  }

  /** The requests a list of answers went to. */
  function Items(answers: seq<Answer>): (r: seq<Pending>)
    ensures |r| == |answers|
    ensures forall i :: 0 <= i < |answers| ==> r[i] == answers[i].to
  {
    seq(|answers|, i requires 0 <= i < |answers| => answers[i].to)
  }

  function RunFrom(s: State, trace: seq<Message>): Run
    decreases |trace|
  {
    if |trace| == 0 then Run(s, [])
    else
      var step := Update(s, trace[0]);
      var rest := RunFrom(step.state, trace[1..]);
      Run(rest.final, (if step.answer.Some? then [step.answer.value] else []) + rest.answers)
  }

  /** No two requests in the list share a response handle. */
  ghost predicate DistinctReplies(ps: seq<Pending>)
  {
    forall i, j :: 0 <= i < j < |ps| ==> ps[i].respondTo != ps[j].respondTo
  }

  /**
    From any well-formed state, the requests answered followed by those still in line
    are exactly the requests in line at the start followed by those that arrived: no
    request is lost, duplicated or reordered.
  */
  lemma {:induction false} LineConserved(s: State, trace: seq<Message>)
    requires Inv(s)
    ensures Inv(RunFrom(s, trace).final)
    ensures Items(RunFrom(s, trace).answers) + Line(RunFrom(s, trace).final) == Line(s) + Arrivals(trace)
    decreases |trace|
  {
    if |trace| > 0 {
      var step := Update(s, trace[0]);
      var rest := RunFrom(step.state, trace[1..]);
      var first: seq<Answer> := if step.answer.Some? then [step.answer.value] else [];
      assert RunFrom(s, trace) == Run(rest.final, first + rest.answers);
      LineConserved(step.state, trace[1..]);
      ItemsAppend(first, rest.answers);
      assert Items(first) == AnsweredItem(step.answer);
      Regroup(AnsweredItem(step.answer), Items(rest.answers), Line(rest.final),
              Line(s), Arrived(trace[0]), Arrivals(trace[1..]), Line(step.state));
    }
  }

  lemma ItemsAppend(a: seq<Answer>, b: seq<Answer>)
    ensures Items(a + b) == Items(a) + Items(b)
  {
  }

  /** The bookkeeping step of LineConserved: one step's equation followed by the rest's. */
  lemma Regroup<T>(answered: seq<T>, later: seq<T>, left: seq<T>, line: seq<T>, arrived: seq<T>, arriving: seq<T>, mid: seq<T>)
    requires line + arrived == answered + mid
    requires later + left == mid + arriving
    ensures (answered + later) + left == line + (arrived + arriving)
  {
    calc {
      (answered + later) + left;
      answered + (later + left);
      answered + (mid + arriving);
      (answered + mid) + arriving;
      (line + arrived) + arriving;
    }
  }

  /**
    Started from boot, the daemon answers requests in arrival order, the request on
    screen is the oldest unanswered one, the queue holds the rest in arrival order, and
    on screen plus queued is the number arrived minus the number answered.
  */
  lemma FifoFromBoot(trace: seq<Message>)
    ensures var run := RunFrom(Boot().0, trace); var arrivals := Arrivals(trace); var k := |run.answers|;
      && Inv(run.final)
      && k <= |arrivals|
      && Items(run.answers) == arrivals[..k]
      && Line(run.final) == arrivals[k..]
      && (run.final.current.Some? ==> k < |arrivals| && run.final.current.value == arrivals[k])
      && (if run.final.current.Some? then 1 else 0) + |run.final.queue| == |arrivals| - k
  {
    var run := RunFrom(Boot().0, trace);
    LineConserved(Boot().0, trace);
    assert Items(run.answers) + Line(run.final) == Arrivals(trace);
  }

  /** When the arriving requests carry distinct handles, no handle is answered twice. */
  lemma AnsweredAtMostOnce(trace: seq<Message>)
    requires DistinctReplies(Arrivals(trace))
    ensures var answers := RunFrom(Boot().0, trace).answers;
      forall i, j :: 0 <= i < j < |answers| ==> answers[i].to.respondTo != answers[j].to.respondTo
  {
    FifoFromBoot(trace);
    var answers := RunFrom(Boot().0, trace).answers;
    var arrivals := Arrivals(trace);
    forall i, j | 0 <= i < j < |answers|
      ensures answers[i].to.respondTo != answers[j].to.respondTo
    {
      assert answers[i].to == Items(answers)[i] == arrivals[i];
      assert answers[j].to == Items(answers)[j] == arrivals[j];
    }
  }

  /** The three-request walk-through: approve, reject, approve, then idle with the window closed. */
  lemma ThreeRequestScenario(a: Pending, b: Pending, c: Pending)
    ensures var run := RunFrom(Boot().0, [Incoming(a), Incoming(b), Incoming(c), Approved, Rejected, Approved]);
      && run.answers == [Answer(a, true), Answer(b, false), Answer(c, true)]
      && run.final == Boot().0
    // the final approval empties the screen and closes the window
    ensures Update(RunFrom(Boot().0, [Incoming(a), Incoming(b), Incoming(c), Approved, Rejected]).final, Approved).task
      == CloseWindow
  {
    var s0 := Boot().0;
    var r1 := Update(s0, Incoming(a));
    var r2 := Update(r1.state, Incoming(b));
    var r3 := Update(r2.state, Incoming(c));
    var r4 := Update(r3.state, Approved);
    var r5 := Update(r4.state, Rejected);
    var r6 := Update(r5.state, Approved);
    assert r3.state == State(Some(a), [b, c], true);
    assert r4.state == State(Some(b), [c], true) && r4.answer == Some(Answer(a, true));
    assert r5.state == State(Some(c), [], true) && r5.answer == Some(Answer(b, false));
    assert r6.state == s0 && r6.answer == Some(Answer(c, true)) && r6.task == CloseWindow;
    var t := [Incoming(a), Incoming(b), Incoming(c), Approved, Rejected, Approved];
    assert RunFrom(r6.state, t[6..]) == Run(s0, []);
    assert RunFrom(r5.state, t[5..]) == Run(s0, [Answer(c, true)]);
    assert RunFrom(r4.state, t[4..]) == Run(s0, [Answer(b, false), Answer(c, true)]);
    assert RunFrom(r3.state, t[3..]) == Run(s0, [Answer(a, true), Answer(b, false), Answer(c, true)]);
    assert RunFrom(r2.state, t[2..]) == RunFrom(r3.state, t[3..]);
    assert RunFrom(r1.state, t[1..]) == RunFrom(r2.state, t[2..]);
    var u := [Incoming(a), Incoming(b), Incoming(c), Approved, Rejected];
    assert RunFrom(r5.state, u[5..]) == Run(r5.state, []);
    assert RunFrom(r4.state, u[4..]).final == r5.state;
    assert RunFrom(r3.state, u[3..]).final == r5.state;
    assert RunFrom(r2.state, u[2..]).final == r5.state;
    assert RunFrom(r1.state, u[1..]).final == r5.state;
  }
}
