/**
  The notification daemon's state machine. One request is on screen (`current`), the
  others wait in arrival order (`queue`), and `windowOpen` records whether the approval
  window exists (the source keeps its `window::Id`). Messages are the channel's
  `Incoming` commands and the operator's two decisions.
*/
module Daemon {
  import opened Options
  import opened Notification

  /**
    Names the shared cell behind a request's ResponseHandle. Every clone of the handle
    names the same cell.
  */
  type ReplyId = nat

  /**
    A request together with the handle its answer goes to. The source has two records
    with these fields, ValidationCommand (in transit) and PendingRequest (held by the
    daemon), and copies one into the other field by field; the model uses one.
  */
  datatype Pending = Pending(request: ValidationRequest, respondTo: ReplyId)

  datatype Message = Incoming(command: Pending) | Approved | Rejected

  /** The window effect an update hands back to the runtime. */
  datatype Task = NoTask | OpenWindow | CloseWindow

  /** `respond(approved)` called on the handle of `to`. */
  datatype Answer = Answer(to: Pending, approved: bool)

  datatype State = State(current: Option<Pending>, queue: seq<Pending>, windowOpen: bool)

  /** The new state, the task returned to the runtime, and the answer given, if any. */
  datatype Step = Step(state: State, task: Task, answer: Option<Answer>)

  /** The requests accepted and not yet answered, oldest first: the one on screen, then the queue. */
  function Line(s: State): seq<Pending>
  {
    (if s.current.Some? then [s.current.value] else []) + s.queue
  }

  /** Nothing waits while the screen is empty, and a window exists exactly while something is on it. */
  predicate Inv(s: State)
  {
    && (s.current.None? ==> s.queue == [])
    && (s.windowOpen <==> s.current.Some?)
  }

  /** The request a message brings in, if any. */
  function Arrived(m: Message): seq<Pending>
  {
    if m.Incoming? then [m.command] else []
  }

  /** The request an answer went to, if any. */
  function AnsweredItem(a: Option<Answer>): seq<Pending>
  {
    if a.Some? then [a.value.to] else []
  }

  /** The state the daemon starts in, and the task it starts with. */
  function Boot(): (r: (State, Task))
    ensures Inv(r.0) && Line(r.0) == [] && !r.0.windowOpen
    ensures r.1 == NoTask
  {
    (State(None, [], false), NoTask)
  }

  function Update(s: State, m: Message): (r: Step)
    // a request arriving at an empty screen goes on screen; a window opens unless one exists
    ensures m.Incoming? && s.current.None? ==>
      && r.state.current == Some(m.command) && r.state.queue == s.queue && r.state.windowOpen
      && (r.task == OpenWindow <==> !s.windowOpen) && r.task != CloseWindow && r.answer == None
    // a request arriving while another is on screen joins the tail of the queue, nothing else moves
    ensures m.Incoming? && s.current.Some? ==>
      r == Step(s.(queue := s.queue + [m.command]), NoTask, None)
    ensures m.Approved? ==> r == HandleDecision(s, true)
    ensures m.Rejected? ==> r == HandleDecision(s, false)
    // every accepted request is either answered by this step or still in line, in order
    ensures Inv(s) ==> Inv(r.state) && Line(s) + Arrived(m) == AnsweredItem(r.answer) + Line(r.state)
  {
    match m
    case Incoming(command) =>
      if s.current.None? then
        if !s.windowOpen then Step(s.(current := Some(command), windowOpen := true), OpenWindow, None)
        else Step(s.(current := Some(command)), NoTask, None)
      else Step(s.(queue := s.queue + [command]), NoTask, None)
    case Approved => HandleDecision(s, true)
    case Rejected => HandleDecision(s, false)
  }

  function HandleDecision(s: State, approved: bool): (r: Step)
    // the request on screen, and only it, gets the decision
    ensures s.current.Some? ==> r.answer == Some(Answer(s.current.value, approved))
    ensures s.current.None? ==> r.answer == None
    // the queue head goes on screen, the rest keeps its order
    ensures |s.queue| > 0 ==> r.state == State(Some(s.queue[0]), s.queue[1..], s.windowOpen) && r.task == NoTask
    // with nothing queued the daemon goes idle and closes the window if it has one
    ensures |s.queue| == 0 ==>
      r.state == State(None, [], false) && (r.task == CloseWindow <==> s.windowOpen) && r.task != OpenWindow
    ensures Inv(s) ==> Inv(r.state) && Line(s) == AnsweredItem(r.answer) + Line(r.state)
  {
    var answer := if s.current.Some? then Some(Answer(s.current.value, approved)) else None;
    if |s.queue| > 0 then Step(State(Some(s.queue[0]), s.queue[1..], s.windowOpen), NoTask, answer)
    else if s.windowOpen then Step(State(None, [], false), CloseWindow, answer)
    else Step(State(None, [], false), NoTask, answer)
  }

  /** The window title: the on-screen request's title, or "Validation" when there is none. */
  function Title(s: State): (r: string)
    ensures Inv(s) ==> r == (if Line(s) == [] then "Validation" else Line(s)[0].request.title)
  {
    if s.current.Some? then s.current.value.request.title else "Validation"
  }

  /** Inputs from the window: its two buttons and its close request. */
  datatype UiEvent = ApprovePressed | RejectPressed | CloseRequested

  /** The message each window input produces; a close request is a rejection. */
  function ToMessage(e: UiEvent): (m: Message)
    ensures m == (if e == ApprovePressed then Approved else Rejected)
    ensures !m.Incoming?
  {
    match e
    case ApprovePressed => Approved
    case RejectPressed => Rejected
    case CloseRequested => Rejected
  }

  /** Closing the window rejects only the request on screen; the queue is presented next, not drained. */
  lemma CloseRequestRejectsOnlyCurrent(s: State)
    requires Inv(s) && s.current.Some?
    ensures var r := Update(s, ToMessage(CloseRequested));
      && r == Update(s, ToMessage(RejectPressed))
      && r.answer == Some(Answer(s.current.value, false))
      && Line(r.state) == s.queue
      && (s.queue != [] ==> r.state.current == Some(s.queue[0]) && r.state.windowOpen && r.task == NoTask)
      && (s.queue == [] ==> r.task == CloseWindow)
  {
  }

  /** A decision with nothing on screen answers nobody and changes nothing. */
  lemma IdleDecisionIsNoOp(s: State, approved: bool)
    requires Inv(s) && s.current.None?
    ensures HandleDecision(s, approved) == Step(s, NoTask, None)
  {
  }

  /**
    A second decision right after a first one is not ignored when something is queued:
    it answers the request that the first one brought on screen.
  */
  lemma RepeatedDecision(s: State, first: bool, second: bool)
    requires Inv(s) && s.current.Some?
    ensures var r1 := HandleDecision(s, first); var r2 := HandleDecision(r1.state, second);
      && r1.answer == Some(Answer(s.current.value, first))
      && (s.queue != [] ==> r2.answer == Some(Answer(s.queue[0], second)))
      && (s.queue == [] ==> r2 == Step(r1.state, NoTask, None))
  {
  }
}
