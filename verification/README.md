# Validation coordinator of omni, in Dafny

omni asks a human operator to approve or reject sensitive actions. Many callers submit
validation requests at once. One notification daemon shows them to the operator one at
a time and sends each caller its answer. This project models that daemon and proves its
promises:

- a state machine with one request on screen, a FIFO queue and an approval window;
- two take-once cells (`Arc<Mutex<Option<T>>>`). `ResponseHandle` wraps the write end of
  each caller's oneshot reply. `ReceiverHandle` wraps the consuming end of the command
  channel;
- the fail-closed submit, `request_validation`;
- separately, the per-platform resolution of the application data directory.

The daemon logic exists twice in the source: the same code, formatted differently. One copy is the
single file `src/adapters/iced_notification.rs`. The other is split into
`src/adapters/iced_notification/daemon.rs` and `.../adapter.rs`. It is modelled once.
The correspondences (single file → split module) are:

- `boot` 99-109 → daemon.rs 86-96
- `update` 111-139 → daemon.rs 98-124
- `handle_decision` 201-217 → daemon.rs 197-210
- the `title` closure 74-80 → daemon.rs 75-81
- the close request mapped to `Rejected` 167 → daemon.rs 162
- `receive_requests` 177-199 → daemon.rs 170-195
- `ReceiverHandle::take` 241-244 → daemon.rs 32-35
- `ResponseHandle::respond` 273-279 → daemon.rs 50-56
- `request_validation` 46-58 → adapter.rs 13-25
- the `NotificationPort` impl 61-66 → adapter.rs 28-33

Modules, one per file:

- `Options` (options.dfy): `Option` and `Result`.
- `Notification` (notification.dfy): the request record.
- `TakeOnce` (take_once.dfy): the shared take-once cell. Its `poisoned` flag stands for a
  lock that returns `Err`.
- `ResponseHandles` (response_handle.dfy): one request's reply path. This is the handle's
  cell plus the oneshot channel it feeds.
- `ReceiverHandles` (receiver_handle.dfy): the receiver cell and the request stream.
- `Daemon` (daemon.rs logic): `State(current, queue, windowOpen)`, the messages
  `Incoming | Approved | Rejected`, and window tasks as tags.
- `Traces`: the daemon run over any message sequence.
- `Delivery`: answers applied to the reply paths of the requests they name.
- `Adapter`: the submitting side.
- `AppPath`: path resolution. Paths are sequences of components and the environment is a
  map.

The central invariant is the "line": the request on screen followed by the queue.
`Traces.LineConserved` proves that answered requests followed by the line always equal
the starting line followed by the arrivals. FIFO order, conservation of the count and
"answered at most once" all follow from it.

Two consequences of the code are worth stating:

- There is no separate dismiss event. A window close request produces `Rejected`
  (src/adapters/iced_notification.rs:167). It answers only the request on screen with
  `false` and then presents the next queued request
  (`Daemon.CloseRequestRejectsOnlyCurrent`).
- A repeated `Approved`/`Rejected` is not ignored. It answers the request that the first
  decision brought on screen, and is a no-op only when the queue was empty
  (`Daemon.RepeatedDecision`).

## Model

| member | source | states |
|---|---|---|
| Daemon.Boot | src/adapters/iced_notification.rs:99-109 | the daemon starts idle: nothing on screen, nothing queued, no window, no task; the state invariant holds |
| Daemon.Update | src/adapters/iced_notification.rs:111-139 | an arriving request goes on screen if the screen is empty, with a window opened only if none is recorded, and otherwise joins the queue tail with nothing else changed; decisions go to handle_decision; the invariant "nothing queued while the screen is empty, window open iff something on screen" is preserved, and the line plus the arrival equals the answered request plus the new line |
| Daemon.HandleDecision | src/adapters/iced_notification/daemon.rs:197-210 | the on-screen request, and only it, is answered with the decision; the queue head is promoted with the rest in order, or with an empty queue the daemon goes idle and closes the window iff one was open; invariant and line conservation |
| Daemon.Title | src/adapters/iced_notification/daemon.rs:75-81 | the window title is the title of the oldest unanswered request, or "Validation" when there is none |
| Daemon.CloseRequestRejectsOnlyCurrent | src/adapters/iced_notification.rs:164-169 | a window close request is the same transition as Reject: it answers only the on-screen request with false, keeps the queue in order and presents its head; it closes the window only when nothing is queued |
| Daemon.IdleDecisionIsNoOp | src/adapters/iced_notification.rs:201-217 | a decision with nothing on screen answers nobody, changes no state and issues no task |
| Daemon.RepeatedDecision | src/adapters/iced_notification/daemon.rs:197-204 | a second decision right after a first answers the newly promoted queue head, and is a no-op only when the queue was empty |
| Daemon.ToMessage | src/adapters/iced_notification.rs:149-167 | the Approve button gives Approved; the Reject button and a window close request both give Rejected; no window input brings in a request |
| AppPath.PlatformAppDataBase | src/adapters/os/path.rs:10-51 | Windows: LOCALAPPDATA verbatim, else USERPROFILE/AppData/Local, else its error; macOS: HOME/Library/Application Support, else "Missing $HOME in environment"; other Unix: XDG_DATA_HOME verbatim before HOME/.local/share, else its error |
| ResponseHandles.RespondAfterAbandonIsHarmless | src/adapters/iced_notification.rs:273-279 | answering a request whose waiter is gone changes nothing the waiter could see, still empties a healthy cell, and keeps the reply well formed |
| Traces.LineConserved | src/adapters/iced_notification.rs:111-217 | over any message trace from any well-formed state, the invariant holds at the end, and the answered requests followed by the remaining line equal the initial line followed by the arrivals: nothing is lost, duplicated or reordered |
| Traces.FifoFromBoot | src/adapters/iced_notification.rs:116-135 | from boot, requests are answered in arrival order; the one on screen is the oldest unanswered arrival; the queue holds the rest in arrival order; on screen plus queued equals arrived minus answered |
| Traces.AnsweredAtMostOnce | src/adapters/iced_notification.rs:205-207 | when arrivals carry distinct handles, no handle is answered twice over any trace |
| Traces.ThreeRequestScenario | src/adapters/iced_notification/daemon.rs:98-124 | three requests approved, rejected and approved in turn get exactly those answers in that order, the last approval closes the window, and the daemon ends idle |
| TakeOnce.Take | src/adapters/iced_notification.rs:241-244 | take yields the content exactly when the lock is healthy and the cell full, and leaves a healthy cell empty; a poisoned lock yields nothing and changes nothing |
| TakeOnce.TakeTimes | src/adapters/iced_notification/daemon.rs:32-35 | of any number of successive takes on one cell only the first can yield a value |
| ReceiverHandles.ReceiveRequests | src/adapters/iced_notification/daemon.rs:170-195 | without a receiver the stream emits nothing; with one it forwards received commands as Incoming in channel order and stops before the first failed forward; the handle is left taken |
| ReceiverHandles.SecondSubscriptionIsSilent | src/adapters/iced_notification.rs:177-185 | a second subscription on the same handle gets no receiver and emits nothing |
| ReceiverHandles.ReceiverTakenOnce | src/adapters/iced_notification.rs:233-244 | on a new handle exactly the first take yields the receiver |
| ResponseHandles.Fresh | src/adapters/iced_notification.rs:266-271 | a new handle is healthy, holds its sender, and its waiter is alive and waiting |
| ResponseHandles.Respond | src/adapters/iced_notification.rs:273-279 | respond delivers the decision only if the lock is healthy, the sender still in the cell and the waiter alive; it empties a healthy cell even when the send fails; once the sender is gone or the lock poisoned it changes nothing |
| ResponseHandles.FirstRespondWins | src/adapters/iced_notification/daemon.rs:50-56 | any number of respond calls on one handle (through any clone) act exactly like the first one alone |
| ResponseHandles.LaterRespondsAreNoOps | src/adapters/iced_notification/daemon.rs:51-53 | with the sender gone or the lock poisoned, every respond call is a no-op |
| ResponseHandles.FreshReplyGetsFirstAnswer | src/adapters/iced_notification.rs:273-279 | a new handle answered any number of times delivers exactly the first answer; never answered, its waiter is still waiting |
| ResponseHandles.DropHandle | src/adapters/iced_notification.rs:261-264 | dropping every clone of a handle drops its sender: a live waiter still waiting sees the channel closed, and a delivered value stays |
| ResponseHandles.Await | src/adapters/iced_notification.rs:57 | the awaited reply is pending exactly while nothing arrived, the delivered value when one was sent, and the receive error when the sender went without sending |
| Delivery.DeliverPerHandle | src/adapters/iced_notification.rs:206 | delivering a list of answers acts on each handle exactly as the answers naming it, in order |
| Delivery.EachWaiterGetsItsAnswer | src/adapters/iced_notification.rs:111-217 | from boot, with distinct handles, every answered request's waiter receives exactly its outcome and every request still on screen or queued is still waiting |
| Delivery.ShutdownClosesUnanswered | src/adapters/iced_notification/adapter.rs:24 | if the daemon then goes away, every unanswered waiter gets the receive error and every answered one keeps its outcome |
| Adapter.Send | src/adapters/iced_notification/adapter.rs:20 | sending never waits, succeeds exactly while the receiving end exists, and appends the command at the channel tail |
| Adapter.RequestValidation | src/adapters/iced_notification/adapter.rs:13-23 | a closed channel returns false at once; otherwise the command is appended to the channel with a new single-use reply of its own, and every other reply is left as it was |
| Adapter.Resume | src/adapters/iced_notification/adapter.rs:24 | the submitter gets approval exactly when true was delivered; a dropped sender gives false, and a delivered value is returned unchanged |
| Adapter.PortRequestValidation | src/adapters/iced_notification/adapter.rs:28-33 | the trait method returns exactly what the inherent method returns, so a closed channel still gives false |
| Adapter.DecisionReachesSubmitter | src/adapters/iced_notification.rs:46-58 | a request submitted on an open channel, put on screen by an idle daemon and decided, resumes its submitter with exactly that decision |
| Adapter.DroppedReplyRejects | src/adapters/iced_notification.rs:57 | a submitter whose reply is dropped unanswered resumes with false |
| Adapter.ApprovalNeedsDelivery | src/adapters/iced_notification/adapter.rs:24 | a submitter resumes with true only if the first answer given to its healthy handle was true, whatever further answers or drops follow |
| AppPath.AppDataDir | src/adapters/os/path.rs:4-8 | an error from the platform base comes back unchanged; otherwise the result is the base with "omni" appended |
| AppPath.BaseFollowsChain | src/adapters/os/path.rs:10-51 | each platform's base is the value of the first set variable of its chain (Windows: LOCALAPPDATA, then USERPROFILE/AppData/Local; macOS: HOME/Library/Application Support; other Unix: XDG_DATA_HOME verbatim, then HOME/.local/share), or the platform's own error message when none is set |
| AppPath.FirstSetPicksEarliest | src/adapters/os/path.rs:38-51 | a fallback chain yields a path exactly when one of its variables is set, and then that of the earliest set variable with its suffix |
| AppPath.AppDataDirFromChain | src/adapters/os/path.rs:6-8 | the data directory exists exactly when a variable of the platform's chain is set, and is then the earliest set value, the rung's suffix and "omni"; otherwise the error is the platform's message |
| AppPath.XdgTakesPrecedence | src/adapters/os/path.rs:40-42 | on Unix other than macOS a set XDG_DATA_HOME is used verbatim, whatever HOME is |

## Left out

- Rendering and runtime plumbing: `view` and the iced runtime. This covers the window's
  own lifecycle (`open_window`, `window::close`), the `Subscription` wiring and
  `daemon(...).run()`. The window is a boolean and the tasks are tags.
- Concurrency: tokio channels, `async`/`await` and the threads. Concurrent `respond`
  calls on clones are serialised by the mutex, so the model applies them in sequence.
  The 100-message buffer of the subscription stream only applies back-pressure, so it
  is not modelled. Mutex poisoning is a flag on the cell. Poisoning happens only through a panic while the
  lock is held, and nothing in the code panics there.
- `RuntimeState.receiver`: `update` never touches it, so `Daemon.State` omits it. The
  cell it points at is modelled in `ReceiverHandles`.
- `rand_id` and `Hash for ReceiverHandle`: they give the subscription an identity only.
  The clock-derived `rng` module is not part of this model.
- Module wiring: `channel()`, `new_iced_notification_adapter` and main.rs. main.rs
  imports `channel` from the single-file copy, while `adapters/mod.rs` uses the split
  module; both build the same pair.
- ReceiverHandles.ReceiveRequests: the sequence `recv` yields is a parameter. The model
  does not follow the command whose forward failed. That command is dropped, so its
  waiter ends with false, as `Adapter.DroppedReplyRejects` shows.
- Why a waiter goes away (a caller disconnecting) is outside this code. The model only
  records that it happened (`ResponseHandles.Abandon`) and shows that a later answer is
  then harmless.
- Daemon.Title: the contract states the title for states that satisfy the invariant.
  Those are the only states reachable from boot (`Traces.LineConserved`).
- The HTTP layer (`src/api`): a thin mapping of true/false to 200/403.
- The database adapter is left out. Two defects there are not modelled:
  - `update_database` builds both of its paths as `db_safe.json`
    (src/adapters/database_dev_unsecure/adapter.rs:40-41), so the unsafe JSON overwrites
    the safe one.
  - src/ports/database.rs defines only `Database`, while the adapter imports
    `SafeDatabase` and `UnsafeDatabase`.
- AppPath.PlatformAppDataBase: the environment map is keyed by the names exactly as the
  code spells them. Windows matches variable names without regard to case (a variable
  set as `LocalAppData` answers the lookup of `LOCALAPPDATA`). The model folds that
  matching into the map rather than modelling case folding.
- Environment values are strings: non-UTF-8 `OsString` values are not modelled. A value
  is used verbatim, including an empty one (an empty XDG_DATA_HOME gives a relative
  "omni" directory).
- No timeouts and no cancellation reach the daemon. The code has neither.
