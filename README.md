# Actor execution core: continuation decorator and thread-per-actor policy

This project models two pieces of libcppa's actor runtime in Dafny and proves
properties of them.

**Behaviors (`behavior.dfy`, module `Behavior`).** A behavior implementation is
one of two things. It is a plain partial function from a message to an
optional reply, together with a timeout definition. Or it is a continuation
decorator, which holds a continuation (another partial function), the
decorated implementation and the timeout it copied from that implementation
when it was built. The decorator's `invoke` is optional bind. It runs the
decorated implementation, pipes an answer through the continuation, and
declines when the decorated implementation declines. `defined_at` and
`handle_timeout` ask the decorated implementation only. `copy` rebinds the
timeout definition of the decorated implementation and wraps the copy with the
same continuation. A `behavior` handle is a possibly-null pointer to an
implementation. `add_continuation` builds a new handle and leaves the old one
as it was.

**Scheduling policy (`no_scheduling.dfy`, module `NoScheduling`; collaborators
in `mailbox.dfy`, module `Mailbox`).** This is the sequential part of the
thread-per-actor policy:

- `enqueue` dispatches on what the mailbox reports for the push.
- The fetch operations drain the mailbox into a callback.
- The two waits for data are modelled.
- One loop models the worker thread that `launch` starts.

The mailbox is a class holding its elements as a sequence and a `closed` flag.
The actor is a class with its state, its planned exit reason, its exit reason
and ghost logs of bounces and cleanups. The callback is an object that logs
every element it receives. The actor registry is a class holding the running
counter.

A wait is described by the sequence of events that happen while the worker is
blocked. An event is either an arrival or a spurious wakeup, and each carries
the time at which it happens. An arrival is another thread's `enqueue`, and
the model routes it through `Enqueue`. A timed wait compares each event's time
with a fixed, absolute deadline. The wait ends with data at the first arrival
that comes before the deadline, provided every wakeup before it also came
before the deadline. It times out at the first event at or after the
deadline, or when no events are left. Events are taken in the order of the
sequence; their times are not required to increase.

## Model

| member | source | states |
|---|---|---|
| `Behavior.Decorate` | src/behavior.cpp:44-47 | The decorator holds exactly the given continuation and decorated implementation. Its timeout is the decorated one's, taken at construction. A well-formed chain stays well-formed. |
| `Behavior.TimeoutIsInnermost` | src/behavior.cpp:44-45 | In a well-formed chain, every decorator reports the timeout of the innermost partial function. |
| `Behavior.BehaviorImpl.Invoke` | src/behavior.cpp:49-62 | Whenever `invoke` answers, `defined_at` holds for that message. Both `invoke` overloads are this one function. |
| `Behavior.DecoratorInvoke` | src/behavior.cpp:50-53 | If the decorated implementation declines, the decorator declines. If it answers `r`, the decorator answers exactly `k(r)`. The decorator answers if and only if both stages answer. |
| `Behavior.DeclinedStaysDeclined` | src/behavior.cpp:50-53 | A declined message stays declined through any chain of continuations. |
| `Behavior.InvokeIsPipeline` | src/behavior.cpp:50-53 | `invoke` equals applying the innermost partial function and then every continuation, from innermost to outermost, stopping at the first one that declines. |
| `Behavior.DefinedAtIsInnermostDomain` | src/behavior.cpp:64-66 | `defined_at` is exactly the domain of the innermost partial function; no continuation is consulted. |
| `Behavior.DefinedButDeclined` | src/behavior.cpp:50-66 | If the decorated implementation answers and the continuation declines, the decorator is defined at the message yet answers nothing. |
| `Behavior.BehaviorImpl.Copy` | src/behavior.cpp:68-70 | The copy is well-formed. It carries the new timeout and timeout handler. It answers and is defined exactly as the original, for every message. |
| `Behavior.CopyOfDecorator` | src/behavior.cpp:68-70 | Copying a decorator gives the same continuation around the copy of the decorated implementation, with the same `invoke` and `defined_at`. |
| `Behavior.HandleTimeoutBypassesContinuation` | src/behavior.cpp:72 | A decorator's timeout handler is the decorated one's, whichever continuation it holds. |
| `Behavior.HandleTimeoutIsInnermost` | src/behavior.cpp:72 | The handler that `handle_timeout` runs is the innermost partial function's. |
| `Behavior.FromPartialFunction` | src/behavior.cpp:81 | The behavior is non-null and well-formed. It answers and is defined exactly as the partial function, and has no timeout. |
| `Behavior.AddContinuation` | src/behavior.cpp:83-85 | On a non-null behavior, the result decorates the receiver's implementation. It answers as bind of the receiver's answer through the continuation. It keeps the receiver's `defined_at`, timeout and timeout handler. |
| `Behavior.ChainedContinuations` | src/behavior.cpp:83-85 | Adding `f` and then `g` invokes the receiver, then `f`, then `g`. The result answers only when all three stages answer, and its continuation list is the receiver's followed by `f` and `g`. |
| `Mailbox.PushOutcome` | cppa/policy/no_scheduling.hpp:103-112 | A push onto a closed mailbox reports `queue_closed`. A push onto an open, empty mailbox reports `first_enqueued`. Any other push is ordinary. |
| `NoScheduling.InitTimeout` | cppa/policy/no_scheduling.hpp:65-70 | The deadline lies exactly `rel` after `now`, never before it. |
| `NoScheduling.SpuriousPrefixSkipped` | cppa/policy/no_scheduling.hpp:165-171 | Any run of spurious wakeups before the deadline is skipped, and the wait ends exactly as it would without them. |
| `NoScheduling.InitTimeoutDeadlineIsFixed` | cppa/policy/no_scheduling.hpp:65-70 | With the deadline `init_timeout` computed, any run of spurious wakeups before it leaves the wait's outcome unchanged. The first event at or after it ends the wait with a timeout. The deadline is computed once and never moved. |
| `NoScheduling.BounceFor` | cppa/policy/no_scheduling.hpp:112-117 | At most one bounce is produced. It is produced exactly when the mailbox is closed and the message id is valid. It carries the exit reason, the sender and the message id. |
| `NoScheduling.Enqueue` | cppa/policy/no_scheduling.hpp:100-119 | An open mailbox gets the new element appended; a closed one is unchanged. The state becomes ready exactly on `first_enqueued` and is otherwise unchanged. The bounce log grows by the bounce for that outcome. Nothing else changes. |
| `NoScheduling.TryFetchMessages` | cppa/policy/no_scheduling.hpp:78-89 | Returns true exactly when the mailbox held something. The callback receives the old contents in order, each element once. The mailbox ends empty. |
| `NoScheduling.FetchMessagesImpl` | cppa/policy/no_scheduling.hpp:178-185 | The callback receives the old contents in FIFO order, each element once, and the mailbox ends empty. |
| `NoScheduling.WakingArrival` | cppa/policy/no_scheduling.hpp:162-174 | When the wait ends with data, it ends at an arrival before the deadline, and everything before that arrival was a spurious wakeup before the deadline. When it times out, every arrival before the deadline comes after some wakeup at or past the deadline. |
| `NoScheduling.Awaited` | cppa/policy/no_scheduling.hpp:154-174 | After a wait, the mailbox holds what it held if that was non-empty. Otherwise it holds exactly the waking element. It is empty exactly when nothing arrived in time. |
| `NoScheduling.AwaitData` | cppa/policy/no_scheduling.hpp:154-160 | On return the mailbox is non-empty. A non-empty mailbox is left as it was, without waiting. An empty one holds the first arrival and the actor is ready. |
| `NoScheduling.AwaitDataTimed` | cppa/policy/no_scheduling.hpp:162-174 | The mailbox must be open. The result is true at once when the mailbox holds data. Otherwise it is true exactly when an element arrived before the deadline, and the mailbox then holds that element. |
| `NoScheduling.FetchMessages` | cppa/policy/no_scheduling.hpp:72-76 | Waits, then hands the callback every element available after the wait, in order. The mailbox ends empty. |
| `NoScheduling.FetchMessagesTimed` | cppa/policy/no_scheduling.hpp:91-98 | Never indeterminate. Returns `success` exactly when data was there or arrived in time, and the callback then receives it all in order. On `no_message` the callback is not called. The actor becomes ready only when an arrival woke it; otherwise its state is unchanged. |
| `NoScheduling.SpuriousWakeupKeepsDeadline` | cppa/policy/no_scheduling.hpp:165-171 | A spurious wakeup before the deadline changes nothing about the outcome of the wait. One at or after the deadline ends the wait with a timeout. |
| `NoScheduling.LaterDeadlineWakesAlike` | cppa/policy/no_scheduling.hpp:162-174 | An arrival that wakes a wait with one deadline wakes a wait with any later deadline too. |
| `NoScheduling.ArrivalBeforeDeadlineWakes` | cppa/policy/no_scheduling.hpp:165-173 | An arrival before the deadline, preceded only by spurious wakeups before the deadline, ends the wait with data. |
| `NoScheduling.Resume` | cppa/policy/no_scheduling.hpp:140 | `resume` returns the step's result and sets the planned exit reason only if the actor's code quit. |
| `NoScheduling.PlannedAfter` | cppa/policy/no_scheduling.hpp:140-144 | After an iteration, a `done` resume makes the planned reason `normal`, whatever was planned or quit before. Otherwise a quit's reason replaces it, and without a quit it is unchanged. |
| `NoScheduling.ExitStep` | cppa/policy/no_scheduling.hpp:132-150 | The loop leaves in the first iteration after which the planned reason is set. Every earlier iteration left it "not exited". It is `None` exactly when every iteration leaves it "not exited". |
| `NoScheduling.WorkerExit` | cppa/policy/no_scheduling.hpp:140-148 | The reason the worker leaves with is the planned reason after the leaving iteration. It is never "not exited", and it is `normal` when that iteration's resume returned `done`. If any resume returns `done`, the worker leaves. |
| `NoScheduling.DoneOverwritesQuit` | cppa/policy/no_scheduling.hpp:140-143 | A `done` resume ends the worker with `normal`, even when the actor's code quit with another reason in the same step. |
| `NoScheduling.WorkerIteration` | cppa/policy/no_scheduling.hpp:133-144 | One pass of the worker loop up to the exit check. The returned `per` is the planned reason `PlannedAfter` gives for that step: `normal` after `done`, otherwise the actor's own quit or the reason planned before. The mailbox holds what the wait left, which is never empty, and the actor is ready if that wait was woken by an arrival. |
| `NoScheduling.Launch` | cppa/policy/no_scheduling.hpp:121-152 | The worker leaves exactly in the iteration `ExitStep` names, with the reason `WorkerExit` gives (`normal` after `done`). It runs cleanup exactly once with that reason, and otherwise keeps looping with nothing planned. The running counter ends one higher while the worker runs and back where it was once it has left. The mailbox stays open and holds what the first wait left; the actor is ready if that wait was woken by an arrival. |

The plain case of `BehaviorImpl` stands for the partial function's own
implementation, which is not part of this model. Its `invoke` applies the
function. Its `defined_at` holds when the function gives an answer. Its `copy`
replaces the timeout definition.

The scheduling member `ClientScenario` has no contract of its own. It shows,
using the contracts above, the following. Three messages sent to an idle
actor make it ready, and a fetch delivers them in order. After the mailbox
closes, a request bounces exactly once and a plain message bounces nothing.

A `done` resume overwrites any planned exit reason with `normal`, even one
set by the actor's own quit (cppa/policy/no_scheduling.hpp:140-143).
`PlannedAfter` does the same.

The decorator's constructor reads the decorated implementation's timeout
(src/behavior.cpp:45) before it checks that the pointer is non-null
(src/behavior.cpp:46). The model's `requires b.impl.Some?` on
`AddContinuation` states the condition that both lines rely on.

## Left out

- The mutex, the condition variable, `notify_one`, `wait` and `wait_until` are not modelled. A wait is a caller-supplied sequence of arrivals and spurious wakeups with their times, and the deadline is compared with those times.
- NoScheduling.AwaitData: requires an open mailbox with a later arrival when the mailbox is empty. The source would block forever in that case, and a terminating method cannot express that.
- NoScheduling.AwaitDataTimed: an arrival's push and the waiter's wakeup happen at the same time in the model. In the source, an element pushed just before the deadline whose wakeup comes at or after it makes `wait_until` report a timeout, and `await_data` returns false with data in the mailbox (cppa/policy/no_scheduling.hpp:168-169). The model's "false means the mailbox is empty" and "an arrival before the deadline always wakes" rely on this simplification.
- NoScheduling.AwaitData: each wakeup handles at most one arrival. Several pushes landing before the waiter re-checks the mailbox are not modelled; the mailbox holds exactly the waking element after an empty wait.
- NoScheduling.FetchMessages: same requirement as `AwaitData`. The untimed `fetch_messages` is declared `bool` but returns nothing, so only its draining effect is modelled.
- NoScheduling.Launch: since `Resume` never takes elements out of the mailbox, the mailbox stays non-empty after the first iteration, and every later `await_data` returns at once. A worker that blocks again after its resumed code has consumed the mailbox is not captured, and later steps' wait events are never used.
- NoScheduling.Launch: runs only the iterations its script describes. A worker that has not exited by then is reported as still running, so its counter stays raised. Thread creation, `detach`, the fiber and the log-and-rethrow path around `await_data` are left out; exceptions and I/O are not modelled.
- NoScheduling.Resume: stands in for the actor's own code. Its result and any quit are given by the script. It does not touch the mailbox, since the resumed code's message processing is not part of this model.
- NoScheduling.InitTimeout: the real clock is a parameter `now`. The duration is an integer count of clock ticks, so unit conversion is not modelled.
- The mailbox queue, `message_header`, `message_id`, `any_tuple`, the sync-request bouncer, the actor registry and `cleanup` are foreign types whose code is not part of this model. They are stand-ins: a sequence-backed FIFO whose push reports `first_enqueued` on an empty open queue, a header of sender and optional request id, an uninterpreted message type, a bounce log, a counter and a cleanup log.
- Logging (`CPPA_PUSH_AID`, `CPPA_LOG_*`) is left out.
