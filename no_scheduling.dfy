/**
 * The sequential part of the thread-per-actor scheduling policy
 * (cppa/policy/no_scheduling.hpp).
 *
 * The mutex and condition variable are not modelled. A wait is described
 * by the sequence of things that happen while the worker is blocked: an
 * arrival is another thread's `enqueue` of an element, a spurious wakeup
 * changes nothing. Both carry the time at which they happen, which is
 * compared with the absolute deadline of a timed wait.
 */
module NoScheduling {
  import opened Wrappers
  import opened Mailbox
  import Behavior

  /** `timed_fetch_result`. */
  datatype TimedFetchResult = NoMessage | Indeterminate | Success

  /** `resumable::resume_result`. */
  datatype ResumeResult = ResumeLater | Done

  /**
   * One thing that happens while the worker waits on the condition variable.
   * A wait takes events in the order of their sequence; their times are not
   * required to increase, and only their comparison with the deadline counts.
   */
  datatype WaitEvent =
    | Arrival(at: int, elem: MailboxElement)
    | SpuriousWakeup(at: int)

  /**
   * One iteration of the worker loop as seen from outside the actor: what
   * happens while it waits for data, whether the resumed actor code called
   * quit (and with which reason), and what `resume` returned.
   */
  datatype ResumeStep = ResumeStep(events: seq<WaitEvent>, quit: Option<ExitReason>, result: ResumeResult)

  /** `init_timeout`: an absolute deadline, `rel` time units after `now`. */
  function InitTimeout(now: int, rel: nat): (deadline: int)
    ensures deadline >= now
    ensures deadline - now == rel
  {
    now + rel
  }

  /** Whether time `t` lies before the deadline; `None` is the untimed wait. */
  predicate Before(t: int, deadline: Option<int>)
  {
    deadline.None? || t < deadline.value
  }

  /**
   * The event that ends a wait with data: the first arrival, provided that
   * it and every spurious wakeup before it happen before the deadline.
   * `None` means the wait times out (or, untimed, never ends).
   */
  function WakingArrival(events: seq<WaitEvent>, deadline: Option<int>): (r: Option<nat>)
    ensures r.Some? ==> r.value < |events| && events[r.value].Arrival? && Before(events[r.value].at, deadline)
    ensures r.Some? ==> forall j :: 0 <= j < r.value ==> events[j].SpuriousWakeup? && Before(events[j].at, deadline)
    ensures r.None? ==>
              forall j :: 0 <= j < |events| && events[j].Arrival? && Before(events[j].at, deadline) ==>
                exists k :: 0 <= k < j && !Before(events[k].at, deadline)
    decreases |events|
  {
    if events == [] || !Before(events[0].at, deadline) then None
    else if events[0].Arrival? then Some(0)
    else
      match WakingArrival(events[1..], deadline)
      case None => None
      case Some(i) => Some(i + 1)
  }

  /** What the mailbox holds when a wait ends: what it held, or the element that woke the waiter. */
  function Awaited(items: seq<MailboxElement>, events: seq<WaitEvent>, deadline: Option<int>): (r: seq<MailboxElement>)
    ensures items != [] ==> r == items
    ensures r == [] <==> items == [] && WakingArrival(events, deadline).None?
    ensures items == [] && WakingArrival(events, deadline).Some? ==>
              r == [events[WakingArrival(events, deadline).value].elem]
  {
    if items != [] then items
    else
      match WakingArrival(events, deadline)
      case None => []
      case Some(i) => [events[i].elem]
  }

  /** The bounce `enqueue` sends for a push with this outcome. */
  function BounceFor(outcome: EnqueueResult, hdr: MessageHeader, reason: ExitReason): (b: seq<Bounce>)
    ensures |b| <= 1
    ensures b != [] <==> outcome == QueueClosed && hdr.id.Valid()
    ensures b != [] ==> b[0].reason == reason && b[0].sender == hdr.sender && b[0].id == hdr.id
  {
    if outcome == QueueClosed && hdr.id.Valid() then [Bounce(reason, hdr.sender, hdr.id)] else []
  }

  /**
   * `enqueue`: pushes a new element. The first element of an empty mailbox
   * makes the actor ready (and wakes its worker); a closed mailbox bounces a
   * request back to its sender with the actor's exit reason; an ordinary
   * push does nothing more.
   */
  method Enqueue(self: Actor, hdr: MessageHeader, msg: Behavior.Tuple)
    modifies self, self.mailbox
    ensures self.mailbox.closed == old(self.mailbox.closed)
    ensures self.mailbox.items ==
              if old(self.mailbox.closed) then old(self.mailbox.items)
              else old(self.mailbox.items) + [MailboxElement(hdr, msg)]
    ensures self.state ==
              if PushOutcome(old(self.mailbox.closed), old(self.mailbox.items)) == FirstEnqueued then Ready
              else old(self.state)
    ensures self.bounces ==
              old(self.bounces) + BounceFor(PushOutcome(old(self.mailbox.closed), old(self.mailbox.items)), hdr, old(self.exitReason))
    ensures self.plannedExit == old(self.plannedExit) && self.exitReason == old(self.exitReason)
    ensures self.cleanups == old(self.cleanups)
  {
    var ptr := MailboxElement(hdr, msg);
    var outcome := self.mailbox.Enqueue(ptr);
    match outcome
    case FirstEnqueued =>
      self.state := Ready;
    case QueueClosed =>
      if hdr.id.Valid() {
        self.bounces := self.bounces + [Bounce(self.exitReason, hdr.sender, hdr.id)];
      }
    case Enqueued =>
  }

  /**
   * `try_fetch_messages`: pops until the mailbox is empty, calling `cb` once
   * per element in FIFO order; false (and no call) when the first pop finds
   * nothing.
   */
  method TryFetchMessages(self: Actor, cb: Callback) returns (fetched: bool)
    modifies self.mailbox, cb
    ensures fetched <==> old(self.mailbox.items) != []
    ensures cb.calls == old(cb.calls) + old(self.mailbox.items)
    ensures self.mailbox.items == [] && self.mailbox.closed == old(self.mailbox.closed)
  {
    var e := self.mailbox.TryPop();
    if e.None? {
      return false;
    }
    while e.Some?
      invariant self.mailbox.closed == old(self.mailbox.closed)
      invariant e.None? ==> self.mailbox.items == []
      invariant old(cb.calls) + old(self.mailbox.items) ==
                cb.calls + (if e.Some? then [e.value] else []) + self.mailbox.items
      decreases |self.mailbox.items| + (if e.Some? then 1 else 0)
    {
      cb.Call(e.value);
      e := self.mailbox.TryPop();
    }
    return true;
  }

  /** `fetch_messages_impl`: delivers every element to `cb` exactly once, in FIFO order. */
  method FetchMessagesImpl(self: Actor, cb: Callback)
    modifies self.mailbox, cb
    ensures cb.calls == old(cb.calls) + old(self.mailbox.items)
    ensures self.mailbox.items == [] && self.mailbox.closed == old(self.mailbox.closed)
  {
    var e := self.mailbox.TryPop();
    while e.Some?
      invariant self.mailbox.closed == old(self.mailbox.closed)
      invariant e.None? ==> self.mailbox.items == []
      invariant old(cb.calls) + old(self.mailbox.items) ==
                cb.calls + (if e.Some? then [e.value] else []) + self.mailbox.items
      decreases |self.mailbox.items| + (if e.Some? then 1 else 0)
    {
      cb.Call(e.value);
      e := self.mailbox.TryPop();
    }
  }

  /**
   * `await_data` without a deadline: returns at once when the mailbox holds
   * data, otherwise once an arrival has filled it. The wait must end, so an
   * empty mailbox needs a later arrival and must be open to accept it.
   */
  method AwaitData(self: Actor, events: seq<WaitEvent>)
    requires self.mailbox.items != [] || (!self.mailbox.closed && WakingArrival(events, None).Some?)
    modifies self, self.mailbox
    ensures self.mailbox.items != []
    ensures self.mailbox.items == Awaited(old(self.mailbox.items), events, None)
    ensures self.mailbox.closed == old(self.mailbox.closed)
    ensures self.state == if old(self.mailbox.items) != [] then old(self.state) else Ready
    ensures self.plannedExit == old(self.plannedExit) && self.exitReason == old(self.exitReason)
    ensures self.bounces == old(self.bounces) && self.cleanups == old(self.cleanups)
  {
    var i := 0;
    ghost var w := WakingArrival(events, None);
    while self.mailbox.Empty()
      invariant 0 <= i <= |events|
      invariant self.mailbox.closed == old(self.mailbox.closed)
      invariant old(self.mailbox.items) != [] ==> self.mailbox.items == old(self.mailbox.items) && self.state == old(self.state)
      invariant old(self.mailbox.items) == [] ==> w.Some? && !self.mailbox.closed
      invariant old(self.mailbox.items) == [] && self.mailbox.items == [] ==>
                  forall j :: 0 <= j < i ==> events[j].SpuriousWakeup?
      invariant old(self.mailbox.items) == [] && self.mailbox.items != [] ==>
                  self.mailbox.items == [events[w.value].elem] && self.state == Ready
      invariant self.plannedExit == old(self.plannedExit) && self.exitReason == old(self.exitReason)
      invariant self.bounces == old(self.bounces) && self.cleanups == old(self.cleanups)
      decreases if self.mailbox.Empty() then 1 else 0
    {
      while self.mailbox.Empty()
        invariant 0 <= i <= |events|
        invariant self.mailbox.closed == old(self.mailbox.closed)
        invariant w.Some? && !self.mailbox.closed
        invariant self.mailbox.items == [] ==> forall j :: 0 <= j < i ==> events[j].SpuriousWakeup?
        invariant self.mailbox.items != [] ==> self.mailbox.items == [events[w.value].elem] && self.state == Ready
        invariant self.plannedExit == old(self.plannedExit) && self.exitReason == old(self.exitReason)
        invariant self.bounces == old(self.bounces) && self.cleanups == old(self.cleanups)
        decreases |events| - i
      {
        assert i <= w.value;
        match events[i] {
          case Arrival(_, e) => Enqueue(self, e.hdr, e.msg);
          case SpuriousWakeup(_) =>
        }
        i := i + 1;
      }
    }
  }

  /**
   * `await_data` with the absolute deadline `absTime` that `init_timeout`
   * computed, on a mailbox that must not be closed: true at once when the mailbox holds data; otherwise true when an
   * arrival fills it before the deadline, false when the deadline passes.
   */
  method AwaitDataTimed(self: Actor, absTime: int, events: seq<WaitEvent>) returns (ok: bool)
    requires !self.mailbox.closed
    modifies self, self.mailbox
    ensures ok <==> Awaited(old(self.mailbox.items), events, Some(absTime)) != []
    ensures self.mailbox.items == Awaited(old(self.mailbox.items), events, Some(absTime))
    ensures !self.mailbox.closed
    ensures self.state == if old(self.mailbox.items) == [] && ok then Ready else old(self.state)
    ensures self.plannedExit == old(self.plannedExit) && self.exitReason == old(self.exitReason)
    ensures self.bounces == old(self.bounces) && self.cleanups == old(self.cleanups)
  {
    var i := 0;
    ghost var w := WakingArrival(events, Some(absTime));
    while self.mailbox.Empty()
      invariant 0 <= i <= |events|
      invariant !self.mailbox.closed
      invariant old(self.mailbox.items) != [] ==> self.mailbox.items == old(self.mailbox.items) && self.state == old(self.state)
      invariant old(self.mailbox.items) == [] && self.mailbox.items == [] ==>
                  self.state == old(self.state) &&
                  forall j :: 0 <= j < i ==> events[j].SpuriousWakeup? && events[j].at < absTime
      invariant old(self.mailbox.items) == [] && self.mailbox.items != [] ==>
                  w.Some? && self.mailbox.items == [events[w.value].elem] && self.state == Ready
      invariant self.plannedExit == old(self.plannedExit) && self.exitReason == old(self.exitReason)
      invariant self.bounces == old(self.bounces) && self.cleanups == old(self.cleanups)
      decreases if self.mailbox.Empty() then 1 else 0
    {
      while self.mailbox.Empty()
        invariant 0 <= i <= |events|
        invariant !self.mailbox.closed
        invariant self.mailbox.items == [] ==>
                    self.state == old(self.state) &&
                    forall j :: 0 <= j < i ==> events[j].SpuriousWakeup? && events[j].at < absTime
        invariant self.mailbox.items != [] ==>
                    w.Some? && self.mailbox.items == [events[w.value].elem] && self.state == Ready
        invariant self.plannedExit == old(self.plannedExit) && self.exitReason == old(self.exitReason)
        invariant self.bounces == old(self.bounces) && self.cleanups == old(self.cleanups)
        decreases |events| - i
      {
        // wait_until reports a timeout once nothing more happens before the deadline
        if i == |events| || events[i].at >= absTime {
          assert w.None?;
          return false;
        }
        match events[i] {
          case Arrival(_, e) =>
            assert w == Some(i);
            Enqueue(self, e.hdr, e.msg);
          case SpuriousWakeup(_) =>
        }
        i := i + 1;
      }
    }
    return true;
  }

  /** `fetch_messages` without a deadline: waits for data, then drains the mailbox into `cb`. */
  method FetchMessages(self: Actor, cb: Callback, events: seq<WaitEvent>)
    requires self.mailbox.items != [] || (!self.mailbox.closed && WakingArrival(events, None).Some?)
    modifies self, self.mailbox, cb
    ensures cb.calls == old(cb.calls) + Awaited(old(self.mailbox.items), events, None)
    ensures self.mailbox.items == [] && self.mailbox.closed == old(self.mailbox.closed)
    ensures self.state == if old(self.mailbox.items) != [] then old(self.state) else Ready
    ensures self.plannedExit == old(self.plannedExit) && self.exitReason == old(self.exitReason)
    ensures self.bounces == old(self.bounces) && self.cleanups == old(self.cleanups)
  {
    AwaitData(self, events);
    FetchMessagesImpl(self, cb);
  }

  /**
   * `fetch_messages` with a deadline: `no_message` without calling `cb` when
   * the wait times out, otherwise drains the mailbox and reports `success`.
   */
  method FetchMessagesTimed(self: Actor, cb: Callback, absTime: int, events: seq<WaitEvent>)
    returns (r: TimedFetchResult)
    requires !self.mailbox.closed
    modifies self, self.mailbox, cb
    ensures r != Indeterminate
    ensures r == Success <==> Awaited(old(self.mailbox.items), events, Some(absTime)) != []
    ensures cb.calls == old(cb.calls) + Awaited(old(self.mailbox.items), events, Some(absTime))
    ensures self.mailbox.items == [] && !self.mailbox.closed
    ensures self.state == if old(self.mailbox.items) == [] && r == Success then Ready else old(self.state)
    ensures self.plannedExit == old(self.plannedExit) && self.exitReason == old(self.exitReason)
    ensures self.bounces == old(self.bounces) && self.cleanups == old(self.cleanups)
  {
    var ok := AwaitDataTimed(self, absTime, events);
    if !ok {
      return NoMessage;
    }
    FetchMessagesImpl(self, cb);
    return Success;
  }

  /**
   * `resume`: the actor's own code is not modelled. The step says whether
   * that code called quit, and what `resume` returns.
   */
  method Resume(self: Actor, step: ResumeStep) returns (r: ResumeResult)
    modifies self
    ensures r == step.result
    ensures self.plannedExit == if step.quit.Some? then step.quit.value else old(self.plannedExit)
    ensures self.state == old(self.state) && self.exitReason == old(self.exitReason)
    ensures self.bounces == old(self.bounces) && self.cleanups == old(self.cleanups)
  {
    if step.quit.Some? {
      self.plannedExit := step.quit.value;
    }
    r := step.result;
  }

  /**
   * The planned exit reason after one worker-loop iteration that started
   * with `planned`: a `done` resume overwrites whatever is planned, even a
   * reason the actor's own code set by quitting in the same step, with
   * normal; otherwise a quit's reason replaces it.
   */
  function PlannedAfter(step: ResumeStep, planned: ExitReason): (p: ExitReason)
    ensures step.result == ResumeResult.Done ==> p == Normal
    ensures step.result != ResumeResult.Done && step.quit.Some? ==> p == step.quit.value
    ensures step.result != ResumeResult.Done && step.quit.None? ==> p == planned
  {
    if step.result == ResumeResult.Done then Normal
    else if step.quit.Some? then step.quit.value
    else planned
  }

  /**
   * The planned exit reason on entering iteration `k` of a worker that is
   * still looping: the initial one for the first iteration; "not exited"
   * afterwards, since the loop only goes on while nothing is planned.
   */
  function PlannedBefore(k: nat, planned: ExitReason): ExitReason
  {
    if k == 0 then planned else NotExited
  }

  /**
   * The iteration in which the worker loop leaves: the first step after
   * which the planned exit reason is set. `None` exactly when every step
   * leaves it "not exited", so the loop goes on through the whole script.
   */
  function ExitStep(script: seq<ResumeStep>, planned: ExitReason): (k: Option<nat>)
    ensures k.Some? ==> k.value < |script| && PlannedAfter(script[k.value], PlannedBefore(k.value, planned)) != NotExited
    ensures forall j :: 0 <= j < (if k.Some? then k.value else |script|) ==>
              PlannedAfter(script[j], PlannedBefore(j, planned)) == NotExited
    decreases |script|
  {
    if script == [] then None
    else if PlannedAfter(script[0], planned) != NotExited then Some(0)
    else
      match ExitStep(script[1..], NotExited)
      case None => None
      case Some(k) => Some(k + 1)
  }

  /**
   * The exit reason with which the worker loop leaves, `None` when it runs
   * the whole script without exiting. It is never "not exited", and it is
   * normal whenever the leaving step's resume returned `done`.
   */
  function WorkerExit(script: seq<ResumeStep>, planned: ExitReason): (r: Option<ExitReason>)
    ensures r.None? <==> ExitStep(script, planned).None?
    ensures r.Some? ==> r.value != NotExited
    ensures r.Some? ==> r.value == PlannedAfter(script[ExitStep(script, planned).value],
                                                PlannedBefore(ExitStep(script, planned).value, planned))
    ensures r.Some? && script[ExitStep(script, planned).value].result == ResumeResult.Done ==> r.value == Normal
    ensures (exists k :: 0 <= k < |script| && script[k].result == ResumeResult.Done) ==> r.Some?
  {
    match ExitStep(script, planned)
    case None => None
    case Some(k) => Some(PlannedAfter(script[k], PlannedBefore(k, planned)))
  }

  /** A `done` resume ends the worker with normal, even when the same step's code quit with another reason. */
  lemma DoneOverwritesQuit(events: seq<WaitEvent>, q: ExitReason, planned: ExitReason, rest: seq<ResumeStep>)
    ensures WorkerExit([ResumeStep(events, Some(q), ResumeResult.Done)] + rest, planned) == Some(Normal)
  {
  }

  /**
   * The body of one worker-loop iteration up to the exit check: wait for
   * data, resume the actor, and turn a `done` into a normal exit. Returns the
   * planned exit reason the loop then inspects.
   */
  method WorkerIteration(self: Actor, step: ResumeStep) returns (per: ExitReason)
    requires self.mailbox.items != [] || (!self.mailbox.closed && WakingArrival(step.events, None).Some?)
    modifies self, self.mailbox
    ensures per == PlannedAfter(step, old(self.plannedExit)) && self.plannedExit == per
    ensures self.mailbox.items == Awaited(old(self.mailbox.items), step.events, None)
    ensures self.mailbox.items != [] && self.mailbox.closed == old(self.mailbox.closed)
    ensures self.state == if old(self.mailbox.items) != [] then old(self.state) else Ready
    ensures self.exitReason == old(self.exitReason)
    ensures self.bounces == old(self.bounces) && self.cleanups == old(self.cleanups)
  {
    AwaitData(self, step.events);
    var r := Resume(self, step);
    if r == ResumeResult.Done {
      self.plannedExit := Normal;
    }
    per := self.plannedExit;
  }

  /**
   * `launch`: the running counter goes up once; the worker loop waits for
   * data, resumes the actor, turns a `done` into a normal exit, and leaves
   * with `cleanup(per)` exactly when the planned exit reason `per` is set,
   * bringing the counter down once as it goes. The loop runs the iterations
   * the script describes; a worker still running after them has not exited.
   */
  method Launch(self: Actor, registry: Registry, script: seq<ResumeStep>) returns (exited: bool)
    requires script != [] ==>
               self.mailbox.items != [] || (!self.mailbox.closed && WakingArrival(script[0].events, None).Some?)
    modifies self, self.mailbox, registry
    ensures exited <==> ExitStep(script, old(self.plannedExit)).Some?
    ensures exited ==> self.plannedExit == WorkerExit(script, old(self.plannedExit)).value
    ensures exited && script[ExitStep(script, old(self.plannedExit)).value].result == ResumeResult.Done ==>
              self.plannedExit == Normal
    ensures !exited ==> self.plannedExit == PlannedBefore(|script|, old(self.plannedExit))
    ensures self.cleanups == old(self.cleanups) + (if exited then [self.plannedExit] else [])
    ensures registry.running == old(registry.running) + (if exited then 0 else 1)
    ensures self.mailbox.closed == old(self.mailbox.closed)
    ensures self.mailbox.items ==
              if script == [] then old(self.mailbox.items)
              else Awaited(old(self.mailbox.items), script[0].events, None)
    ensures self.state ==
              if script == [] || old(self.mailbox.items) != [] then old(self.state) else Ready
    ensures self.bounces == old(self.bounces) && self.exitReason == old(self.exitReason)
  {
    registry.IncRunning();
    ghost var planned0 := self.plannedExit;
    var i := 0;
    while i < |script|
      invariant 0 <= i <= |script|
      invariant self.plannedExit == PlannedBefore(i, planned0)
      invariant forall j :: 0 <= j < i ==> PlannedAfter(script[j], PlannedBefore(j, planned0)) == NotExited
      invariant i == 0 ==> self.mailbox.items == old(self.mailbox.items) && self.state == old(self.state)
      invariant i > 0 ==> self.mailbox.items == Awaited(old(self.mailbox.items), script[0].events, None)
      invariant i > 0 ==> self.state == if old(self.mailbox.items) != [] then old(self.state) else Ready
      invariant i > 0 ==> self.mailbox.items != []
      invariant self.mailbox.closed == old(self.mailbox.closed)
      invariant registry.running == old(registry.running) + 1
      invariant self.cleanups == old(self.cleanups)
      invariant self.bounces == old(self.bounces) && self.exitReason == old(self.exitReason)
    {
      var per := WorkerIteration(self, script[i]);
      if per != NotExited {
        assert ExitStep(script, planned0) == Some(i);
        self.Cleanup(per);
        registry.DecRunning();
        return true;
      }
      i := i + 1;
    }
    return false;
  }

  // ---------------------------------------------------------------------
  // Properties of waiting with an absolute deadline
  // ---------------------------------------------------------------------

  /** The element a wait delivers, if any. */
  function WokenBy(events: seq<WaitEvent>, deadline: Option<int>): Option<MailboxElement>
  {
    match WakingArrival(events, deadline)
    case None => None
    case Some(i) => Some(events[i].elem)
  }

  /**
   * Spurious wakeups do not move the deadline: inserting one among the
   * spurious wakeups that come before the deadline, ahead of the waking
   * arrival, leaves the outcome of the wait as it was, and one at or after
   * the deadline ends the wait with a timeout.
   */
  lemma {:induction false} SpuriousWakeupKeepsDeadline(pre: seq<WaitEvent>, t: int, post: seq<WaitEvent>, d: int)
    requires forall j :: 0 <= j < |pre| ==> pre[j].SpuriousWakeup? && pre[j].at < d
    ensures t < d ==> WokenBy(pre + [SpuriousWakeup(t)] + post, Some(d)) == WokenBy(pre + post, Some(d))
    ensures t >= d ==> WokenBy(pre + [SpuriousWakeup(t)] + post, Some(d)).None?
    decreases |pre|
  {
    if pre != [] {
      SpuriousWakeupKeepsDeadline(pre[1..], t, post, d);
      assert (pre + [SpuriousWakeup(t)] + post)[1..] == pre[1..] + [SpuriousWakeup(t)] + post;
      assert (pre + post)[1..] == pre[1..] + post;
    } else {
      var s := [SpuriousWakeup(t)] + post;
      assert pre + [SpuriousWakeup(t)] + post == s && pre + post == post;
      assert s[1..] == post;
      if t < d {
        match WakingArrival(post, Some(d)) {
          case None =>
          case Some(i) => assert s[i + 1] == post[i];
        }
      }
    }
  }

  /** A run of spurious wakeups before the deadline is skipped: the wait ends as it would without them. */
  lemma {:induction false} SpuriousPrefixSkipped(wakeups: seq<WaitEvent>, post: seq<WaitEvent>, deadline: Option<int>)
    requires forall j :: 0 <= j < |wakeups| ==> wakeups[j].SpuriousWakeup? && Before(wakeups[j].at, deadline)
    ensures WokenBy(wakeups + post, deadline) == WokenBy(post, deadline)
    decreases |wakeups|
  {
    if wakeups != [] {
      SpuriousPrefixSkipped(wakeups[1..], post, deadline);
      var s := wakeups + post;
      assert s[1..] == wakeups[1..] + post;
      match WakingArrival(s[1..], deadline) {
        case None =>
        case Some(i) => assert s[i + 1] == s[1..][i];
      }
    } else {
      assert wakeups + post == post;
    }
  }

  /**
   * A deadline computed once by `init_timeout` is never moved: a run of
   * spurious wakeups before it leaves the outcome of the wait as it would be
   * without them, and the first event at or after it ends the wait with a
   * timeout, whatever follows.
   */
  lemma InitTimeoutDeadlineIsFixed(now: int, rel: nat, wakeups: seq<WaitEvent>, e: WaitEvent, post: seq<WaitEvent>)
    requires forall j :: 0 <= j < |wakeups| ==> wakeups[j].SpuriousWakeup? && wakeups[j].at < now + rel
    ensures WokenBy(wakeups + post, Some(InitTimeout(now, rel))) == WokenBy(post, Some(InitTimeout(now, rel)))
    ensures e.at >= now + rel ==> WokenBy(wakeups + [e] + post, Some(InitTimeout(now, rel))).None?
  {
    var d := Some(InitTimeout(now, rel));
    SpuriousPrefixSkipped(wakeups, post, d);
    SpuriousPrefixSkipped(wakeups, [e] + post, d);
    assert wakeups + [e] + post == wakeups + ([e] + post);
    assert ([e] + post)[0] == e;
  }

  /** A later deadline never loses a wakeup: the same arrival still wakes the waiter. */
  lemma LaterDeadlineWakesAlike(events: seq<WaitEvent>, d1: int, d2: int)
    requires d1 <= d2
    requires WakingArrival(events, Some(d1)).Some?
    ensures WakingArrival(events, Some(d2)) == WakingArrival(events, Some(d1))
  {
  }

  /** Any arrival that is preceded only by spurious wakeups, all before the deadline, ends the wait. */
  lemma ArrivalBeforeDeadlineWakes(events: seq<WaitEvent>, k: nat, d: int)
    requires k < |events| && events[k].Arrival? && events[k].at < d
    requires forall j :: 0 <= j < k ==> events[j].SpuriousWakeup? && events[j].at < d
    ensures WakingArrival(events, Some(d)) == Some(k)
  {
  }

  // ---------------------------------------------------------------------
  // A client: what callers can conclude from the contracts alone
  // ---------------------------------------------------------------------

  /**
   * Three messages from one sender reach an idle actor: the first makes it
   * ready, a fetch delivers all three in order and empties the mailbox.
   * After the mailbox is closed, a request bounces once and a plain message
   * bounces nothing.
   */
  method ClientScenario(sender: ActorId, m1: Behavior.Tuple, m2: Behavior.Tuple, m3: Behavior.Tuple)
  {
    var mb := new Queue();
    var self := new Actor(mb);
    var cb := new Callback();
    var hdr := MessageHeader(sender, InvalidId);
    Enqueue(self, hdr, m1);
    assert self.state == Ready;
    Enqueue(self, hdr, m2);
    Enqueue(self, hdr, m3);
    FetchMessages(self, cb, []);
    assert cb.calls == [MailboxElement(hdr, m1), MailboxElement(hdr, m2), MailboxElement(hdr, m3)];
    assert mb.items == [];

    mb.Close();
    var request := MessageHeader(sender, RequestId(7));
    Enqueue(self, request, m1);
    Enqueue(self, hdr, m2);
    assert self.bounces == [Bounce(NotExited, sender, RequestId(7))];
    assert mb.items == [];
  }
}
