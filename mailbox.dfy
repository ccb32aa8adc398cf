/**
 * The collaborators the thread-per-actor policy works on: mailbox elements,
 * a sequence-backed stand-in for the single-reader mailbox queue, the actor
 * fields the policy reads and writes, the message callback and the actor
 * registry's running counter.
 */
module Mailbox {
  import opened Wrappers
  import Behavior

  type ActorId = nat

  /** A `message_id`: only a request carries a valid id that expects a reply. */
  datatype MessageId = InvalidId | RequestId(value: nat)
  {
    predicate Valid() { RequestId? }
  }

  /** A `message_header`: who sent the message and its correlation id. */
  datatype MessageHeader = MessageHeader(sender: ActorId, id: MessageId)

  /** A mailbox element, as `new_mailbox_element(hdr, msg)` builds it. */
  datatype MailboxElement = MailboxElement(hdr: MessageHeader, msg: Behavior.Tuple)

  /** What the queue reports for one push. */
  datatype EnqueueResult = Enqueued | FirstEnqueued | QueueClosed

  /** `actor_state`. */
  datatype ActorState = Ready | Done | Blocked | AboutToBlock

  /** An exit reason is a 32-bit code; zero means the actor has not exited. */
  type ExitReason = nat
  const NotExited: ExitReason := 0
  const Normal: ExitReason := 1

  /** A reply the sync-request bouncer sends to a requester whose target is gone. */
  datatype Bounce = Bounce(reason: ExitReason, sender: ActorId, id: MessageId)

  /** The queue's report for pushing onto a queue in the given condition. */
  function PushOutcome(closed: bool, items: seq<MailboxElement>): (r: EnqueueResult)
    ensures r == QueueClosed <==> closed
    ensures r == FirstEnqueued <==> !closed && items == []
  {
    if closed then QueueClosed else if items == [] then FirstEnqueued else Enqueued
  }

  /** The actor's mailbox: the elements in FIFO order and whether it is closed. */
  class Queue {
    var items: seq<MailboxElement>
    var closed: bool

    constructor ()
      ensures items == [] && !closed
    {
      items := [];
      closed := false;
    }

    /** `empty()`. */
    predicate Empty()
      reads this
    {
      |items| == 0
    }

    /** `enqueue(e)`: a closed queue refuses the element; otherwise it is appended. */
    method Enqueue(e: MailboxElement) returns (outcome: EnqueueResult)
      modifies this
      ensures outcome == PushOutcome(old(closed), old(items))
      ensures closed == old(closed)
      ensures items == if old(closed) then old(items) else old(items) + [e]
    {
      if closed {
        outcome := QueueClosed;
      } else {
        outcome := if |items| == 0 then FirstEnqueued else Enqueued;
        items := items + [e];
      }
    }

    /** `try_pop()`: the oldest element, or nothing when the queue is empty. */
    method TryPop() returns (e: Option<MailboxElement>)
      modifies this
      ensures closed == old(closed)
      ensures old(items) == [] ==> e == None && items == []
      ensures old(items) != [] ==> e == Some(old(items)[0]) && items == old(items)[1..]
    {
      if |items| == 0 {
        e := None;
      } else {
        e := Some(items[0]);
        items := items[1..];
      }
    }

    /** Closing the queue (done by the actor's cleanup); later pushes are refused. */
    method Close()
      modifies this
      ensures closed && items == old(items)
    {
      closed := true;
    }
  }

  /** The callback handed to the fetch operations; it records every element it is called with. */
  class Callback {
    ghost var calls: seq<MailboxElement>

    constructor ()
      ensures calls == []
    {
      calls := [];
    }

    method Call(e: MailboxElement)
      modifies this
      ensures calls == old(calls) + [e]
    {
      calls := calls + [e];
    }
  }

  /** The actor fields the policy reads and writes, with logs of bounces and cleanups. */
  class Actor {
    const mailbox: Queue
    var state: ActorState
    var plannedExit: ExitReason
    var exitReason: ExitReason
    ghost var bounces: seq<Bounce>
    ghost var cleanups: seq<ExitReason>

    constructor (mb: Queue)
      ensures mailbox == mb && state == Blocked
      ensures plannedExit == NotExited && exitReason == NotExited
      ensures bounces == [] && cleanups == []
    {
      mailbox := mb;
      state := Blocked;
      plannedExit := NotExited;
      exitReason := NotExited;
      bounces := [];
      cleanups := [];
    }

    /** `cleanup(reason)`: recorded; what the actor does inside it is not modelled. */
    method Cleanup(reason: ExitReason)
      modifies this
      ensures cleanups == old(cleanups) + [reason]
      ensures state == old(state) && plannedExit == old(plannedExit)
      ensures exitReason == old(exitReason) && bounces == old(bounces)
    {
      cleanups := cleanups + [reason];
    }
  }

  /** The actor registry's count of running actors. */
  class Registry {
    var running: int

    constructor ()
      ensures running == 0
    {
      running := 0;
    }

    method IncRunning()
      modifies this
      ensures running == old(running) + 1
    {
      running := running + 1;
    }

    method DecRunning()
      modifies this
      ensures running == old(running) - 1
    {
      running := running - 1;
    }
  }
}
