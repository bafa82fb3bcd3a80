/**
 * The button-event queue of the key-press dialog mode
 * (`btn_evt_q` in components/coze_manage/coze_chat_app.c): a FreeRTOS queue of
 * two `button_event_t` items, filled by the button callback with
 * `xQueueSend(..., 0)` and drained by the button task with `xQueueReceive`.
 *
 * A send with timeout 0 into a full queue fails at once and the event is lost,
 * so when the queue overflows it is the NEWEST event that is dropped.  The queue
 * is modelled as a ring buffer over a two-slot array; `Contents()` is the FIFO
 * it represents, and each method is specified by the pure functions `Send` and
 * `Receive` on that sequence.
 */
module ButtonQueue {
  import opened EspCommon

  /** The `button_event_t` values the task distinguishes; every other event of the
      button driver is `OtherButton`. */
  datatype ButtonEvent = PressDown | PressUp | OtherButton(code: int)

  /** `xQueueCreate(2, sizeof(button_event_t))`. */
  const QUEUE_LEN: nat := 2

  // ---------------------------------------------------------------------------
  // The FIFO the queue represents

  datatype SendResult = SendResult(queue: seq<ButtonEvent>, sent: bool)

  /** `xQueueSend` with timeout 0. */
  function Send(q: seq<ButtonEvent>, e: ButtonEvent): (r: SendResult)
    requires |q| <= QUEUE_LEN
    ensures |r.queue| <= QUEUE_LEN
    ensures r.sent <==> |q| < QUEUE_LEN
    ensures r.sent ==> r.queue == q + [e] && r.queue[|q|] == e
    ensures !r.sent ==> r.queue == q
  {
    if |q| < QUEUE_LEN then SendResult(q + [e], true) else SendResult(q, false)
  }

  datatype ReceiveResult = ReceiveResult(queue: seq<ButtonEvent>, event: Option<ButtonEvent>)

  /** `xQueueReceive`: `None` when the queue is empty, where the task stays blocked. */
  function Receive(q: seq<ButtonEvent>): (r: ReceiveResult)
    ensures q == [] <==> r.event.None?
    ensures q == [] ==> r.queue == q
    ensures q != [] ==> [r.event.value] + r.queue == q
  {
    if q == [] then ReceiveResult(q, None) else ReceiveResult(q[1..], Some(q[0]))
  }

  /** The queue after a burst of callbacks, with no receive in between. */
  function SendAll(q: seq<ButtonEvent>, es: seq<ButtonEvent>): (r: seq<ButtonEvent>)
    requires |q| <= QUEUE_LEN
    ensures |r| <= QUEUE_LEN
    decreases |es|
  {
    if es == [] then q else SendAll(Send(q, es[0]).queue, es[1..])
  }

  function Min(a: int, b: int): int {
    if a <= b then a else b
  }

  /** A burst keeps the oldest events: what is queued is the first events, up to
      the capacity, and every later one is dropped. */
  lemma {:induction false} SendAllKeepsOldest(q: seq<ButtonEvent>, es: seq<ButtonEvent>)
    requires |q| <= QUEUE_LEN
    ensures SendAll(q, es) == (q + es)[..Min(|q| + |es|, QUEUE_LEN)]
    decreases |es|
  {
    if es == [] {
      assert q + es == q;
    } else {
      var r := Send(q, es[0]);
      SendAllKeepsOldest(r.queue, es[1..]);
      if |q| < QUEUE_LEN {
        assert r.queue + es[1..] == q + es;
      } else {
        var n := Min(|r.queue| + |es[1..]|, QUEUE_LEN);
        assert n == QUEUE_LEN;
        assert (r.queue + es[1..])[..n] == q;
        assert (q + es)[..QUEUE_LEN] == q;
      }
    }
  }

  /** An event sent into a full queue is lost: later receives never see it. */
  lemma FullQueueDropsNewest(q: seq<ButtonEvent>, e: ButtonEvent)
    requires |q| == QUEUE_LEN
    ensures !Send(q, e).sent && Send(q, e).queue == q
    ensures Receive(Send(q, e).queue).event == Some(q[0])
  {
  }

  /** The events the task takes out, in order, receiving until the queue is empty. */
  function Drain(q: seq<ButtonEvent>): seq<ButtonEvent>
    decreases |q|
  {
    var r := Receive(q);
    if r.event.None? then [] else [r.event.value] + Drain(r.queue)
  }

  /** Receiving until empty gives back the queued events, oldest first. */
  lemma {:induction false} DrainInOrder(q: seq<ButtonEvent>)
    ensures Drain(q) == q
    decreases |q|
  {
    if q != [] {
      DrainInOrder(q[1..]);
    }
  }

  /** FIFO order: after any burst of sends, receiving until empty gives back the
      events already queued and then the accepted ones, in the order they were sent. */
  lemma FifoOrder(q: seq<ButtonEvent>, es: seq<ButtonEvent>)
    requires |q| <= QUEUE_LEN
    ensures Drain(SendAll(q, es)) == (q + es)[..Min(|q| + |es|, QUEUE_LEN)]
  {
    DrainInOrder(SendAll(q, es));
    SendAllKeepsOldest(q, es);
  }

  // ---------------------------------------------------------------------------
  // The ring buffer

  /** The slot `k` places after `head` in a ring of `n` slots. */
  function Slot(head: nat, k: nat, n: nat): (i: nat)
    requires head < n && k < n
    ensures i < n
  {
    if head + k < n then head + k else head + k - n
  }

  /** The slot after `head` in a ring of `n` slots. */
  function Next(head: nat, n: nat): (i: nat)
    requires head < n
    ensures i < n
  {
    if head + 1 < n then head + 1 else 0
  }

  /** The `count` items of `a` from slot `head` onwards, wrapping around the end. */
  function Ring(a: seq<ButtonEvent>, head: nat, count: nat): (r: seq<ButtonEvent>)
    requires head < |a| && count <= |a|
    ensures |r| == count
    ensures count > 0 ==> r[0] == a[head]
    decreases count
  {
    if count == 0 then [] else [a[head]] + Ring(a, Next(head, |a|), count - 1)
  }

  /** Writing the slot just past the last item appends it. */
  lemma {:induction false} RingAppend(a: seq<ButtonEvent>, head: nat, count: nat, e: ButtonEvent)
    requires head < |a| && count < |a|
    ensures Ring(a[Slot(head, count, |a|) := e], head, count + 1) == Ring(a, head, count) + [e]
    decreases count
  {
    var a' := a[Slot(head, count, |a|) := e];
    var next := Next(head, |a|);
    if count > 0 {
      assert Slot(next, count - 1, |a|) == Slot(head, count, |a|);
      RingAppend(a, next, count - 1, e);
    }
  }

  class Queue {
    const buf: array<ButtonEvent>
    var head: nat
    var count: nat

    predicate Valid()
      reads this
    {
      buf.Length == QUEUE_LEN && head < QUEUE_LEN && count <= QUEUE_LEN
    }

    /** The events waiting in the queue, oldest first. */
    function Contents(): seq<ButtonEvent>
      reads this, buf
      requires Valid()
    {
      Ring(buf[..], head, count)
    }

    constructor ()
      ensures Valid() && Contents() == [] && fresh(buf)
    {
      buf := new ButtonEvent[QUEUE_LEN];
      head := 0;
      count := 0;
    }

    /** `xQueueSend(btn_evt_q, &e, 0)`. */
    method Push(e: ButtonEvent) returns (sent: bool)
      requires Valid()
      modifies this, buf
      ensures Valid()
      ensures sent == Send(old(Contents()), e).sent
      ensures Contents() == Send(old(Contents()), e).queue
    {
      if count == QUEUE_LEN {
        return false;
      }
      ghost var a := buf[..];
      buf[Slot(head, count, QUEUE_LEN)] := e;
      assert buf[..] == a[Slot(head, count, |a|) := e];
      RingAppend(a, head, count, e);
      count := count + 1;
      return true;
    }

    /** `xQueueReceive(btn_evt_q, &e, portMAX_DELAY)`; `None` stands for the task
        staying blocked on an empty queue. */
    method Pop() returns (e: Option<ButtonEvent>)
      requires Valid()
      modifies this
      ensures Valid()
      ensures e == Receive(old(Contents())).event
      ensures Contents() == Receive(old(Contents())).queue
    {
      if count == 0 {
        return None;
      }
      e := Some(buf[head]);
      head := Next(head, QUEUE_LEN);
      count := count - 1;
    }
  }
}
