/**
 * LockingQueue (CXLight/DataStructures/LockingQueue/LockingQueue.cs): a FIFO
 * queue whose every operation holds one lock. The lock only serialises
 * calls, so the model is the sequential queue; `default(T1)` is the
 * parameter `dflt`.
 */
module LockingQueue {
  import opened Wrappers

  /** One call on the queue, for reasoning about call sequences. */
  datatype QueueOp<T> = Enq(x: T) | Deq

  /** The state after one call and the element it hands out, if any. */
  function Step<T>(items: seq<T>, op: QueueOp<T>): (r: (seq<T>, Option<T>))
    ensures op.Enq? ==> r == (items + [op.x], None)
    ensures op.Deq? && items == [] ==> r == ([], None)
    ensures op.Deq? && items != [] ==> r == (items[1..], Some(items[0]))
  {
    match op
    case Enq(x) => (items + [x], None)
    case Deq => if |items| > 0 then (items[1..], Some(items[0])) else (items, None)
  }

  function Delivered<T>(o: Option<T>): seq<T> {
    if o.Some? then [o.value] else []
  }

  /** Runs the calls in order: the final contents and the elements handed out. */
  function Run<T>(items: seq<T>, ops: seq<QueueOp<T>>): (seq<T>, seq<T>)
    decreases |ops|
  {
    if ops == [] then (items, [])
    else
      var (next, out) := Step(items, ops[0]);
      var (final, outs) := Run(next, ops[1..]);
      (final, Delivered(out) + outs)
  }

  /** The elements the calls put in, in call order. */
  function Enqueued<T>(ops: seq<QueueOp<T>>): seq<T> {
    if ops == [] then []
    else (if ops[0].Enq? then [ops[0].x] else []) + Enqueued(ops[1..])
  }

  /**
   * First in, first out: what was queued followed by what the calls put in
   * is exactly what the calls handed out followed by what is left.
   */
  lemma {:induction false} RunIsFifo<T>(items: seq<T>, ops: seq<QueueOp<T>>)
    ensures items + Enqueued(ops) == Run(items, ops).1 + Run(items, ops).0
    decreases |ops|
  {
    if ops != [] {
      var (next, out) := Step(items, ops[0]);
      RunIsFifo(next, ops[1..]);
      match ops[0]
      case Enq(x) =>
        calc {
          items + Enqueued(ops);
          items + ([x] + Enqueued(ops[1..]));
          (items + [x]) + Enqueued(ops[1..]);
        }
      case Deq =>
        if items != [] {
          calc {
            items + Enqueued(ops);
            items + Enqueued(ops[1..]);
            [items[0]] + (items[1..] + Enqueued(ops[1..]));
          }
        }
    }
  }

  /** Nothing is lost or invented: every element handed out or left over was queued or put in. */
  lemma RunConserves<T>(items: seq<T>, ops: seq<QueueOp<T>>)
    ensures |Run(items, ops).0| + |Run(items, ops).1| == |items| + |Enqueued(ops)|
    ensures multiset(Run(items, ops).1) + multiset(Run(items, ops).0) == multiset(items) + multiset(Enqueued(ops))
  {
    RunIsFifo(items, ops);
    var (final, outs) := Run(items, ops);
    assert multiset(items + Enqueued(ops)) == multiset(outs + final);
  }

  class LockingQueue<T> {
    /** The queue's contents, head first. */
    var items: seq<T>

    constructor()
      ensures items == []
    {
      items := [];
    }

    /** Dequeue: the head, or `dflt` (and no change) when the queue is empty. */
    method Dequeue(dflt: T) returns (x: T)
      modifies this
      ensures (items, if |old(items)| > 0 then Some(x) else None) == Step(old(items), Deq)
      ensures |old(items)| == 0 ==> x == dflt
    {
      if |items| > 0 {
        x := items[0];
        items := items[1..];
      } else {
        x := dflt;
      }
    }

    /** Enqueue: appends at the tail. */
    method Enqueue(action: T)
      modifies this
      ensures items == Step(old(items), Enq(action)).0
      ensures |items| == |old(items)| + 1 && items[|items| - 1] == action
    {
      items := items + [action];
    }

    /** Count: the number of queued elements. */
    function Count(): (n: nat)
      reads this
      ensures n == |items|
    {
      |items|
    }

    /** IsEmpty: true exactly when nothing is queued. */
    function IsEmpty(): (b: bool)
      reads this
      ensures b <==> items == []
    {
      Count() == 0
    }
  }

  /** Two elements come out in the order they went in, then the default. */
  method FifoOrder(a: int, b: int) returns (first: int, second: int, third: int)
    ensures first == a && second == b && third == 0
  {
    var q := new LockingQueue<int>();
    q.Enqueue(a);
    q.Enqueue(b);
    first := q.Dequeue(0);
    second := q.Dequeue(0);
    third := q.Dequeue(0);
  }
}
