/**
 * The depth-1, latest-wins frame queue between the capture thread and the
 * detection loop, in its sequential semantics: a put evicts any unread frame, a
 * read never blocks and empties the slot.
 */
module FrameBuffer {
  import opened Wrappers

  class FrameQueue<F> {
    /** The frame waiting in the queue, if any (`queue.Queue(maxsize=1)`). */
    var pending: Option<F>

    constructor()
      ensures pending == None
    {
      pending := None;
    }

    /** Producer side: discard an unread frame, then enqueue the new one. */
    method Put(frame: F)
      modifies this
      ensures pending == Some(frame)
    {
      if pending.Some? {
        pending := None;
      }
      pending := Some(frame);
    }

    /** Consumer side: `None` when empty, otherwise the frame, leaving the queue empty. */
    method Read() returns (r: Option<F>)
      modifies this
      ensures r == old(pending) && pending == None
    {
      if pending.None? {
        return None;
      }
      r := pending;
      pending := None;
    }
  }

  /** One thing that happens to the queue: the producer puts a frame or the consumer reads. */
  datatype QueueOp<F> = Write(frame: F) | Poll

  /**
   * What each operation hands to the consumer, starting from slot content `slot`:
   * a read hands over the slot's content, a write hands over nothing.
   */
  function Delivered<F>(slot: Option<F>, ops: seq<QueueOp<F>>): (r: seq<Option<F>>)
    ensures |r| == |ops|
    decreases |ops|
  {
    if |ops| == 0 then []
    else match ops[0]
      case Write(f) => [None] + Delivered(Some(f), ops[1..])
      case Poll => [slot] + Delivered(None, ops[1..])
  }

  /**
   * A read returns a frame exactly when the operation just before it was a write,
   * and then it returns that write's frame: the newest frame, at most once, and
   * `None` rather than a frame it already handed over.
   */
  lemma {:induction false} ReadSeesOnlyTheLatestUnreadFrame<F>(slot: Option<F>, ops: seq<QueueOp<F>>, k: nat)
    requires k < |ops| && ops[k].Poll?
    ensures Delivered(slot, ops)[k] ==
      if k == 0 then slot
      else if ops[k - 1].Write? then Some(ops[k - 1].frame)
      else None
    decreases k
  {
    if k > 0 {
      var next := match ops[0] case Write(f) => Some(f) case Poll => None;
      ReadSeesOnlyTheLatestUnreadFrame(next, ops[1..], k - 1);
    }
  }

  /** Replayed from an empty queue, every delivered frame was put by some write. */
  lemma NothingDeliveredUnwritten<F>(ops: seq<QueueOp<F>>, k: nat)
    requires k < |ops| && Delivered(None, ops)[k].Some?
    ensures ops[k].Poll? && k > 0 && ops[k - 1] == Write(Delivered(None, ops)[k].value)
  {
    if ops[k].Write? {
      WriteDeliversNothing(None, ops, k);
    } else {
      ReadSeesOnlyTheLatestUnreadFrame(None, ops, k);
    }
  }

  lemma {:induction false} WriteDeliversNothing<F>(slot: Option<F>, ops: seq<QueueOp<F>>, k: nat)
    requires k < |ops| && ops[k].Write?
    ensures Delivered(slot, ops)[k] == None
    decreases k
  {
    if k > 0 {
      var next := match ops[0] case Write(f) => Some(f) case Poll => None;
      WriteDeliversNothing(next, ops[1..], k - 1);
    }
  }

  /**
   * The producer's puts and the consumer's reads carried out one after the other on a
   * queue: what each operation hands to the consumer is what `Delivered` says.
   */
  method Replay<F>(q: FrameQueue<F>, ops: seq<QueueOp<F>>) returns (out: seq<Option<F>>)
    modifies q
    ensures out == Delivered(old(q.pending), ops)
    // the slot ends as the last operation left it: its frame after a put, empty after a read
    ensures |ops| == 0 ==> q.pending == old(q.pending)
    ensures |ops| > 0 ==> q.pending == (match ops[|ops| - 1] case Write(f) => Some(f) case Poll => None)
  {
    out := [];
    for i := 0 to |ops|
      invariant out + Delivered(q.pending, ops[i..]) == Delivered(old(q.pending), ops)
      invariant i == 0 ==> q.pending == old(q.pending)
      invariant i > 0 ==> q.pending == (match ops[i - 1] case Write(f) => Some(f) case Poll => None)
    {
      assert ops[i..][1..] == ops[i + 1..];
      match ops[i] {
        case Write(f) =>
          q.Put(f);
          out := out + [None];
        case Poll =>
          var r := q.Read();
          out := out + [r];
      }
    }
    assert ops[|ops|..] == [];
  }
}
