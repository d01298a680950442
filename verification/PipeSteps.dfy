/**
 A pipe under its lock, one memory update at a time.

 The holder of the pipe's lock is somewhere inside `ipcm_pipe_write` or `ipcm_pipe_read`; `Advance` is its next
 update. Halfway through, head, tail, buffers and lengths are out of step, and a notified thread may already
 be running again. `PipeOk` says what holds at each point, and `Queue` which FIFO the pipe stands for there.
 */
module PipeSteps {
  import opened Types
  import opened PipeSpec

  datatype Op = WriteOp(msg: Message) | ReadOp

  datatype Result = Done | Got(msg: Message) | PipeFull | PipeEmpty | TooLarge | NotFound | BadParam

  /** The next update of the lock's holder. */
  datatype Pc =
    | Test                                       // the full or empty test
    | Purge | Copy | Length | Head               // a write that goes through
    | Fetch | Clear | Tail                       // a read that goes through
    | Append | Block                             // either, when it has to wait
    | Notify(left: nat)                          // `left` list nodes not yet notified, counted from the front
    | Unlock

  datatype Crit = Free | Held(tid: Tid, op: Op, pc: Pc, result: Result)

  /**
   `sent` and `received` are history: the messages written and read so far, in the order of the tests under the
   lock.
   */
  datatype Pipe = Pipe(
    ring: Ring, readers: seq<Tid>, writers: seq<Tid>, crit: Crit, sent: seq<Message>, received: seq<Message>)

  // ---------------------------------------------------------------------------------------------
  // The atomic pipe

  /** What an operation on a FIFO of this capacity gives back, and the queue it leaves. */
  function Answer(q: seq<Message>, capacity: nat, purge: bool, op: Op): Result {
    match op
    case WriteOp(_) => if |q| == capacity && !purge then PipeFull else Done
    case ReadOp => if q == [] then PipeEmpty else Got(q[0])
  }

  function After(q: seq<Message>, capacity: nat, purge: bool, op: Op): seq<Message> {
    match op
    case WriteOp(msg) => if |q| == capacity && !purge then q else QueuePut(q, capacity, msg)
    case ReadOp => if q == [] then q else q[1..]
  }

  // ---------------------------------------------------------------------------------------------
  // The updates

  /** The waiting list that this operation joins when it has to wait. */
  function OwnList(p: Pipe, op: Op): seq<Tid> {
    if op.WriteOp? then p.writers else p.readers
  }

  /** The waiting list that this operation notifies when it goes through. */
  function OtherList(p: Pipe, op: Op): seq<Tid> {
    if op.WriteOp? then p.readers else p.writers
  }

  ghost function Tested(p: Pipe): Pipe
    requires p.crit.Held? && WellFormed(p.ring)
  {
    match p.crit.op
    case WriteOp(msg) =>
      if IsFull(p.ring) && !p.ring.purge then p.(crit := p.crit.(pc := Append, result := PipeFull))
      else p.(crit := p.crit.(pc := if IsFull(p.ring) then Purge else Copy, result := Done), sent := p.sent + [msg])
    case ReadOp =>
      if IsEmpty(p.ring) then p.(crit := p.crit.(pc := Append, result := PipeEmpty))
      else p.(crit := p.crit.(pc := Fetch, result := Done),
              received := p.received + [SlotMessage(p.ring, p.ring.tail)])
  }

  /** The updates make sense: they stay inside the slots. `AlwaysRunnable` shows that this is never false. */
  ghost predicate Runnable(p: Pipe) {
    && p.crit.Held? && WellFormed(p.ring)
    && (if p.crit.op.WriteOp? then |p.crit.op.msg| <= p.ring.messageSize else !p.crit.pc.Copy? && !p.crit.pc.Length?)
  }

  ghost function Advance(p: Pipe): Pipe {
    if Runnable(p) then Updated(p) else p
  }

  ghost function Updated(p: Pipe): Pipe
    requires Runnable(p)
  {
    var c := p.crit;
    match c.pc
    case Test => Tested(p)
    case Purge => p.(ring := DropOldest(p.ring), crit := c.(pc := Copy))
    case Copy => p.(ring := CopyIn(p.ring, c.op.msg), crit := c.(pc := Length))
    case Length => p.(ring := SetLen(p.ring, |c.op.msg|), crit := c.(pc := Head))
    case Head => p.(ring := AdvanceHead(p.ring), crit := c.(pc := Notify(|p.readers|)))
    case Fetch => p.(crit := c.(pc := Clear, result := Got(SlotMessage(p.ring, p.ring.tail))))
    case Clear => p.(ring := ClearLen(p.ring), crit := c.(pc := Tail))
    case Tail => p.(ring := AdvanceTail(p.ring), crit := c.(pc := Notify(|p.writers|)))
    case Append =>
      if c.op.WriteOp? then p.(writers := p.writers + [c.tid], crit := c.(pc := Block))
      else p.(readers := p.readers + [c.tid], crit := c.(pc := Block))
    case Block => p.(crit := c.(pc := Unlock))
    case Notify(left) =>
      if left > 0 then p.(crit := c.(pc := Notify(left - 1)))
      else if c.op.WriteOp? then p.(readers := [], crit := c.(pc := Unlock))
      else p.(writers := [], crit := c.(pc := Unlock))
    case Unlock => p.(crit := Free)
  }

  // ---------------------------------------------------------------------------------------------
  // What holds at each point

  /** Whoever waits has reason to: readers only on an empty pipe, writers only on a full one. */
  ghost predicate Quiet(p: Pipe)
    requires WellFormed(p.ring)
  {
    && (p.readers != [] ==> IsEmpty(p.ring))
    && (p.writers != [] ==> IsFull(p.ring))
  }

  ghost predicate Room(r: Ring)
    requires WellFormed(r)
  {
    r.maxMessages > 1 ==> !IsFull(r)
  }

  ghost predicate CritOk(p: Pipe)
    requires WellFormed(p.ring) && p.crit.Held?
    requires p.crit.op.WriteOp? ==> |p.crit.op.msg| <= p.ring.messageSize
  {
    var c, r := p.crit, p.ring;
    match c.pc
    case Test => Quiet(p) && c.result == Done
    case Purge => c.op.WriteOp? && r.purge && IsFull(r) && c.result == Done
    case Copy => c.op.WriteOp? && p.writers == [] && Room(r) && c.result == Done
    case Length =>
      && c.op.WriteOp? && p.writers == [] && Room(r) && c.result == Done
      && r.slots[r.head].buf[..|c.op.msg|] == c.op.msg
    case Head =>
      && c.op.WriteOp? && p.writers == [] && (r.maxMessages > 1 ==> !IsFull(r)) && c.result == Done
      && r.slots[r.head].buf[..|c.op.msg|] == c.op.msg && r.slots[r.head].len == |c.op.msg|
    case Fetch => c.op.ReadOp? && !IsEmpty(r) && p.readers == []
    case Clear => c.op.ReadOp? && !IsEmpty(r) && p.readers == [] && c.result == Got(SlotMessage(r, r.tail))
    case Tail =>
      && c.op.ReadOp? && (r.maxMessages > 1 ==> !IsEmpty(r)) && r.slots[r.tail].len == 0
      && p.readers == [] && c.result.Got?
    case Append => Waiting(p)
    case Block => Waiting(p) && c.tid in OwnList(p, c.op)
    case Notify(left) => OwnList(p, c.op) == [] && left <= |OtherList(p, c.op)| && (c.op.WriteOp? ==> c.result == Done)
    case Unlock => Quiet(p) && (c.op.WriteOp? ==> c.result == Done || (c.result == PipeFull && !r.purge))
  }

  ghost predicate Waiting(p: Pipe)
    requires WellFormed(p.ring) && p.crit.Held?
  {
    && Quiet(p)
    && (if p.crit.op.WriteOp? then IsFull(p.ring) && !p.ring.purge && p.crit.result == PipeFull
        else IsEmpty(p.ring) && p.crit.result == PipeEmpty)
  }

  ghost predicate PipeOk(p: Pipe) {
    && WellFormed(p.ring)
    && (p.ring.purge ==> p.writers == [])
    && (p.readers == [] || p.writers == [])
    && (if p.crit.Free? then Quiet(p) else
          && (p.crit.op.WriteOp? ==> 0 < |p.crit.op.msg| <= p.ring.messageSize)
          && CritOk(p))
    && (!p.ring.purge ==> p.sent == p.received + Queue(p))
    && (p.received == [] ==> Queue(p) == Latest(p.sent, Capacity(p.ring)))
  }

  /** The last `n` messages, or all of them if there are no more. */
  function Latest(s: seq<Message>, n: nat): seq<Message> {
    if |s| <= n then s else s[|s| - n..]
  }

  lemma LatestPut(s: seq<Message>, n: nat, msg: Message)
    requires n > 0
    ensures Latest(s + [msg], n) == QueuePut(Latest(s, n), n, msg)
  {
  }

  /** The queue the pipe stands for: that of its ring, corrected for an operation that is past its test but not done. */
  ghost function Queue(p: Pipe): seq<Message>
    requires WellFormed(p.ring)
  {
    var q := Content(p.ring);
    if p.crit.Free? then q else
      match p.crit.pc
      case Purge => if p.crit.op.WriteOp? then (if q == [] then q else q[1..]) + [p.crit.op.msg] else q
      case Copy => Coming(q, p)
      case Length => Coming(q, p)
      case Head => Coming(q, p)
      case Fetch => Rest(q)
      case Clear => Rest(q)
      case Tail => Rest(q)
      case _ => q
  }

  ghost function Coming(q: seq<Message>, p: Pipe): seq<Message>
    requires p.crit.Held?
  {
    if !p.crit.op.WriteOp? then q
    else if p.ring.maxMessages > 1 then q + [p.crit.op.msg]
    else [p.crit.op.msg]
  }

  function Rest(q: seq<Message>): seq<Message> {
    if q == [] then q else q[1..]
  }

  /** What the lock's holder is going to return, known from its test on. */
  ghost function Outcome(p: Pipe): Result
    requires WellFormed(p.ring) && p.crit.Held?
  {
    if p.crit.pc == Fetch then Got(SlotMessage(p.ring, p.ring.tail)) else p.crit.result
  }

  // ---------------------------------------------------------------------------------------------
  // Every update keeps the invariant, and only the test is visible in the queue

  ghost predicate Refines(p: Pipe, p': Pipe)
    requires WellFormed(p.ring) && WellFormed(p'.ring) && p.crit.Held?
  {
    && p'.ring.purge == p.ring.purge && p'.ring.messageSize == p.ring.messageSize
    && Capacity(p'.ring) == Capacity(p.ring)
    && (if p.crit.pc == Test then
          && p'.crit.Held? && p'.crit.tid == p.crit.tid && p'.crit.pc != Test
          && Queue(p') == After(Queue(p), Capacity(p.ring), p.ring.purge, p.crit.op)
          && Outcome(p') == Answer(Queue(p), Capacity(p.ring), p.ring.purge, p.crit.op)
        else
          && Queue(p') == Queue(p)
          && (p.crit.pc == Unlock ==> p'.crit.Free?)
          && (p.crit.pc != Unlock ==> p'.crit.Held? && p'.crit.tid == p.crit.tid && p'.crit.pc != Test
                                      && Outcome(p') == Outcome(p)))
  }

  /** What an operation with this answer puts into the queue. */
  function PutBy(op: Op, answer: Result): seq<Message> {
    if op.WriteOp? && answer.Done? then [op.msg] else []
  }

  /** What it takes out. */
  function TakenBy(answer: Result): seq<Message> {
    if answer.Got? then [answer.msg] else []
  }

  /** The history is that of the tests, told from what the operations are going to return. */
  lemma AdvanceLogs(p: Pipe)
    requires PipeOk(p) && p.crit.Held?
    ensures var p' := Advance(p);
            if p.crit.pc.Test? then
              && p'.crit.Held? && WellFormed(p'.ring)
              && p'.sent == p.sent + PutBy(p.crit.op, Outcome(p')) && p'.received == p.received + TakenBy(Outcome(p'))
            else p'.sent == p.sent && p'.received == p.received
  {
  }

  lemma ReadTestStep(p: Pipe)
    requires PipeOk(p) && p.crit.Held? && p.crit.pc == Test && p.crit.op.ReadOp?
    ensures PipeOk(Advance(p)) && Refines(p, Advance(p))
  {
    TestsAreExact(p.ring);
    var p', q := Advance(p), Queue(p);
    if !IsEmpty(p.ring) {
      assert SlotMessage(p.ring, p.ring.tail) == q[0] by {
        TakeContent(p.ring);
      }
      assert Queue(p') == q[1..];
      assert p.received + q == p'.received + q[1..];
    }
  }

  lemma WriteTestStep(p: Pipe)
    requires PipeOk(p) && p.crit.Held? && p.crit.pc == Test && p.crit.op.WriteOp?
    ensures PipeOk(Advance(p)) && Refines(p, Advance(p))
  {
    TestsAreExact(p.ring);
    if !(IsFull(p.ring) && !p.ring.purge) {
      WriteAccepted(p, p.crit.op.msg);
    }
  }

  lemma WriteAccepted(p: Pipe, msg: Message)
    requires PipeOk(p) && p.crit.Held? && p.crit.pc == Test && p.crit.op == WriteOp(msg)
    requires IsFull(p.ring) ==> p.ring.purge
    ensures PipeOk(Advance(p)) && Refines(p, Advance(p))
  {
    TestsAreExact(p.ring);
    var p', q := Advance(p), Queue(p);
    QueueSums(p.received, q, msg);
    LatestPut(p.sent, Capacity(p.ring), msg);
    assert Queue(p') == QueuePut(q, Capacity(p.ring), msg);
    assert p'.sent == p.sent + [msg] && p'.received == p.received;
  }

  lemma QueueSums(received: seq<Message>, q: seq<Message>, msg: Message)
    ensures q == [] ==> q + [msg] == [msg]
    ensures |q| == 1 ==> q[1..] + [msg] == [msg]
    ensures received + q + [msg] == received + (q + [msg])
  {
  }

  lemma StoreStep(p: Pipe)
    requires PipeOk(p) && p.crit.Held? && (p.crit.pc.Purge? || p.crit.pc.Copy? || p.crit.pc.Length?)
    ensures PipeOk(Advance(p)) && Refines(p, Advance(p))
  {
    var p', r := Advance(p), p.ring;
    TestsAreExact(r);
    if r.maxMessages > 1 {
      if p.crit.pc.Purge? {
        DropOldestContent(r);
      } else {
        HeadSlotFree(r, p'.ring);
      }
    }
  }

  lemma HeadStep(p: Pipe)
    requires PipeOk(p) && p.crit.Held? && p.crit.pc.Head?
    ensures PipeOk(Advance(p)) && Refines(p, Advance(p))
  {
    TestsAreExact(p.ring);
    if p.ring.maxMessages > 1 {
      AdvanceHeadContent(p.ring);
    } else {
      assert Content(Advance(p).ring) == [p.crit.op.msg];
    }
  }

  lemma FetchStep(p: Pipe)
    requires PipeOk(p) && p.crit.Held? && p.crit.pc.Fetch?
    ensures PipeOk(Advance(p)) && Refines(p, Advance(p))
  {
  }

  lemma LoadStep(p: Pipe)
    requires PipeOk(p) && p.crit.Held? && (p.crit.pc.Clear? || p.crit.pc.Tail?)
    ensures PipeOk(Advance(p)) && Refines(p, Advance(p))
  {
    var p', r := Advance(p), p.ring;
    TestsAreExact(r);
    if r.maxMessages > 1 {
      if p.crit.pc.Clear? {
        ClearedRest(r);
      } else {
        DropOldestContent(r);
      }
    }
  }

  /** Clearing the length of the oldest message touches no other message. */
  lemma ClearedRest(r: Ring)
    requires WellFormed(r) && r.maxMessages > 1 && !IsEmpty(r)
    ensures Content(r) != [] && |Content(ClearLen(r))| == |Content(r)| && Content(ClearLen(r))[1..] == Content(r)[1..]
  {
    TestsAreExact(r);
    forall k | 0 < k < Count(r) ensures Content(ClearLen(r))[k] == Content(r)[k] {
      assert Place(r, k) != r.tail;
    }
  }

  lemma WaitStep(p: Pipe)
    requires PipeOk(p) && p.crit.Held? && (p.crit.pc.Append? || p.crit.pc.Block?)
    ensures PipeOk(Advance(p)) && Refines(p, Advance(p))
  {
    TestsAreExact(p.ring);
  }

  lemma FinishStep(p: Pipe)
    requires PipeOk(p) && p.crit.Held? && (p.crit.pc.Notify? || p.crit.pc.Unlock?)
    ensures PipeOk(Advance(p)) && Refines(p, Advance(p))
  {
  }

  lemma AdvanceRefines(p: Pipe)
    requires PipeOk(p) && p.crit.Held?
    ensures PipeOk(Advance(p)) && Refines(p, Advance(p))
  {
    match p.crit.pc
    case Test => if p.crit.op.ReadOp? { ReadTestStep(p); } else { WriteTestStep(p); }
    case Purge => StoreStep(p);
    case Copy => StoreStep(p);
    case Length => StoreStep(p);
    case Head => HeadStep(p);
    case Fetch => FetchStep(p);
    case Clear => LoadStep(p);
    case Tail => LoadStep(p);
    case Append => WaitStep(p);
    case Block => WaitStep(p);
    case _ => FinishStep(p);
  }

  // ---------------------------------------------------------------------------------------------
  // The threads that wait

  /** The nodes of the two lists whose thread is still to be notified. */
  function Pending(p: Pipe): seq<Tid> {
    if p.crit.Held? && p.crit.pc.Notify? && p.crit.pc.left <= |OtherList(p, p.crit.op)|
    then OtherList(p, p.crit.op)[..p.crit.pc.left]
    else p.readers + p.writers
  }

  predicate InLists(p: Pipe, t: Tid) {
    t in p.readers || t in p.writers
  }

  /** The update clears this thread's `blocked_by`. */
  function Woken(p: Pipe): Option<Tid> {
    if p.crit.Held? && p.crit.pc.Notify? && 0 < p.crit.pc.left <= |OtherList(p, p.crit.op)|
    then Some(OtherList(p, p.crit.op)[p.crit.pc.left - 1])
    else None
  }

  /** How the set of waiting threads changes: only the append adds to it, only a notification takes from it. */
  lemma PendingStep(p: Pipe)
    requires PipeOk(p) && p.crit.Held?
    ensures p.crit.pc.Append? ==> Pending(Advance(p)) == Pending(p) + [p.crit.tid]
    ensures !p.crit.pc.Append? ==>
              Pending(p) == Pending(Advance(p)) + if Woken(p).Some? then [Woken(p).value] else []
    ensures p.crit.pc.Block? ==> p.crit.tid in Pending(Advance(p))
  {
    TestsAreExact(p.ring);
    var p', c := Advance(p), p.crit;
    match c.pc
    case Append =>
      assert c.op.ReadOp? ==> p.writers == [];
      assert p.readers + (p.writers + [c.tid]) == (p.readers + p.writers) + [c.tid];
    case Notify(left) =>
      var list := OtherList(p, c.op);
      if left > 0 {
        assert list[..left] == list[..left - 1] + [list[left - 1]];
      }
    case Head => assert p.readers[..|p.readers|] == p.readers;
    case Tail => assert p.writers[..|p.writers|] == p.writers;
    case _ =>
  }

  /** The change of the waiting threads from `p` to `p'`, as `PendingStep` states it for one update. */
  ghost predicate WaitersChange(p: Pipe, p': Pipe)
    requires p.crit.Held?
  {
    && (p.crit.pc.Append? ==> Pending(p') == Pending(p) + [p.crit.tid] && p'.crit.Held? && p'.crit.pc.Block?)
    && (!p.crit.pc.Append? ==> Pending(p) == Pending(p') + if Woken(p).Some? then [Woken(p).value] else [])
    && (p.crit.pc.Block? ==> p.crit.tid in Pending(p') && p'.crit.Held? && p'.crit.pc.Unlock?)
    && (forall t :: InLists(p', t) ==> InLists(p, t) || t == p.crit.tid)
  }

  lemma AdvanceChanges(p: Pipe)
    requires PipeOk(p) && p.crit.Held?
    ensures WaitersChange(p, Advance(p))
  {
    PendingStep(p);
  }

  // ---------------------------------------------------------------------------------------------
  // The updates of one operation, put together

  /** The updates that the lock's holder still has to make. */
  ghost function StepsLeft(p: Pipe): nat {
    if p.crit.Free? || !WellFormed(p.ring) then 0 else
      match p.crit.pc
      case Test =>
        if p.crit.op.WriteOp? then
          (if !IsFull(p.ring) then |p.readers| + 6 else if p.ring.purge then |p.readers| + 7 else 4)
        else if IsEmpty(p.ring) then 4
        else |p.writers| + 6
      case Purge => |p.readers| + 6
      case Copy => |p.readers| + 5
      case Length => |p.readers| + 4
      case Head => |p.readers| + 3
      case Fetch => |p.writers| + 5
      case Clear => |p.writers| + 4
      case Tail => |p.writers| + 3
      case Append => 3
      case Block => 2
      case Notify(left) => left + 2
      case Unlock => 1
  }

  /** No update is ever out of place: it never reaches outside the slots. */
  lemma AlwaysRunnable(p: Pipe)
    requires PipeOk(p) && p.crit.Held?
    ensures Runnable(p) && Advance(p) == Updated(p)
  {
  }

  lemma TestProceeds(p: Pipe)
    requires Runnable(p) && p.crit.pc.Test? && WellFormed(Advance(p).ring)
    ensures StepsLeft(Advance(p)) + 1 == StepsLeft(p) > 1 && Advance(p).crit.Held?
  {
  }

  lemma LaterProceeds(p: Pipe)
    requires Runnable(p) && !p.crit.pc.Test? && WellFormed(Advance(p).ring)
    ensures StepsLeft(Advance(p)) + 1 == StepsLeft(p) && (Advance(p).crit.Free? <==> StepsLeft(p) == 1)
  {
    var p' := Updated(p);
    assert p.crit.pc.Unlock? <==> p'.crit.Free?;
    assert p.crit.pc.Append? || p.crit.pc.Notify? || p.crit.pc.Unlock?
           || (p'.readers == p.readers && p'.writers == p.writers);
  }

  /** Each update brings the end of the operation one step nearer. */
  lemma AdvanceProceeds(p: Pipe)
    requires PipeOk(p) && p.crit.Held?
    ensures WellFormed(Advance(p).ring) && StepsLeft(Advance(p)) + 1 == StepsLeft(p)
    ensures Advance(p).crit.Free? <==> StepsLeft(p) == 1
  {
    AlwaysRunnable(p);
    AdvanceRefines(p);
    if p.crit.pc.Test? {
      TestProceeds(p);
    } else {
      LaterProceeds(p);
    }
  }

  /** The pipe after `n` updates of the lock's holder. */
  ghost function AdvanceBy(p: Pipe, n: nat): Pipe
    decreases n
  {
    if n == 0 then p else AdvanceBy(Advance(p), n - 1)
  }

  /** Every operation comes to its end, and not before `StepsLeft` says so. */
  lemma {:induction false} OperationEnds(p: Pipe, n: nat)
    requires PipeOk(p) && n <= StepsLeft(p)
    ensures PipeOk(AdvanceBy(p, n)) && (AdvanceBy(p, n).crit.Free? <==> n == StepsLeft(p))
    decreases n
  {
    if n > 0 {
      AdvanceProceeds(p);
      AdvanceRefines(p);
      OperationEnds(Advance(p), n - 1);
    }
  }

  /** From the notification on only the other side's list changes: it ends up empty, and the lock free. */
  lemma {:induction false} NotifyAlone(p: Pipe)
    requires PipeOk(p) && p.crit.Held? && p.crit.pc.Notify?
    ensures AdvanceBy(p, StepsLeft(p))
            == if p.crit.op.WriteOp? then p.(readers := [], crit := Free) else p.(writers := [], crit := Free)
    decreases StepsLeft(p)
  {
    var p1 := Advance(p);
    AdvanceProceeds(p);
    AdvanceRefines(p);
    if p.crit.pc.left > 0 {
      NotifyAlone(p1);
    } else {
      assert AdvanceBy(p1, 1) == Advance(p1);
    }
  }

  lemma FourMore(p: Pipe, n: nat)
    ensures AdvanceBy(p, n + 4) == AdvanceBy(Advance(Advance(Advance(Advance(p)))), n)
  {
    var p1 := Advance(p);
    var p2 := Advance(p1);
    assert AdvanceBy(p, n + 4) == AdvanceBy(p1, n + 3) == AdvanceBy(p2, n + 2) == AdvanceBy(Advance(p2), n + 1);
  }

  /** The pipe when an operation that has to wait is over. */
  ghost function Refused(p: Pipe): Pipe
    requires p.crit.Held?
  {
    if p.crit.op.WriteOp? then p.(writers := p.writers + [p.crit.tid], crit := Free)
    else p.(readers := p.readers + [p.crit.tid], crit := Free)
  }

  /** The pipe when an operation that goes through is over. */
  ghost function Accepted(p: Pipe): Pipe
    requires Runnable(p)
  {
    match p.crit.op
    case WriteOp(msg) => p.(ring := Put(p.ring, msg), readers := [], crit := Free, sent := p.sent + [msg])
    case ReadOp =>
      p.(ring := Take(p.ring), writers := [], crit := Free,
         received := p.received + [SlotMessage(p.ring, p.ring.tail)])
  }

  lemma RefusedAlone(p: Pipe)
    requires PipeOk(p) && p.crit.Held? && p.crit.pc.Test?
    requires if p.crit.op.WriteOp? then IsFull(p.ring) && !p.ring.purge else IsEmpty(p.ring)
    ensures AdvanceBy(p, StepsLeft(p)) == Refused(p)
  {
    var p1 := p.(crit := p.crit.(pc := Append, result := if p.crit.op.WriteOp? then PipeFull else PipeEmpty));
    assert Advance(p) == p1;
    WaitAlone(p1);
    FourMore(p, 0);
  }

  lemma WaitAlone(p: Pipe)
    requires Runnable(p) && p.crit.pc.Append?
    ensures Advance(Advance(Advance(p))) == Refused(p)
  {
    var p1 := if p.crit.op.WriteOp? then p.(writers := p.writers + [p.crit.tid], crit := p.crit.(pc := Block))
              else p.(readers := p.readers + [p.crit.tid], crit := p.crit.(pc := Block));
    assert Advance(p) == p1;
  }

  /** The message stored, by a write that is past its test and has made room. */
  lemma StoreAlone(p: Pipe)
    requires Runnable(p) && p.crit.pc.Copy? && p.crit.op.WriteOp?
    ensures var msg := p.crit.op.msg;
            Advance(Advance(Advance(p)))
            == p.(ring := AdvanceHead(SetLen(CopyIn(p.ring, msg), |msg|)), crit := p.crit.(pc := Notify(|p.readers|)))
  {
    var msg, c := p.crit.op.msg, p.crit;
    var p1 := p.(ring := CopyIn(p.ring, msg), crit := c.(pc := Length));
    assert Advance(p) == p1;
    var p2 := p1.(ring := SetLen(p1.ring, |msg|), crit := c.(pc := Head));
    assert Advance(p1) == p2;
  }

  /** A write past its test, with room made: where its message goes next. */
  ghost function Admitted(p: Pipe): Pipe
    requires Runnable(p) && p.crit.op.WriteOp?
  {
    p.(ring := if IsFull(p.ring) then DropOldest(p.ring) else p.ring, crit := p.crit.(pc := Copy, result := Done),
       sent := p.sent + [p.crit.op.msg])
  }

  /** A write with its message stored, about to notify. */
  ghost function Stored(p: Pipe): Pipe
    requires Runnable(p) && p.crit.op.WriteOp?
  {
    p.(ring := Put(p.ring, p.crit.op.msg), crit := p.crit.(pc := Notify(|p.readers|), result := Done),
       sent := p.sent + [p.crit.op.msg])
  }

  lemma AdmittedBy(p: Pipe)
    requires Runnable(p) && p.crit.pc.Test? && p.crit.op.WriteOp? && (IsFull(p.ring) ==> p.ring.purge)
    ensures Admitted(p) == if IsFull(p.ring) then Advance(Advance(p)) else Advance(p)
  {
    var p1 := p.(crit := p.crit.(pc := if IsFull(p.ring) then Purge else Copy, result := Done),
                 sent := p.sent + [p.crit.op.msg]);
    assert Advance(p) == p1;
  }

  lemma StoredBy(p: Pipe)
    requires Runnable(p) && p.crit.pc.Test? && p.crit.op.WriteOp? && (IsFull(p.ring) ==> p.ring.purge)
    ensures Stored(p) == Advance(Advance(Advance(Admitted(p))))
  {
    StoreAlone(Admitted(p));
  }

  lemma StoredReached(p: Pipe)
    requires PipeOk(p) && p.crit.Held? && p.crit.pc.Test? && p.crit.op.WriteOp? && (IsFull(p.ring) ==> p.ring.purge)
    ensures Runnable(p) && PipeOk(Stored(p))
    ensures AdvanceBy(p, StepsLeft(p)) == AdvanceBy(Stored(p), |p.readers| + 2)
  {
    AdmittedBy(p);
    StoredBy(p);
    StoredOk(p);
    if IsFull(p.ring) {
      FourMore(Advance(p), |p.readers| + 2);
    } else {
      FourMore(p, |p.readers| + 2);
    }
  }

  lemma WriteAccepts(p: Pipe)
    requires PipeOk(p) && p.crit.Held? && p.crit.pc.Test? && p.crit.op.WriteOp? && (IsFull(p.ring) ==> p.ring.purge)
    ensures Runnable(p) && AdvanceBy(p, StepsLeft(p)) == Accepted(p)
  {
    StoredReached(p);
    NotifyAlone(Stored(p));
  }

  lemma StoredOk(p: Pipe)
    requires PipeOk(p) && p.crit.Held? && p.crit.pc.Test? && p.crit.op.WriteOp?
    requires IsFull(p.ring) ==> p.ring.purge
    ensures var p2 := if IsFull(p.ring) then Advance(Advance(p)) else Advance(p);
            PipeOk(Advance(Advance(Advance(p2))))
  {
    AdvanceRefines(p);
    var p1 := Advance(p);
    AdvanceRefines(p1);
    var p2 := if IsFull(p.ring) then Advance(p1) else p1;
    AdvanceRefines(p2);
    AdvanceRefines(Advance(p2));
    AdvanceRefines(Advance(Advance(p2)));
  }

  lemma ReadAccepts(p: Pipe)
    requires PipeOk(p) && p.crit.Held? && p.crit.pc.Test? && p.crit.op.ReadOp? && !IsEmpty(p.ring)
    ensures AdvanceBy(p, StepsLeft(p)) == Accepted(p)
    ensures var p2 := Advance(Advance(p)); p2.crit.Held? && p2.crit.result == Got(Content(p.ring)[0])
  {
    TakeContent(p.ring);
    var p1, c := Advance(p), p.crit;
    var p2 := Advance(p1);
    var p3 := Advance(p2);
    var p4 := Advance(p3);
    AdvanceRefines(p);
    AdvanceRefines(p1);
    AdvanceRefines(p2);
    AdvanceRefines(p3);
    FourMore(p, |p.writers| + 2);
    NotifyAlone(p4);
  }

  /**
   Left alone, the updates of an operation come to the whole of it: refused, with its thread at the end of the
   waiting list, or gone through, with the message put in or taken out and the other side's list notified.
   */
  lemma OperationAlone(p: Pipe)
    requires PipeOk(p) && p.crit.Held? && p.crit.pc.Test?
    ensures Runnable(p)
    ensures var wait := if p.crit.op.WriteOp? then IsFull(p.ring) && !p.ring.purge else IsEmpty(p.ring);
            AdvanceBy(p, StepsLeft(p)) == if wait then Refused(p) else Accepted(p)
  {
    if p.crit.op.WriteOp? {
      if IsFull(p.ring) && !p.ring.purge {
        RefusedAlone(p);
      } else {
        WriteAccepts(p);
      }
    } else if IsEmpty(p.ring) {
      RefusedAlone(p);
    } else {
      ReadAccepts(p);
    }
  }
}
