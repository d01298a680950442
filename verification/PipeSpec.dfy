/**
 A pipe's message store as values: the slots with their `head` and `tail` indices, each single update that
 a write or a read makes to them, and the FIFO queue they represent.
 */
module PipeSpec {
  import opened Types

  type Message = seq<Byte>

  /** One `ipc_pipe_message_t`: a buffer of the pipe's message size, and how much of it is used. */
  datatype Slot = Slot(buf: seq<Byte>, len: nat)

  datatype Ring = Ring(messageSize: nat, maxMessages: nat, purge: bool, slots: seq<Slot>, head: nat, tail: nat)

  ghost predicate WellFormed(r: Ring) {
    && 0 < r.maxMessages == |r.slots|
    && r.head < r.maxMessages && r.tail < r.maxMessages
    && forall i :: 0 <= i < |r.slots| ==> |r.slots[i].buf| == r.messageSize && r.slots[i].len <= r.messageSize
  }

  function Inc(r: Ring, i: nat): nat
    requires r.maxMessages > 0
  {
    (i + 1) % r.maxMessages
  }

  /** A pipe of one message is a slot whose `len` says whether it is used; any other keeps one slot free. */
  ghost predicate IsEmpty(r: Ring)
    requires WellFormed(r)
  {
    if r.maxMessages > 1 then r.head == r.tail else r.slots[0].len == 0
  }

  ghost predicate IsFull(r: Ring)
    requires WellFormed(r)
  {
    if r.maxMessages > 1 then Inc(r, r.head) == r.tail else r.slots[0].len != 0
  }

  ghost function SlotMessage(r: Ring, i: nat): Message
    requires WellFormed(r) && i < r.maxMessages
  {
    r.slots[i].buf[..r.slots[i].len]
  }

  // ---------------------------------------------------------------------------------------------
  // The queue that a ring stands for

  ghost function Capacity(r: Ring): nat
    requires WellFormed(r)
  {
    if r.maxMessages > 1 then r.maxMessages - 1 else 1
  }

  ghost function Count(r: Ring): (n: nat)
    requires WellFormed(r)
    ensures n <= Capacity(r)
  {
    if r.maxMessages == 1 then (if r.slots[0].len == 0 then 0 else 1)
    else if r.tail <= r.head then r.head - r.tail
    else r.head + r.maxMessages - r.tail
  }

  /** The slot of the `k`-th oldest message. */
  ghost function Place(r: Ring, k: nat): (i: nat)
    requires WellFormed(r) && k < r.maxMessages
    ensures i < r.maxMessages
  {
    if r.tail + k < r.maxMessages then r.tail + k else r.tail + k - r.maxMessages
  }

  ghost function Content(r: Ring): (q: seq<Message>)
    requires WellFormed(r)
    ensures |q| == Count(r)
  {
    seq(Count(r), k requires 0 <= k < Count(r) => SlotMessage(r, Place(r, k)))
  }

  /** What a write does to a bounded queue: when it is full, the oldest message goes. */
  function QueuePut(q: seq<Message>, capacity: nat, msg: Message): seq<Message> {
    (if |q| >= capacity > 0 then q[1..] else q) + [msg]
  }

  // ---------------------------------------------------------------------------------------------
  // The single updates

  ghost function Fresh(messageSize: nat, maxMessages: nat, purge: bool, memory: seq<seq<Byte>>): (r: Ring)
    requires 0 < maxMessages == |memory|
    requires forall i :: 0 <= i < |memory| ==> |memory[i]| == messageSize
    ensures WellFormed(r) && Content(r) == []
  {
    Ring(messageSize, maxMessages, purge,
         seq(maxMessages, i requires 0 <= i < maxMessages => Slot(memory[i], 0)), 0, 0)
  }

  ghost function DropOldest(r: Ring): (r': Ring)
    requires WellFormed(r)
    ensures WellFormed(r')
  {
    r.(tail := Inc(r, r.tail))
  }

  ghost function CopyIn(r: Ring, msg: Message): (r': Ring)
    requires WellFormed(r) && |msg| <= r.messageSize
    ensures WellFormed(r')
  {
    var s := r.slots[r.head];
    r.(slots := r.slots[r.head := s.(buf := msg + s.buf[|msg|..])])
  }

  ghost function SetLen(r: Ring, n: nat): (r': Ring)
    requires WellFormed(r) && n <= r.messageSize
    ensures WellFormed(r')
  {
    r.(slots := r.slots[r.head := r.slots[r.head].(len := n)])
  }

  ghost function AdvanceHead(r: Ring): (r': Ring)
    requires WellFormed(r)
    ensures WellFormed(r')
  {
    r.(head := Inc(r, r.head))
  }

  ghost function ClearLen(r: Ring): (r': Ring)
    requires WellFormed(r)
    ensures WellFormed(r')
  {
    r.(slots := r.slots[r.tail := r.slots[r.tail].(len := 0)])
  }

  ghost function AdvanceTail(r: Ring): (r': Ring)
    requires WellFormed(r)
    ensures WellFormed(r')
  {
    r.(tail := Inc(r, r.tail))
  }

  /** The whole of a write that finds room, makes room, or overwrites. */
  ghost function Put(r: Ring, msg: Message): (r': Ring)
    requires WellFormed(r) && |msg| <= r.messageSize
    ensures WellFormed(r')
  {
    var room := if IsFull(r) then DropOldest(r) else r;
    AdvanceHead(SetLen(CopyIn(room, msg), |msg|))
  }

  ghost function Take(r: Ring): (r': Ring)
    requires WellFormed(r)
    ensures WellFormed(r')
  {
    AdvanceTail(ClearLen(r))
  }

  // ---------------------------------------------------------------------------------------------
  // The tests and the updates, in terms of the queue

  lemma IncWraps(r: Ring, i: nat)
    requires r.maxMessages > 0 && i < r.maxMessages
    ensures Inc(r, i) == if i + 1 == r.maxMessages then 0 else i + 1
  {
  }

  /** Both tests say what their names say. */
  lemma TestsAreExact(r: Ring)
    requires WellFormed(r)
    ensures IsEmpty(r) <==> Content(r) == []
    ensures IsFull(r) <==> |Content(r)| == Capacity(r)
  {
    IncWraps(r, r.head);
  }

  lemma DropOldestContent(r: Ring)
    requires WellFormed(r) && r.maxMessages > 1 && !IsEmpty(r)
    ensures Content(r) != [] && Content(DropOldest(r)) == Content(r)[1..] && !IsFull(DropOldest(r))
  {
    IncWraps(r, r.tail);
    IncWraps(r, r.head);
    var r' := DropOldest(r);
    assert Count(r') == Count(r) - 1;
    forall k | 0 <= k < Count(r') ensures Place(r', k) == Place(r, k + 1) {}
  }

  /** Writing the buffer and the length of the head slot does not touch the queue of a many-message pipe. */
  lemma HeadSlotFree(r: Ring, r': Ring)
    requires WellFormed(r) && WellFormed(r') && r.maxMessages > 1
    requires r' == r.(slots := r'.slots)
    requires forall i :: 0 <= i < |r.slots| && i != r.head ==> r'.slots[i] == r.slots[i]
    ensures Content(r') == Content(r)
  {
    forall k | 0 <= k < Count(r) ensures SlotMessage(r', Place(r', k)) == SlotMessage(r, Place(r, k)) {
      assert Place(r, k) != r.head;
    }
  }

  lemma AdvanceHeadContent(r: Ring)
    requires WellFormed(r) && r.maxMessages > 1 && !IsFull(r)
    ensures Content(AdvanceHead(r)) == Content(r) + [SlotMessage(r, r.head)]
  {
    IncWraps(r, r.head);
    var r' := AdvanceHead(r);
    assert Count(r') == Count(r) + 1;
    forall k | 0 <= k < Count(r') ensures Place(r', k) == if k < Count(r) then Place(r, k) else r.head {}
  }

  lemma TakeContent(r: Ring)
    requires WellFormed(r) && !IsEmpty(r)
    ensures Content(r) != [] && SlotMessage(r, r.tail) == Content(r)[0]
    ensures Content(Take(r)) == Content(r)[1..]
  {
    assert Place(r, 0) == r.tail;
    if r.maxMessages > 1 {
      DropOldestContent(r);
      var r', r'' := DropOldest(r), Take(r);
      forall k | 0 <= k < Count(r') ensures SlotMessage(r'', Place(r'', k)) == SlotMessage(r', Place(r', k)) {
        IncWraps(r, r.tail);
        assert Place(r', k) != r.tail;
      }
    } else {
      assert Content(r)[1..] == [];
    }
  }

  /**
   A write appends its message to the queue, dropping the oldest message if there is no room, exactly when the
   message is not empty or the pipe holds more than one: a one-message pipe loses an empty message.
   */
  lemma PutRefinesQueue(r: Ring, msg: Message)
    requires WellFormed(r) && |msg| <= r.messageSize
    ensures Content(Put(r, msg)) == QueuePut(Content(r), Capacity(r), msg) <==> (r.maxMessages > 1 || msg != [])
    ensures r.maxMessages == 1 && msg == [] ==> Content(Put(r, msg)) == []
  {
    TestsAreExact(r);
    if r.maxMessages > 1 {
      if IsFull(r) {
        DropOldestContent(r);
      }
      var room := if IsFull(r) then DropOldest(r) else r;
      var stored := SetLen(CopyIn(room, msg), |msg|);
      HeadSlotFree(room, stored);
      AdvanceHeadContent(stored);
      assert SlotMessage(stored, stored.head) == msg;
    } else {
      var r' := Put(r, msg);
      assert r'.slots[0].buf[..|msg|] == msg;
      assert Content(r') == if msg == [] then [] else [msg];
      assert QueuePut(Content(r), 1, msg) == [msg];
    }
  }

  // ---------------------------------------------------------------------------------------------
  // Unused slots

  /** Outside the queue every slot has `len` 0. */
  ghost predicate Tidy(r: Ring)
    requires WellFormed(r)
  {
    forall i :: 0 <= i < |r.slots| && r.slots[i].len != 0 ==> InQueue(r, i)
  }

  ghost predicate InQueue(r: Ring, i: nat)
    requires WellFormed(r)
  {
    exists k :: 0 <= k < Count(r) && Place(r, k) == i
  }

  /**
   Purging a many-message pipe leaves the dropped message's `len` behind, so the slots are then tidy only if it was
   empty.
   */
  lemma PurgeIsNotTidy(r: Ring, msg: Message)
    requires WellFormed(r) && |msg| <= r.messageSize && r.maxMessages > 1 && IsFull(r)
    ensures Tidy(Put(r, msg)) <==> r.slots[r.tail].len == 0
  {
    IncWraps(r, r.head);
    IncWraps(r, r.tail);
    var r' := Put(r, msg);
    assert r'.head == r.tail;
    assert forall i :: 0 <= i < r.maxMessages && i != r.tail ==> InQueue(r', i) by {
      forall i: nat | i < r.maxMessages && i != r.tail ensures InQueue(r', i) {
        var k := if i >= r'.tail then i - r'.tail else i + r.maxMessages - r'.tail;
        assert Place(r', k) == i;
      }
    }
    assert !InQueue(r', r.tail);
  }
}
