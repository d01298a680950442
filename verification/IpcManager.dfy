/**
 The IPC manager in its own form: a pipe is an object whose slots, indices and waiting lists are updated in
 place. What follows is what one call does while it holds the pipe's lock; `KernelMachine` takes the same
 updates one at a time.
 */
module IpcManager {
  import opened Types
  import opened PipeSpec
  import opened ProcessManager

  const IPC_RESULT_OK: int := 0
  const IPC_RESULT_MESSAGE_TOO_LARGE: int := -2
  const IPC_RESULT_PIPE_EMPTY: int := -3
  const IPC_RESULT_PIPE_FULL: int := -4

  const FIRST_PIPE_ID: SizeT := 1000

  /** `memcpy`, which the kernel's own library does byte by byte. */
  method MemCopy(dest: array<Byte>, src: seq<Byte>)
    requires |src| <= dest.Length
    modifies dest
    ensures dest[..] == src + old(dest[..])[|src|..]
  {
    var i := 0;
    while i < |src|
      invariant i <= |src|
      invariant forall j :: 0 <= j < dest.Length ==> dest[j] == if j < i then src[j] else old(dest[j])
    {
      dest[i] := src[i];
      i := i + 1;
    }
  }

  class MessageSlot {
    const message: array<Byte>
    var len: nat

    constructor (messageSize: nat)
      ensures fresh(message) && message.Length == messageSize && len == 0
    {
      message := new Byte[messageSize];
      len := 0;
    }

    function View(): Slot
      reads this, message
    {
      Slot(message[..], len)
    }
  }

  class Pipe {
    const id: PipeId
    const name: string
    const messageSize: nat
    const maxMessages: nat
    const purge: bool
    const messages: seq<MessageSlot>
    var head: nat
    var tail: nat
    var readers: seq<Thread>
    var writers: seq<Thread>
    /** The abstract state. */
    ghost var ring: Ring
    ghost const Repr: set<object>

    ghost predicate Valid()
      reads this, Repr
    {
      && this in Repr && (forall o :: o in Repr ==> !(o is Thread))
      && |messages| == maxMessages > 0
      && (forall i :: 0 <= i < |messages| ==>
            && messages[i] in Repr && messages[i].message in Repr
            && messages[i].message.Length == messageSize && messages[i].len <= messageSize)
      && (forall i, j :: 0 <= i < j < |messages| ==>
           messages[i] != messages[j] && messages[i].message != messages[j].message)
      && WellFormed(ring)
      && ring.messageSize == messageSize && ring.maxMessages == maxMessages && ring.purge == purge
      && ring.head == head && ring.tail == tail
      && (forall i :: 0 <= i < |messages| ==> ring.slots[i] == messages[i].View())
    }

    /** The pipe that `ipcm_pipe_create` allocates; it is empty whatever the allocated buffers hold. */
    constructor (id: PipeId, name: string, messageSize: nat, maxMessages: nat, purge: bool)
      requires maxMessages > 0
      ensures Valid() && fresh(Repr)
      ensures this.id == id && this.name == name && this.messageSize == messageSize
      ensures this.maxMessages == maxMessages && this.purge == purge
      ensures readers == [] && writers == [] && Content(ring) == [] && Tidy(ring)
    {
      var slots: seq<MessageSlot> := [];
      ghost var repr: set<object> := {};
      while |slots| < maxMessages
        invariant |slots| <= maxMessages && fresh(repr) && (forall o :: o in repr ==> !(o is Thread))
        invariant forall i :: 0 <= i < |slots| ==>
          && slots[i] in repr && slots[i].message in repr
          && slots[i].message.Length == messageSize && slots[i].len == 0
        invariant forall i, j :: 0 <= i < j < |slots| ==> slots[i] != slots[j] && slots[i].message != slots[j].message
      {
        var slot := new MessageSlot(messageSize);
        slots := slots + [slot];
        repr := repr + {slot, slot.message};
      }
      this.id, this.name := id, name;
      this.messageSize, this.maxMessages, this.purge := messageSize, maxMessages, purge;
      this.messages := slots;
      this.head, this.tail := 0, 0;
      this.readers, this.writers := [], [];
      this.ring := Ring(messageSize, maxMessages, purge,
                        seq(maxMessages, i requires 0 <= i < |slots|
                                           reads set s | s in slots, set s | s in slots :: s.message
                                           => slots[i].View()), 0, 0);
      this.Repr := repr + {this};
    }

    method Empty() returns (empty: bool)
      requires Valid()
      ensures empty == IsEmpty(ring)
    {
      if maxMessages > 1 {
        empty := head == tail;
      } else {
        assert ring.slots[0] == messages[0].View();
        empty := messages[0].len == 0;
      }
    }

    method Full() returns (full: bool)
      requires Valid()
      ensures full == IsFull(ring)
    {
      if maxMessages > 1 {
        full := (head + 1) % maxMessages == tail;
      } else {
        assert ring.slots[0] == messages[0].View();
        full := messages[0].len != 0;
      }
    }

    /** The message goes into the head slot, and the head moves on. */
    method Enqueue(msg: Message)
      requires Valid() && |msg| <= messageSize
      modifies messages[head], messages[head].message, this`ring, this`head
      ensures Valid()
      ensures ring == AdvanceHead(SetLen(CopyIn(old(ring), msg), |msg|))
    {
      var slot := messages[head];
      assert ring.slots[head] == slot.View();
      MemCopy(slot.message, msg);
      slot.len := |msg|;
      head := (head + 1) % maxMessages;
      ring := AdvanceHead(SetLen(CopyIn(ring, msg), |msg|));
    }

    /** The message leaves the tail slot, and the tail moves on. */
    method Dequeue() returns (got: Message)
      requires Valid() && !IsEmpty(ring)
      modifies messages[tail], this`ring, this`tail
      ensures Valid()
      ensures ring == Take(old(ring))
      ensures [got] + Content(ring) == Content(old(ring))
    {
      TakeContent(ring);
      var slot := messages[tail];
      assert ring.slots[tail] == slot.View();
      got := slot.message[..slot.len];
      slot.len := 0;
      tail := (tail + 1) % maxMessages;
      ring := Take(ring);
    }

    /** A write that goes through; on a full pipe it makes room first. */
    method Deposit(msg: Message, full: bool)
      requires Valid() && |msg| <= messageSize && full == IsFull(ring)
      modifies messages[head], messages[head].message, this`ring, this`head, this`tail
      ensures Valid()
      ensures ring == Put(old(ring), msg)
      ensures maxMessages > 1 || msg != [] ==>
                Content(ring) == QueuePut(Content(old(ring)), Capacity(old(ring)), msg)
    {
      PutRefinesQueue(ring, msg);
      if full {
        tail := (tail + 1) % maxMessages;
        ring := DropOldest(ring);
      }
      Enqueue(msg);
    }

    /** A write that has to wait. */
    method JoinWriters(from: Thread)
      requires Valid()
      modifies this`writers, from`blockedBy
      ensures Valid() && writers == old(writers) + [from] && from.blockedBy == Some(id)
    {
      writers := writers + [from];
      from.blockedBy := Some(id);
    }

    /** A read that has to wait. */
    method JoinReaders(to: Thread)
      requires Valid()
      modifies this`readers, to`blockedBy
      ensures Valid() && readers == old(readers) + [to] && to.blockedBy == Some(id)
    {
      readers := readers + [to];
      to.blockedBy := Some(id);
    }

    method NotifyReaders()
      requires Valid()
      modifies this`readers, (set t | t in readers)`blockedBy
      ensures Valid() && readers == [] && forall t :: t in old(readers) ==> t.blockedBy == None
    {
      NotifyAll(readers);
      readers := [];
    }

    method NotifyWriters()
      requires Valid()
      modifies this`writers, (set t | t in writers)`blockedBy
      ensures Valid() && writers == [] && forall t :: t in old(writers) ==> t.blockedBy == None
    {
      NotifyAll(writers);
      writers := [];
    }

    /** A write that goes through, with its notification. */
    method Accept(msg: Message, full: bool)
      requires Valid() && |msg| <= messageSize && full == IsFull(ring)
      modifies Repr, (set t | t in readers)`blockedBy
      ensures Valid() && ring == Put(old(ring), msg) && readers == [] && writers == old(writers)
      ensures forall t :: t in old(readers) ==> t.blockedBy == None
      ensures maxMessages > 1 || msg != [] ==>
                Content(ring) == QueuePut(Content(old(ring)), Capacity(old(ring)), msg)
    {
      Deposit(msg, full);
      NotifyReaders();
    }

    /** `ipcm_pipe_write`, from the size check on. */
    method Write(from: Thread, msg: Message) returns (result: int)
      requires Valid()
      modifies Repr, from`blockedBy, (set t | t in readers)`blockedBy
      ensures Valid()
      ensures result == IPC_RESULT_MESSAGE_TOO_LARGE <==> |msg| > messageSize
      ensures result == IPC_RESULT_PIPE_FULL <==> |msg| <= messageSize && IsFull(old(ring)) && !purge
      ensures result == IPC_RESULT_OK <==> |msg| <= messageSize && (IsFull(old(ring)) ==> purge)
      ensures ring == if result == IPC_RESULT_OK then Put(old(ring), msg) else old(ring)
      ensures readers == if result == IPC_RESULT_OK then [] else old(readers)
      ensures writers == old(writers) + if result == IPC_RESULT_PIPE_FULL then [from] else []
      ensures forall t :: t == from || t in old(readers) ==>
                t.blockedBy == if result == IPC_RESULT_PIPE_FULL && t == from then Some(id)
                               else if result == IPC_RESULT_OK && t in old(readers) then None
                               else old(t.blockedBy)
      ensures result == IPC_RESULT_OK && (maxMessages > 1 || msg != []) ==>
                Content(ring) == QueuePut(Content(old(ring)), Capacity(old(ring)), msg)
    {
      if |msg| > messageSize {
        return IPC_RESULT_MESSAGE_TOO_LARGE;
      }
      var full := Full();
      if full && !purge {
        JoinWriters(from);
        return IPC_RESULT_PIPE_FULL;
      }
      Accept(msg, full);
      return IPC_RESULT_OK;
    }

    /** `ipcm_pipe_read`, from the lock on. `got` is what ends up in the caller's buffer. */
    method Read(to: Thread) returns (result: int, got: Message)
      requires Valid()
      modifies Repr, to`blockedBy, (set t | t in writers)`blockedBy
      ensures Valid()
      ensures result == if IsEmpty(old(ring)) then IPC_RESULT_PIPE_EMPTY else IPC_RESULT_OK
      ensures ring == if result == IPC_RESULT_OK then Take(old(ring)) else old(ring)
      ensures writers == if result == IPC_RESULT_OK then [] else old(writers)
      ensures readers == old(readers) + if result == IPC_RESULT_PIPE_EMPTY then [to] else []
      ensures forall t :: t == to || t in old(writers) ==>
                t.blockedBy == if result == IPC_RESULT_PIPE_EMPTY && t == to then Some(id)
                               else if result == IPC_RESULT_OK && t in old(writers) then None
                               else old(t.blockedBy)
      ensures result == IPC_RESULT_OK ==> [got] + Content(ring) == Content(old(ring))
    {
      got := [];
      var empty := Empty();
      if empty {
        JoinReaders(to);
        return IPC_RESULT_PIPE_EMPTY, got;
      }
      got := Dequeue();
      NotifyWriters();
      return IPC_RESULT_OK, got;
    }
  }

  /** The pipe list and the id counter, with the system calls' handlers. */
  class Manager {
    var pipes: seq<Pipe>
    var nextId: SizeT

    ghost predicate Valid()
      reads this, pipes, Footprint()
    {
      && (forall i :: 0 <= i < |pipes| ==> pipes[i].Valid() && this !in pipes[i].Repr)
      && (forall i, j {:trigger Separate(pipes[i], pipes[j])} :: 0 <= i < j < |pipes| ==> Separate(pipes[i], pipes[j]))
    }

    /** Two pipes share no slot and no buffer. */
    static ghost predicate Separate(p: Pipe, q: Pipe) {
      p.Repr !! q.Repr
    }

    ghost function Footprint(): set<object>
      reads this
    {
      set p, o | p in pipes && o in p.Repr :: o
    }

    ghost function Waiters(): set<Thread>
      reads this, pipes
    {
      set p, t | p in pipes && t in p.readers + p.writers :: t
    }

    constructor ()
      ensures Valid() && pipes == [] && nextId == FIRST_PIPE_ID
    {
      pipes := [];
      nextId := FIRST_PIPE_ID;
    }

    /** The create call; a pipe of no messages or of empty messages is refused. */
    method PipeCreate(name: string, messageSize: nat, maxMessages: nat, overwrite: bool) returns (result: int)
      requires Valid()
      modifies this
      ensures Valid()
      ensures messageSize == 0 || maxMessages == 0 ==>
                result == SYSCALL_RESULT_BAD_PARAM && pipes == old(pipes) && nextId == old(nextId)
      ensures messageSize > 0 && maxMessages > 0 ==>
                && result == SYSCALL_RESULT_OK && |pipes| == |old(pipes)| + 1 && pipes[..|old(pipes)|] == old(pipes)
                && nextId == (old(nextId) + 1) % (SIZE_MAX + 1)
                && var p := pipes[|old(pipes)|];
                   && p.id == old(nextId) && p.name == name && p.messageSize == messageSize
                   && p.maxMessages == maxMessages && p.purge == overwrite && Content(p.ring) == []
    {
      if messageSize == 0 || maxMessages == 0 {
        return SYSCALL_RESULT_BAD_PARAM;
      }
      var pipe := new Pipe(nextId, name, messageSize, maxMessages, overwrite);
      nextId := (nextId + 1) % (SIZE_MAX + 1);
      pipes := pipes + [pipe];
      return SYSCALL_RESULT_OK;
    }

    /** The first pipe of the list with this id. */
    ghost predicate IsFirst(pipe: Pipe, id: PipeId)
      reads this
    {
      exists i :: 0 <= i < |pipes| && pipes[i] == pipe && pipe.id == id && forall j :: 0 <= j < i ==> pipes[j].id != id
    }

    /** The oldest pipe of that id: the counter may have wrapped, and ids repeated. */
    method LookupById(id: PipeId) returns (pipe: Pipe?)
      ensures pipe == null <==> forall p :: p in pipes ==> p.id != id
      ensures pipe != null ==> pipe in pipes && IsFirst(pipe, id)
    {
      var i := 0;
      while i < |pipes|
        invariant i <= |pipes|
        invariant forall j :: 0 <= j < i ==> pipes[j].id != id
      {
        if pipes[i].id == id {
          return pipes[i];
        }
        i := i + 1;
      }
      return null;
    }

    /** The oldest pipe of that name. */
    method LookupByName(name: string) returns (pipe: Pipe?)
      ensures pipe == null <==> forall p :: p in pipes ==> p.name != name
      ensures pipe != null ==>
                exists i :: 0 <= i < |pipes| && pipes[i] == pipe && pipe.name == name
                            && forall j :: 0 <= j < i ==> pipes[j].name != name
    {
      var i := 0;
      while i < |pipes|
        invariant i <= |pipes|
        invariant forall j :: 0 <= j < i ==> pipes[j].name != name
      {
        if pipes[i].name == name {
          return pipes[i];
        }
        i := i + 1;
      }
      return null;
    }

    /** A write to a listed pipe; every other pipe, and every thread waiting on another pipe, stays as it was. */
    method WriteTo(pipe: Pipe, thread: Thread, msg: Message) returns (result: int)
      requires Valid() && pipe in pipes
      modifies Footprint(), thread`blockedBy, Waiters()`blockedBy
      ensures Valid() && unchanged(this) && forall p :: p in pipes && p != pipe ==> unchanged(p)
      ensures result == if |msg| > pipe.messageSize then SYSCALL_RESULT_BAD_PARAM
                      else if IsFull(old(pipe.ring)) && !pipe.purge then SYSCALL_RESULT_PIPE_FULL
                      else SYSCALL_RESULT_OK
      ensures pipe.ring == if result == SYSCALL_RESULT_OK then Put(old(pipe.ring), msg) else old(pipe.ring)
      ensures pipe.readers == if result == SYSCALL_RESULT_OK then [] else old(pipe.readers)
      ensures pipe.writers == old(pipe.writers) + if result == SYSCALL_RESULT_PIPE_FULL then [thread] else []
      ensures result == SYSCALL_RESULT_OK && msg != [] ==>
                Content(pipe.ring) == QueuePut(Content(old(pipe.ring)), Capacity(old(pipe.ring)), msg)
      ensures forall t :: t == thread || t in old(Waiters()) ==>
                t.blockedBy == if result == SYSCALL_RESULT_PIPE_FULL && t == thread then Some(pipe.id)
                               else if result == SYSCALL_RESULT_OK && t in old(pipe.readers) then None
                               else old(t.blockedBy)
    {
      FootprintHas(pipe);
      var code := pipe.Write(thread, msg);
      OthersKept(pipe);
      if code == IPC_RESULT_MESSAGE_TOO_LARGE {
        return SYSCALL_RESULT_BAD_PARAM;
      }
      if code == IPC_RESULT_PIPE_FULL {
        return SYSCALL_RESULT_PIPE_FULL;
      }
      return SYSCALL_RESULT_OK;
    }

    method ReadFrom(pipe: Pipe, thread: Thread) returns (result: int, got: Message)
      requires Valid() && pipe in pipes
      modifies Footprint(), thread`blockedBy, Waiters()`blockedBy
      ensures Valid() && unchanged(this) && forall p :: p in pipes && p != pipe ==> unchanged(p)
      ensures result == if IsEmpty(old(pipe.ring)) then SYSCALL_RESULT_PIPE_EMPTY else SYSCALL_RESULT_OK
      ensures pipe.ring == if result == SYSCALL_RESULT_OK then Take(old(pipe.ring)) else old(pipe.ring)
      ensures pipe.writers == if result == SYSCALL_RESULT_OK then [] else old(pipe.writers)
      ensures pipe.readers == old(pipe.readers) + if result == SYSCALL_RESULT_PIPE_EMPTY then [thread] else []
      ensures result == SYSCALL_RESULT_OK ==> [got] + Content(pipe.ring) == Content(old(pipe.ring))
      ensures forall t :: t == thread || t in old(Waiters()) ==>
                t.blockedBy == if result == SYSCALL_RESULT_PIPE_EMPTY && t == thread then Some(pipe.id)
                               else if result == SYSCALL_RESULT_OK && t in old(pipe.writers) then None
                               else old(t.blockedBy)
    {
      FootprintHas(pipe);
      var code;
      code, got := pipe.Read(thread);
      OthersKept(pipe);
      if code == IPC_RESULT_PIPE_EMPTY {
        return SYSCALL_RESULT_PIPE_EMPTY, got;
      }
      return SYSCALL_RESULT_OK, got;
    }

    /** `ipcm_pipe_write` from its lookup on. */
    method WriteById(thread: Thread, id: PipeId, msg: Message) returns (result: int, ghost pipe: Pipe?)
      requires Valid() && msg != []
      modifies Footprint(), thread`blockedBy, Waiters()`blockedBy
      ensures Valid() && pipes == old(pipes)
      ensures forall p :: p in pipes && p != pipe ==> unchanged(p)
      ensures pipe != null ==> pipe in pipes && IsFirst(pipe, id)
      ensures pipe == null <==> forall p :: p in pipes ==> p.id != id
      ensures pipe == null ==> result == SYSCALL_RESULT_NOT_FOUND
      ensures pipe != null ==>
                && result == (if |msg| > pipe.messageSize then SYSCALL_RESULT_BAD_PARAM
                              else if IsFull(old(pipe.ring)) && !pipe.purge then SYSCALL_RESULT_PIPE_FULL
                              else SYSCALL_RESULT_OK)
                && pipe.ring == (if result == SYSCALL_RESULT_OK then Put(old(pipe.ring), msg) else old(pipe.ring))
                && pipe.readers == (if result == SYSCALL_RESULT_OK then [] else old(pipe.readers))
                && pipe.writers == old(pipe.writers) + if result == SYSCALL_RESULT_PIPE_FULL then [thread] else []
      ensures pipe != null && result == SYSCALL_RESULT_OK ==>
                Content(pipe.ring) == QueuePut(Content(old(pipe.ring)), Capacity(old(pipe.ring)), msg)
      ensures pipe == null ==> forall t :: t == thread || t in old(Waiters()) ==> t.blockedBy == old(t.blockedBy)
      ensures pipe != null ==> forall t :: t == thread || t in old(Waiters()) ==>
                t.blockedBy == if result == SYSCALL_RESULT_PIPE_FULL && t == thread then Some(pipe.id)
                               else if result == SYSCALL_RESULT_OK && t in old(pipe.readers) then None
                               else old(t.blockedBy)
    {
      pipe := null;
      var found := LookupById(id);
      if found == null {
        return SYSCALL_RESULT_NOT_FOUND, pipe;
      }
      pipe := found;
      result := WriteTo(found, thread, msg);
    }

    /** The write call: refuses an empty message, looks the pipe up, and passes the result on. */
    method PipeWrite(thread: Thread, id: PipeId, msg: Message) returns (result: int, ghost pipe: Pipe?)
      requires Valid()
      modifies Footprint(), thread`blockedBy, Waiters()`blockedBy
      ensures Valid() && pipes == old(pipes)
      ensures forall p :: p in pipes && p != pipe ==> unchanged(p)
      ensures pipe != null ==> pipe in pipes && IsFirst(pipe, id)
      ensures pipe == null <==> msg == [] || forall p :: p in pipes ==> p.id != id
      ensures pipe == null ==> result == if msg == [] then SYSCALL_RESULT_BAD_PARAM else SYSCALL_RESULT_NOT_FOUND
      ensures pipe != null ==>
                && result == (if |msg| > pipe.messageSize then SYSCALL_RESULT_BAD_PARAM
                              else if IsFull(old(pipe.ring)) && !pipe.purge then SYSCALL_RESULT_PIPE_FULL
                              else SYSCALL_RESULT_OK)
                && pipe.ring == (if result == SYSCALL_RESULT_OK then Put(old(pipe.ring), msg) else old(pipe.ring))
                && pipe.readers == (if result == SYSCALL_RESULT_OK then [] else old(pipe.readers))
                && pipe.writers == old(pipe.writers) + if result == SYSCALL_RESULT_PIPE_FULL then [thread] else []
      ensures pipe != null && result == SYSCALL_RESULT_OK ==>
                Content(pipe.ring) == QueuePut(Content(old(pipe.ring)), Capacity(old(pipe.ring)), msg)
      ensures pipe == null ==> forall t :: t == thread || t in old(Waiters()) ==> t.blockedBy == old(t.blockedBy)
      ensures pipe != null ==> forall t :: t == thread || t in old(Waiters()) ==>
                t.blockedBy == if result == SYSCALL_RESULT_PIPE_FULL && t == thread then Some(pipe.id)
                               else if result == SYSCALL_RESULT_OK && t in old(pipe.readers) then None
                               else old(t.blockedBy)
    {
      if msg == [] {
        return SYSCALL_RESULT_BAD_PARAM, null;
      }
      result, pipe := WriteById(thread, id, msg);
    }

    /** The read call. */
    method PipeRead(thread: Thread, id: PipeId) returns (result: int, got: Message, ghost pipe: Pipe?)
      requires Valid()
      modifies Footprint(), thread`blockedBy, Waiters()`blockedBy
      ensures Valid() && pipes == old(pipes)
      ensures forall p :: p in pipes && p != pipe ==> unchanged(p)
      ensures pipe != null ==> pipe in pipes && IsFirst(pipe, id)
      ensures pipe == null <==> forall p :: p in pipes ==> p.id != id
      ensures pipe == null ==> result == SYSCALL_RESULT_NOT_FOUND
      ensures pipe != null ==>
                && result == (if IsEmpty(old(pipe.ring)) then SYSCALL_RESULT_PIPE_EMPTY else SYSCALL_RESULT_OK)
                && pipe.ring == (if result == SYSCALL_RESULT_OK then Take(old(pipe.ring)) else old(pipe.ring))
                && pipe.writers == (if result == SYSCALL_RESULT_OK then [] else old(pipe.writers))
                && pipe.readers == old(pipe.readers) + if result == SYSCALL_RESULT_PIPE_EMPTY then [thread] else []
      ensures pipe != null && result == SYSCALL_RESULT_OK ==> [got] + Content(pipe.ring) == Content(old(pipe.ring))
      ensures pipe == null ==> forall t :: t == thread || t in old(Waiters()) ==> t.blockedBy == old(t.blockedBy)
      ensures pipe != null ==> forall t :: t == thread || t in old(Waiters()) ==>
                t.blockedBy == if result == SYSCALL_RESULT_PIPE_EMPTY && t == thread then Some(pipe.id)
                               else if result == SYSCALL_RESULT_OK && t in old(pipe.writers) then None
                               else old(t.blockedBy)
    {
      got, pipe := [], null;
      var found := LookupById(id);
      if found == null {
        return SYSCALL_RESULT_NOT_FOUND, got, pipe;
      }
      pipe := found;
      result, got := ReadFrom(found, thread);
    }

    lemma FootprintHas(pipe: Pipe)
      requires pipe in pipes
      ensures pipe.Repr <= Footprint()
      ensures forall t :: t in pipe.readers || t in pipe.writers ==> t in Waiters()
    {
      forall t | t in pipe.readers || t in pipe.writers ensures t in Waiters() {
        assert t in pipe.readers + pipe.writers;
      }
    }

    /** Changing one pipe's objects leaves the others as they were. */
    twostate lemma OthersKept(pipe: Pipe)
      requires old(Valid()) && unchanged(this) && pipe in pipes && pipe.Valid()
      requires forall o: object :: o in old(Footprint()) && o !in pipe.Repr ==> unchanged(o)
      ensures Valid()
      ensures forall p :: p in pipes && p != pipe ==> unchanged(p)
    {
      var k :| 0 <= k < |pipes| && pipes[k] == pipe;
      forall i | 0 <= i < |pipes| && pipes[i] != pipe ensures pipes[i].Valid() && unchanged(pipes[i]) {
        var p := pipes[i];
        assert p in pipes && p in p.Repr;
        assert if i < k then Separate(pipes[i], pipes[k]) else Separate(pipes[k], pipes[i]);
        assert forall o :: o in p.Repr ==> o in old(Footprint()) && o !in pipe.Repr ==> unchanged(o);
      }
    }
  }

  /** `rw_list_recurse_notify`: the threads of the list are notified from the last to the first. */
  method NotifyAll(list: seq<Thread>)
    modifies (set t | t in list)`blockedBy
    ensures forall t :: t in list ==> t.blockedBy == None
  {
    if list != [] {
      NotifyAll(list[1..]);
      list[0].blockedBy := None;
    }
  }
}
