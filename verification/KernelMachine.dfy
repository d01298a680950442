/**
 The kernel's shared state with every CPU at work: threads making pipe calls, each pipe's critical section
 advancing one update at a time, and scheduling passes in between.

 Only the pipe's lock keeps two threads apart. A thread's `blocked_by` is written under that thread's own
 lock, so each such write is one step; a scheduling pass is one step by abstraction.
 */
module KernelMachine {
  import opened Types
  import opened PipeSpec
  import opened PipeSteps
  import S = SchedulerSpec
  import Runs = SchedulerRuns

  /** Where a thread is with respect to the pipe calls. */
  datatype Ctl =
    | Out
    | Called(pipe: PipeId, op: Op)     // in the system call, before the lookup
    | Wants(pipe: PipeId, op: Op)      // looked up, waiting for the pipe's lock
    | Inside(pipe: PipeId)             // holding the pipe's lock
    | Back(result: Result)             // lock released, result not yet delivered

  datatype Kernel = Kernel(sys: S.Sys, pipes: map<PipeId, Pipe>, ctl: map<Tid, Ctl>)

  datatype Event =
    | Call(tid: Tid, pipe: PipeId, op: Op)
    | Lookup(tid: Tid)
    | Acquire(tid: Tid)
    | Micro(pipe: PipeId)
    | Return(tid: Tid)
    | MakePipe(pipe: PipeId, messageSize: nat, maxMessages: nat, purge: bool, memory: seq<seq<Byte>>)
    | Sched(event: Runs.Event)

  ghost predicate Enabled(k: Kernel, e: Event) {
    match e
    case Call(t, _, _) => t in k.sys.thr && (t in k.ctl ==> k.ctl[t].Out?)
    case Lookup(t) => t in k.ctl && k.ctl[t].Called?
    case Acquire(t) => t in k.ctl && k.ctl[t].Wants? && k.ctl[t].pipe in k.pipes && k.pipes[k.ctl[t].pipe].crit.Free?
    case Micro(p) => p in k.pipes && k.pipes[p].crit.Held?
    case Return(t) => t in k.ctl && k.ctl[t].Back?
    case MakePipe(p, size, max, _, memory) =>
      && p !in k.pipes && 0 < size && 0 < max == |memory|
      && forall i :: 0 <= i < |memory| ==> |memory[i]| == size
    case Sched(event) =>
      && Runs.Enabled(k.sys, event) && !event.Block? && !event.Wake?
      && (event.ScheduleProcess? ==> forall t :: t in event.records ==> event.records[t].blockedBy.None?)
  }

  /** The step guard: a thread that is blocked issues no pipe call. */
  ghost predicate Guard(k: Kernel, e: Event) {
    e.Call? && e.tid in k.sys.thr ==> k.sys.thr[e.tid].blockedBy.None?
  }

  /** The checks made before the pipe's lock is taken. */
  function LookedUp(k: Kernel, p: PipeId, op: Op): Ctl {
    if op.WriteOp? && op.msg == [] then Back(BadParam)
    else if p !in k.pipes then Back(NotFound)
    else if op.WriteOp? && |op.msg| > k.pipes[p].ring.messageSize then Back(TooLarge)
    else Wants(p, op)
  }

  /** What an update of pipe `id` does to a thread's `blocked_by`. */
  ghost function Effect(sys: S.Sys, id: PipeId, p: Pipe): S.Sys
    requires p.crit.Held?
  {
    if p.crit.pc.Block? && p.crit.tid in sys.thr then Runs.Next(sys, Runs.Block(p.crit.tid, id))
    else if Woken(p).Some? && Woken(p).value in sys.thr then Runs.Next(sys, Runs.Wake(Woken(p).value))
    else sys
  }

  ghost function Next(k: Kernel, e: Event): Kernel
    requires Enabled(k, e)
  {
    match e
    case Call(t, p, op) => k.(ctl := k.ctl[t := Called(p, op)])
    case Lookup(t) => k.(ctl := k.ctl[t := LookedUp(k, k.ctl[t].pipe, k.ctl[t].op)])
    case Acquire(t) =>
      var p := k.ctl[t].pipe;
      k.(pipes := k.pipes[p := k.pipes[p].(crit := Held(t, k.ctl[t].op, Test, Done))], ctl := k.ctl[t := Inside(p)])
    case Micro(id) =>
      var p := k.pipes[id];
      Kernel(Effect(k.sys, id, p), k.pipes[id := Advance(p)],
             if p.crit.pc.Unlock? then k.ctl[p.crit.tid := Back(p.crit.result)] else k.ctl)
    case Return(t) => k.(ctl := k.ctl[t := Out])
    case MakePipe(id, size, max, purge, memory) =>
      k.(pipes := k.pipes[id := Pipe(Fresh(size, max, purge, memory), [], [], Free, [], [])])
    case Sched(event) => k.(sys := Runs.Next(k.sys, event))
  }

  // ---------------------------------------------------------------------------------------------
  // The invariant

  ghost predicate Sound(k: Kernel) {
    && (forall id :: id in k.pipes ==> PipeOk(k.pipes[id]) && HolderKnown(k, id) && WaitersKnown(k, id))
    && (forall t :: t in k.ctl ==> t in k.sys.thr && CtlOk(k, t))
    && (forall t :: t in k.sys.thr ==> BlockedIsListed(k, t))
  }

  ghost predicate HolderKnown(k: Kernel, id: PipeId)
    requires id in k.pipes
  {
    var c := k.pipes[id].crit;
    c.Held? ==> c.tid in k.ctl && k.ctl[c.tid] == Inside(id)
  }

  ghost predicate WaitersKnown(k: Kernel, id: PipeId)
    requires id in k.pipes
  {
    forall t :: InLists(k.pipes[id], t) ==> t in k.sys.thr
  }

  ghost predicate CtlOk(k: Kernel, t: Tid)
    requires t in k.ctl
  {
    match k.ctl[t]
    case Wants(id, op) => id in k.pipes && (op.WriteOp? ==> 0 < |op.msg| <= k.pipes[id].ring.messageSize)
    case Inside(id) => id in k.pipes && k.pipes[id].crit.Held? && k.pipes[id].crit.tid == t
    case _ => true
  }

  /** A thread blocked by a pipe is in one of that pipe's lists, and still to be notified. */
  ghost predicate BlockedIsListed(k: Kernel, t: Tid)
    requires t in k.sys.thr
  {
    var b := k.sys.thr[t].blockedBy;
    b.Some? ==> b.value in k.pipes && t in Pending(k.pipes[b.value])
  }

  /** `blocked_by` changes for the thread that blocks itself and for the thread being notified, and for no other. */
  ghost predicate BlockedChange(thr: S.Threads, thr': S.Threads, id: PipeId, p: Pipe)
    requires p.crit.Held?
  {
    && thr'.Keys == thr.Keys
    && forall t :: t in thr ==> thr'[t].blockedBy == NewBlocked(thr[t].blockedBy, id, p, t)
  }

  ghost function NewBlocked(b: Option<PipeId>, id: PipeId, p: Pipe, t: Tid): Option<PipeId>
    requires p.crit.Held?
  {
    if p.crit.pc.Block? && t == p.crit.tid then Some(id) else if Woken(p) == Some(t) then None else b
  }

  lemma EffectChanges(sys: S.Sys, id: PipeId, p: Pipe)
    requires p.crit.Held? && (p.crit.pc.Block? ==> p.crit.tid in sys.thr)
    requires forall t :: InLists(p, t) ==> t in sys.thr
    ensures BlockedChange(sys.thr, Effect(sys, id, p).thr, id, p)
  {
    if Woken(p).Some? {
      assert InLists(p, Woken(p).value);
    }
  }

  /** The kernel after pipe `id` went from its state to `p'`. */
  ghost function Moved(k: Kernel, id: PipeId, sys': S.Sys, p': Pipe): Kernel
    requires id in k.pipes && k.pipes[id].crit.Held?
  {
    var c := k.pipes[id].crit;
    Kernel(sys', k.pipes[id := p'], if c.pc.Unlock? then k.ctl[c.tid := Back(c.result)] else k.ctl)
  }

  lemma MovedPipes(k: Kernel, id: PipeId, sys': S.Sys, p': Pipe, j: PipeId)
    requires Sound(k) && Enabled(k, Micro(id))
    requires PipeOk(p') && Refines(k.pipes[id], p') && WaitersChange(k.pipes[id], p')
    requires sys'.thr.Keys == k.sys.thr.Keys
    requires j in k.pipes
    ensures var k' := Moved(k, id, sys', p');
            j in k'.pipes && PipeOk(k'.pipes[j]) && HolderKnown(k', j) && WaitersKnown(k', j)
  {
    assert HolderKnown(k, id) && WaitersKnown(k, id);
    assert HolderKnown(k, j) && WaitersKnown(k, j);
  }

  lemma MovedThread(k: Kernel, id: PipeId, sys': S.Sys, p': Pipe, t: Tid)
    requires Sound(k) && Enabled(k, Micro(id))
    requires PipeOk(p') && Refines(k.pipes[id], p') && WaitersChange(k.pipes[id], p')
    requires BlockedChange(k.sys.thr, sys'.thr, id, k.pipes[id])
    ensures var k' := Moved(k, id, sys', p');
            && (t in k'.ctl ==> t in k'.sys.thr && CtlOk(k', t))
            && (t in k'.sys.thr ==> BlockedIsListed(k', t))
  {
    if t in k.ctl {
      MovedCtl(k, id, sys', p', t);
    }
    if t in k.sys.thr {
      assert BlockedIsListed(k, t);
    }
  }

  lemma MovedCtl(k: Kernel, id: PipeId, sys': S.Sys, p': Pipe, t: Tid)
    requires Sound(k) && Enabled(k, Micro(id)) && t in k.ctl
    requires PipeOk(p') && Refines(k.pipes[id], p') && sys'.thr.Keys == k.sys.thr.Keys
    ensures var k' := Moved(k, id, sys', p'); t in k'.ctl ==> t in k'.sys.thr && CtlOk(k', t)
  {
    assert HolderKnown(k, id);
    assert CtlOk(k, t);
  }

  lemma MovedSound(k: Kernel, id: PipeId, sys': S.Sys, p': Pipe)
    requires Sound(k) && Enabled(k, Micro(id))
    requires PipeOk(p') && Refines(k.pipes[id], p') && WaitersChange(k.pipes[id], p')
    requires BlockedChange(k.sys.thr, sys'.thr, id, k.pipes[id])
    ensures Sound(Moved(k, id, sys', p'))
  {
    var k' := Moved(k, id, sys', p');
    assert k'.pipes.Keys == k.pipes.Keys;
    forall j | j in k'.pipes ensures PipeOk(k'.pipes[j]) && HolderKnown(k', j) && WaitersKnown(k', j) {
      MovedPipes(k, id, sys', p', j);
    }
    forall t: Tid
      ensures t in k'.ctl ==> t in k'.sys.thr && CtlOk(k', t)
      ensures t in k'.sys.thr ==> BlockedIsListed(k', t)
    {
      MovedThread(k, id, sys', p', t);
    }
  }

  lemma MicroFacts(k: Kernel, id: PipeId)
    requires Sound(k) && Enabled(k, Micro(id))
    ensures var p, k' := k.pipes[id], Next(k, Micro(id));
            && k' == Moved(k, id, Effect(k.sys, id, p), Advance(p))
            && PipeOk(Advance(p)) && Refines(p, Advance(p)) && WaitersChange(p, Advance(p))
            && BlockedChange(k.sys.thr, k'.sys.thr, id, p)
            && Sound(k')
  {
    var p := k.pipes[id];
    AdvanceRefines(p);
    AdvanceChanges(p);
    assert HolderKnown(k, id) && WaitersKnown(k, id);
    EffectChanges(k.sys, id, p);
    MovedSound(k, id, Effect(k.sys, id, p), Advance(p));
  }

  lemma SchedSound(k: Kernel, event: Runs.Event)
    requires Sound(k) && Enabled(k, Sched(event))
    ensures Sound(Next(k, Sched(event)))
  {
    var k' := Next(k, Sched(event));
    SchedKeepsBlocked(k, event);
    forall id | id in k'.pipes ensures HolderKnown(k', id) && WaitersKnown(k', id) {
      assert HolderKnown(k, id) && WaitersKnown(k, id);
    }
    forall t | t in k'.ctl ensures t in k'.sys.thr && CtlOk(k', t) {
      assert CtlOk(k, t);
    }
    forall t | t in k'.sys.thr ensures BlockedIsListed(k', t) {
      assert t in k.sys.thr ==> BlockedIsListed(k, t);
    }
  }

  /** Scheduling never touches `blocked_by`, and new threads are not blocked. */
  lemma SchedKeepsBlocked(k: Kernel, event: Runs.Event)
    requires Enabled(k, Sched(event))
    ensures var thr, thr' := k.sys.thr, Runs.Next(k.sys, event).thr;
            && (forall t :: t in thr ==> t in thr' && thr'[t].blockedBy == thr[t].blockedBy)
            && (forall t :: t in thr' && t !in thr ==> thr'[t].blockedBy.None?)
  {
  }

  lemma CallSound(k: Kernel, e: Event)
    requires Sound(k) && Enabled(k, e) && (e.Call? || e.Lookup? || e.Return?)
    ensures Sound(Next(k, e))
  {
    var k' := Next(k, e);
    forall id | id in k'.pipes ensures PipeOk(k'.pipes[id]) && HolderKnown(k', id) && WaitersKnown(k', id) {
      assert PipeOk(k.pipes[id]) && HolderKnown(k, id) && WaitersKnown(k, id);
    }
    forall t | t in k'.ctl ensures t in k'.sys.thr && CtlOk(k', t) {
      assert t in k.ctl ==> CtlOk(k, t);
    }
    forall t | t in k'.sys.thr ensures BlockedIsListed(k', t) {
      assert BlockedIsListed(k, t);
    }
  }

  lemma AcquireSound(k: Kernel, e: Event)
    requires Sound(k) && Enabled(k, e) && e.Acquire?
    ensures Sound(Next(k, e))
  {
    var k' := Next(k, e);
    assert CtlOk(k, e.tid);
    forall id | id in k'.pipes ensures PipeOk(k'.pipes[id]) && HolderKnown(k', id) && WaitersKnown(k', id) {
      assert PipeOk(k.pipes[id]) && HolderKnown(k, id) && WaitersKnown(k, id);
    }
    forall t | t in k'.ctl ensures t in k'.sys.thr && CtlOk(k', t) {
      assert CtlOk(k, t);
    }
    forall t | t in k'.sys.thr ensures BlockedIsListed(k', t) {
      assert BlockedIsListed(k, t);
    }
  }

  lemma MakePipeSound(k: Kernel, e: Event)
    requires Sound(k) && Enabled(k, e) && e.MakePipe?
    ensures Sound(Next(k, e))
  {
    var k' := Next(k, e);
    TestsAreExact(k'.pipes[e.pipe].ring);
    forall id | id in k'.pipes ensures PipeOk(k'.pipes[id]) && HolderKnown(k', id) && WaitersKnown(k', id) {
      assert id in k.pipes ==> PipeOk(k.pipes[id]) && HolderKnown(k, id) && WaitersKnown(k, id);
    }
    forall t | t in k'.ctl ensures t in k'.sys.thr && CtlOk(k', t) {
      assert CtlOk(k, t);
    }
    forall t | t in k'.sys.thr ensures BlockedIsListed(k', t) {
      assert BlockedIsListed(k, t);
    }
  }

  lemma NextSound(k: Kernel, e: Event)
    requires Sound(k) && Enabled(k, e)
    ensures Sound(Next(k, e))
  {
    match e
    case Micro(id) => MicroFacts(k, id);
    case Sched(event) => SchedSound(k, event);
    case MakePipe(_, _, _, _, _) => MakePipeSound(k, e);
    case Acquire(_) => AcquireSound(k, e);
    case _ => CallSound(k, e);
  }

  // ---------------------------------------------------------------------------------------------
  // Runs

  /** The state before any pipe or pipe call. */
  ghost predicate Initial(k: Kernel) {
    && k.pipes == map[] && k.ctl == map[]
    && Runs.Listed(k.sys) && Runs.Exclusive(k.sys)
    && forall t :: t in k.sys.thr ==> k.sys.thr[t].blockedBy.None?
  }

  ghost predicate IsRun(ks: seq<Kernel>, es: seq<Event>) {
    && |ks| == |es| + 1 && Initial(ks[0])
    && forall i :: 0 <= i < |es| ==> Enabled(ks[i], es[i]) && ks[i + 1] == Next(ks[i], es[i])
  }

  ghost predicate Guarded(ks: seq<Kernel>, es: seq<Event>)
    requires |ks| == |es| + 1
  {
    forall i :: 0 <= i < |es| ==> Guard(ks[i], es[i])
  }

  /** The invariant holds in every state of every run. */
  lemma {:induction false} AlwaysSound(ks: seq<Kernel>, es: seq<Event>, k: nat)
    requires IsRun(ks, es) && k < |ks|
    ensures Sound(ks[k])
  {
    if k > 0 {
      AlwaysSound(ks, es, k - 1);
      NextSound(ks[k - 1], es[k - 1]);
    }
  }

  /**
   No lost wake-up, with no assumption on when threads make calls. In every reachable state: a pipe whose lock is
   free has waiting readers only if it is empty and waiting writers only if it is full; no pipe has both, even
   in the middle of an operation; and a blocked thread is in a list of its pipe, still to be notified.
   */
  lemma NoLostWakeUp(ks: seq<Kernel>, es: seq<Event>, k: nat, id: PipeId)
    requires IsRun(ks, es) && k < |ks| && id in ks[k].pipes
    ensures var p := ks[k].pipes[id];
            && PipeOk(p)
            && (p.crit.Free? && p.readers != [] ==> Content(p.ring) == [])
            && (p.crit.Free? && p.writers != [] ==> |Content(p.ring)| == Capacity(p.ring) && !p.ring.purge)
            && (p.readers == [] || p.writers == [])
            && (forall t :: t in ks[k].sys.thr && ks[k].sys.thr[t].blockedBy == Some(id) ==> t in Pending(p))
  {
    AlwaysSound(ks, es, k);
    var p := ks[k].pipes[id];
    assert PipeOk(p);
    TestsAreExact(p.ring);
    forall t | t in ks[k].sys.thr && ks[k].sys.thr[t].blockedBy == Some(id) ensures t in Pending(p) {
      assert BlockedIsListed(ks[k], t);
    }
  }

  /** On a pipe that purges, no write is ever told to wait: none joins the list, and none returns PIPE_FULL. */
  lemma PurgeNeverFull(ks: seq<Kernel>, es: seq<Event>, k: nat, id: PipeId)
    requires IsRun(ks, es) && k < |ks| && id in ks[k].pipes && ks[k].pipes[id].ring.purge
    ensures var p := ks[k].pipes[id];
            && p.writers == []
            && (p.crit.Held? && p.crit.op.WriteOp? ==>
                  !p.crit.pc.Append? && !p.crit.pc.Block? && !p.crit.result.PipeFull?)
  {
    AlwaysSound(ks, es, k);
    assert PipeOk(ks[k].pipes[id]);
  }

  // ---------------------------------------------------------------------------------------------
  // Linearizability: the machine refines atomic FIFO queues

  datatype Shape = Shape(messageSize: nat, capacity: nat, purge: bool)

  datatype Status = Idle | Asking(pipe: PipeId, op: Op) | Answered(result: Result)

  datatype Atomic = Atomic(shapes: map<PipeId, Shape>, queues: map<PipeId, seq<Message>>, status: map<Tid, Status>)

  /** What the callers see. */
  datatype Label =
    | Invoke(tid: Tid, pipe: PipeId, op: Op)
    | Respond(tid: Tid, result: Result)
    | Made(pipe: PipeId, messageSize: nat, maxMessages: nat, purge: bool)
    | Internal

  /** One thread's pending operation takes effect, all at once. */
  ghost predicate Performs(a: Atomic, a': Atomic, t: Tid) {
    && t in a.status && a.status[t].Asking?
    && var id, op := a.status[t].pipe, a.status[t].op;
       if op.WriteOp? && op.msg == [] then a' == a.(status := a.status[t := Answered(BadParam)])
       else if id !in a.queues || id !in a.shapes then a' == a.(status := a.status[t := Answered(NotFound)])
       else if op.WriteOp? && |op.msg| > a.shapes[id].messageSize then
         a' == a.(status := a.status[t := Answered(TooLarge)])
       else
         var q, shape := a.queues[id], a.shapes[id];
         a' == a.(queues := a.queues[id := After(q, shape.capacity, shape.purge, op)],
                  status := a.status[t := Answered(Answer(q, shape.capacity, shape.purge, op))])
  }

  ghost predicate AtomicStep(a: Atomic, a': Atomic, seen: Label) {
    match seen
    case Invoke(t, id, op) =>
      (t in a.status ==> a.status[t].Idle?) && a' == a.(status := a.status[t := Asking(id, op)])
    case Respond(t, result) =>
      t in a.status && a.status[t] == Answered(result) && a' == a.(status := a.status[t := Idle])
    case Made(id, size, max, purge) =>
      && id !in a.queues && a'.queues == a.queues[id := []] && a'.status == a.status
      && a'.shapes == a.shapes[id := Shape(size, if max > 1 then max - 1 else 1, purge)]
    case Internal => a' == a || exists t :: Performs(a, a', t)
  }

  ghost function ShapeOf(r: Ring): Shape
    requires WellFormed(r)
  {
    Shape(r.messageSize, Capacity(r), r.purge)
  }

  ghost function StatusOf(k: Kernel, t: Tid): Status
    requires Sound(k) && t in k.ctl
  {
    match k.ctl[t]
    case Out => Idle
    case Called(id, op) => Asking(id, op)
    case Wants(id, op) => Asking(id, op)
    case Inside(id) =>
      assert CtlOk(k, t);
      var p := k.pipes[id];
      if p.crit.pc.Test? then Asking(id, p.crit.op) else Answered(Outcome(p))
    case Back(result) => Answered(result)
  }

  ghost predicate AllRings(pipes: map<PipeId, Pipe>) {
    forall id :: id in pipes ==> WellFormed(pipes[id].ring)
  }

  ghost function Shapes(pipes: map<PipeId, Pipe>): map<PipeId, Shape>
    requires AllRings(pipes)
  {
    map id | id in pipes :: ShapeOf(pipes[id].ring)
  }

  ghost function Queues(pipes: map<PipeId, Pipe>): map<PipeId, seq<Message>>
    requires AllRings(pipes)
  {
    map id | id in pipes :: Queue(pipes[id])
  }

  ghost function Statuses(k: Kernel): map<Tid, Status>
    requires Sound(k)
  {
    map t | t in k.ctl :: StatusOf(k, t)
  }

  ghost function Abstract(k: Kernel): Atomic
    requires Sound(k)
  {
    assert AllRings(k.pipes) by {
      assert forall id :: id in k.pipes ==> PipeOk(k.pipes[id]);
    }
    Atomic(Shapes(k.pipes), Queues(k.pipes), Statuses(k))
  }

  lemma PipeReplaced(pipes: map<PipeId, Pipe>, id: PipeId, p': Pipe)
    requires AllRings(pipes) && WellFormed(p'.ring)
    ensures AllRings(pipes[id := p'])
    ensures Shapes(pipes[id := p']) == Shapes(pipes)[id := ShapeOf(p'.ring)]
    ensures Queues(pipes[id := p']) == Queues(pipes)[id := Queue(p')]
    ensures id in pipes && ShapeOf(p'.ring) == ShapeOf(pipes[id].ring) ==> Shapes(pipes[id := p']) == Shapes(pipes)
    ensures id in pipes && Queue(p') == Queue(pipes[id]) ==> Queues(pipes[id := p']) == Queues(pipes)
  {
  }

  /** Only this thread's status differs. */
  lemma StatusReplaced(k: Kernel, k': Kernel, t: Tid)
    requires Sound(k) && Sound(k') && t in k'.ctl && k'.ctl.Keys == k.ctl.Keys + {t}
    requires forall u :: u in k.ctl && u != t ==> StatusOf(k', u) == StatusOf(k, u)
    ensures Statuses(k') == Statuses(k)[t := StatusOf(k', t)]
    ensures t in k.ctl && StatusOf(k', t) == StatusOf(k, t) ==> Statuses(k') == Statuses(k)
  {
    var m, m' := Statuses(k), Statuses(k');
    forall u | u in m' ensures m'[u] == m[t := StatusOf(k', t)][u] {}
    assert m'.Keys == m.Keys + {t};
  }

  function LabelOf(k: Kernel, e: Event): Label {
    match e
    case Call(t, id, op) => Invoke(t, id, op)
    case Return(t) => if t in k.ctl && k.ctl[t].Back? then Respond(t, k.ctl[t].result) else Internal
    case MakePipe(id, size, max, purge, _) => Made(id, size, max, purge)
    case _ => Internal
  }

  /** A thread that another thread's step does not concern looks as before. */
  lemma StatusFrame(k: Kernel, k': Kernel, t: Tid)
    requires Sound(k) && Sound(k') && t in k.ctl && t in k'.ctl && k'.ctl[t] == k.ctl[t]
    requires forall id :: id in k.pipes && k.ctl[t] == Inside(id) ==> id in k'.pipes && k'.pipes[id] == k.pipes[id]
    ensures StatusOf(k', t) == StatusOf(k, t)
  {
    assert CtlOk(k, t);
  }

  lemma HolderStatus(k: Kernel, id: PipeId)
    requires Sound(k) && id in k.pipes && k.pipes[id].crit.Held?
    ensures var p, t := k.pipes[id], k.pipes[id].crit.tid;
            && PipeOk(p) && t in k.ctl
            && (forall u :: u in k.ctl && k.ctl[u] == Inside(id) ==> u == t)
            && StatusOf(k, t) == if p.crit.pc.Test? then Asking(id, p.crit.op) else Answered(Outcome(p))
  {
    assert PipeOk(k.pipes[id]) && HolderKnown(k, id);
    forall u | u in k.ctl && k.ctl[u] == Inside(id) ensures u == k.pipes[id].crit.tid {
      assert CtlOk(k, u);
    }
  }

  lemma MovedStatus(k: Kernel, id: PipeId, sys': S.Sys, p': Pipe)
    requires Sound(k) && Enabled(k, Micro(id)) && Sound(Moved(k, id, sys', p'))
    requires PipeOk(p') && Refines(k.pipes[id], p')
    ensures var p, k' := k.pipes[id], Moved(k, id, sys', p');
            var t := p.crit.tid;
            && PipeOk(p) && t in k.ctl && t in k'.ctl
            && StatusOf(k, t) == (if p.crit.pc.Test? then Asking(id, p.crit.op) else Answered(Outcome(p)))
            && StatusOf(k', t) == Answered(if p.crit.pc.Test? then Outcome(p') else Outcome(p))
  {
    HolderStatus(k, id);
    if p'.crit.Held? {
      HolderStatus(Moved(k, id, sys', p'), id);
    }
  }

  lemma MovedOthers(k: Kernel, id: PipeId, sys': S.Sys, p': Pipe, u: Tid)
    requires Sound(k) && Enabled(k, Micro(id)) && Sound(Moved(k, id, sys', p'))
    requires u in k.ctl && u != k.pipes[id].crit.tid
    ensures StatusOf(Moved(k, id, sys', p'), u) == StatusOf(k, u)
  {
    HolderStatus(k, id);
    StatusFrame(k, Moved(k, id, sys', p'), u);
  }

  lemma MovedLinearizes(k: Kernel, id: PipeId, sys': S.Sys, p': Pipe)
    requires Sound(k) && Enabled(k, Micro(id)) && Sound(Moved(k, id, sys', p'))
    requires PipeOk(p') && Refines(k.pipes[id], p')
    ensures AtomicStep(Abstract(k), Abstract(Moved(k, id, sys', p')), Internal)
  {
    var p, k' := k.pipes[id], Moved(k, id, sys', p');
    var t := p.crit.tid;
    var a, a' := Abstract(k), Abstract(k');
    MovedStatus(k, id, sys', p');
    PipeReplaced(k.pipes, id, p');
    forall u | u in k.ctl && u != t ensures StatusOf(k', u) == StatusOf(k, u) {
      MovedOthers(k, id, sys', p', u);
    }
    StatusReplaced(k, k', t);
    if p.crit.pc.Test? {
      assert Performs(a, a', t) by {
        HolderAsks(k, id);
      }
    }
  }

  /** An operation that is making its test was found to be acceptable before. */
  lemma HolderAsks(k: Kernel, id: PipeId)
    requires Sound(k) && id in k.pipes && k.pipes[id].crit.Held?
    ensures var op := k.pipes[id].crit.op; op.WriteOp? ==> 0 < |op.msg| <= k.pipes[id].ring.messageSize
  {
    assert PipeOk(k.pipes[id]);
  }

  lemma MicroLinearizes(k: Kernel, id: PipeId)
    requires Sound(k) && Enabled(k, Micro(id))
    ensures Sound(Next(k, Micro(id)))
    ensures AtomicStep(Abstract(k), Abstract(Next(k, Micro(id))), Internal)
  {
    MicroFacts(k, id);
    MovedLinearizes(k, id, Effect(k.sys, id, k.pipes[id]), Advance(k.pipes[id]));
  }

  lemma ThreadStepAbstract(k: Kernel, e: Event)
    requires Sound(k) && Enabled(k, e) && (e.Call? || e.Lookup? || e.Return?)
    ensures Sound(Next(k, e)) && e.tid in Next(k, e).ctl
    ensures Abstract(Next(k, e))
            == Abstract(k).(status := Abstract(k).status[e.tid := StatusOf(Next(k, e), e.tid)])
  {
    NextSound(k, e);
    var k' := Next(k, e);
    forall u | u in k.ctl && u != e.tid ensures StatusOf(k', u) == StatusOf(k, u) {
      StatusFrame(k, k', u);
    }
    StatusReplaced(k, k', e.tid);
  }

  lemma CallLinearizes(k: Kernel, e: Event)
    requires Sound(k) && Enabled(k, e) && (e.Call? || e.Return?)
    ensures Sound(Next(k, e))
    ensures AtomicStep(Abstract(k), Abstract(Next(k, e)), LabelOf(k, e))
  {
    ThreadStepAbstract(k, e);
  }

  lemma LookupLinearizes(k: Kernel, t: Tid)
    requires Sound(k) && Enabled(k, Lookup(t))
    ensures Sound(Next(k, Lookup(t)))
    ensures AtomicStep(Abstract(k), Abstract(Next(k, Lookup(t))), Internal)
  {
    if LookedUp(k, k.ctl[t].pipe, k.ctl[t].op).Back? {
      LookupRefuses(k, t);
    } else {
      LookupPasses(k, t);
    }
  }

  lemma LookupRefuses(k: Kernel, t: Tid)
    requires Sound(k) && Enabled(k, Lookup(t)) && LookedUp(k, k.ctl[t].pipe, k.ctl[t].op).Back?
    ensures Sound(Next(k, Lookup(t)))
    ensures AtomicStep(Abstract(k), Abstract(Next(k, Lookup(t))), Internal)
  {
    var id, op := k.ctl[t].pipe, k.ctl[t].op;
    ThreadStepAbstract(k, Lookup(t));
    AbstractPipe(k, id);
    LookupAnswers(Abstract(k), Abstract(Next(k, Lookup(t))), t, id, op, LookedUp(k, id, op).result);
  }

  lemma LookupPasses(k: Kernel, t: Tid)
    requires Sound(k) && Enabled(k, Lookup(t)) && LookedUp(k, k.ctl[t].pipe, k.ctl[t].op).Wants?
    ensures Sound(Next(k, Lookup(t)))
    ensures Abstract(Next(k, Lookup(t))) == Abstract(k)
  {
    ThreadStepAbstract(k, Lookup(t));
    SameStatus(Abstract(k), t, Asking(k.ctl[t].pipe, k.ctl[t].op));
  }

  lemma AbstractPipe(k: Kernel, id: PipeId)
    requires Sound(k)
    ensures id in k.pipes <==> id in Abstract(k).queues && id in Abstract(k).shapes
    ensures id in k.pipes ==>
              id in Abstract(k).shapes && Abstract(k).shapes[id].messageSize == k.pipes[id].ring.messageSize
  {
  }

  lemma SameStatus(a: Atomic, t: Tid, status: Status)
    requires t in a.status && a.status[t] == status
    ensures a.(status := a.status[t := status]) == a
  {
  }

  /** The answers that need no lock are the atomic machine's own. */
  lemma LookupAnswers(a: Atomic, a': Atomic, t: Tid, id: PipeId, op: Op, result: Result)
    requires t in a.status && a.status[t] == Asking(id, op) && a' == a.(status := a.status[t := Answered(result)])
    requires if op.WriteOp? && op.msg == [] then result == BadParam
             else if id !in a.queues || id !in a.shapes then result == NotFound
             else op.WriteOp? && |op.msg| > a.shapes[id].messageSize && result == TooLarge
    ensures AtomicStep(a, a', Internal)
  {
    assert Performs(a, a', t);
  }

  lemma AcquireLinearizes(k: Kernel, t: Tid)
    requires Sound(k) && Enabled(k, Acquire(t))
    ensures Sound(Next(k, Acquire(t)))
    ensures Abstract(Next(k, Acquire(t))) == Abstract(k)
  {
    NextSound(k, Acquire(t));
    var k', id := Next(k, Acquire(t)), k.ctl[t].pipe;
    assert PipeOk(k.pipes[id]) && PipeOk(k'.pipes[id]);
    HolderStatus(k', id);
    forall u | u in k.ctl && u != t ensures StatusOf(k', u) == StatusOf(k, u) {
      assert CtlOk(k, u);
      StatusFrame(k, k', u);
    }
    assert AllRings(k.pipes);
    PipeReplaced(k.pipes, id, k'.pipes[id]);
    StatusReplaced(k, k', t);
  }

  /** A pass, or any other scheduling event, is not seen by the callers of pipes. */
  lemma SchedLinearizes(k: Kernel, event: Runs.Event)
    requires Sound(k) && Enabled(k, Sched(event))
    ensures Sound(Next(k, Sched(event)))
    ensures Abstract(Next(k, Sched(event))) == Abstract(k)
  {
    NextSound(k, Sched(event));
    var k' := Next(k, Sched(event));
    forall u | u in k.ctl ensures StatusOf(k', u) == StatusOf(k, u) {
      StatusFrame(k, k', u);
    }
    assert Statuses(k') == Statuses(k);
  }

  lemma MadeStatuses(k: Kernel, e: Event)
    requires Sound(k) && Enabled(k, e) && e.MakePipe?
    ensures Sound(Next(k, e)) && Statuses(Next(k, e)) == Statuses(k)
  {
    NextSound(k, e);
    var k' := Next(k, e);
    forall u | u in k.ctl ensures StatusOf(k', u) == StatusOf(k, u) {
      StatusFrame(k, k', u);
    }
  }

  lemma MakePipeLinearizes(k: Kernel, e: Event)
    requires Sound(k) && Enabled(k, e) && e.MakePipe?
    ensures Sound(Next(k, e))
    ensures AtomicStep(Abstract(k), Abstract(Next(k, e)), LabelOf(k, e))
  {
    MadeStatuses(k, e);
    assert AllRings(k.pipes);
    PipeReplaced(k.pipes, e.pipe, Next(k, e).pipes[e.pipe]);
  }

  /**
   Linearizability: in every run, whatever the interleaving of the single updates, each step looks to the callers
   like a step of atomic FIFO queues of capacity max(1, max_messages - 1); an operation takes effect between
   its call and its return, namely when it tests the pipe under the lock.
   */
  lemma Linearizable(ks: seq<Kernel>, es: seq<Event>, k: nat)
    requires IsRun(ks, es) && k < |es|
    ensures Sound(ks[k]) && Sound(ks[k + 1])
    ensures AtomicStep(Abstract(ks[k]), Abstract(ks[k + 1]), LabelOf(ks[k], es[k]))
    ensures Abstract(ks[0]) == Atomic(map[], map[], map[])
  {
    AlwaysSound(ks, es, k);
    AlwaysSound(ks, es, 0);
    match es[k]
    case Micro(id) => MicroLinearizes(ks[k], id);
    case Acquire(t) => AcquireLinearizes(ks[k], t);
    case MakePipe(_, _, _, _, _) => MakePipeLinearizes(ks[k], es[k]);
    case Sched(event) => SchedLinearizes(ks[k], event);
    case Lookup(t) => LookupLinearizes(ks[k], t);
    case _ => CallLinearizes(ks[k], es[k]);
  }
}
